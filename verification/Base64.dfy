/** Unpadded base64 (section 4 and 5 of RFC 4648) as Go's RawStdEncoding and RawURLEncoding read and write it: the
    decoder skips line breaks and ignores the unused low bits of the last character. */
module Base64 {
  import opened Basics

  type Byte = n: nat | n < 256
  type Sextet = n: nat | n < 64

  /** The two alphabets, A-Z a-z 0-9, differ in their last two characters. */
  function Digit(url: bool, v: Sextet): char {
    if v < 26 then 'A' + v as char
    else if v < 52 then 'a' + (v - 26) as char
    else if v < 62 then '0' + (v - 52) as char
    else if v == 62 then (if url then '-' else '+')
    else if url then '_' else '/'
  }

  function Value(url: bool, c: char): Option<Sextet> {
    if 'A' <= c <= 'Z' then Some(c as int - 'A' as int)
    else if 'a' <= c <= 'z' then Some(c as int - 'a' as int + 26)
    else if '0' <= c <= '9' then Some(c as int - '0' as int + 52)
    else if c == (if url then '-' else '+') then Some(62)
    else if c == (if url then '_' else '/') then Some(63)
    else None
  }

  predicate IsDigit(url: bool, c: char) {
    Value(url, c).Some?
  }

  predicate IsBreak(c: char) {
    c == '\r' || c == '\n'
  }

  /** Every value has one digit, and every digit one value. */
  lemma ValueOfDigit(url: bool, v: Sextet)
    ensures Value(url, Digit(url, v)) == Some(v)
    ensures !IsBreak(Digit(url, v)) && Digit(url, v) != '$'
  {
  }

  lemma DigitOfValue(url: bool, c: char)
    requires IsDigit(url, c)
    ensures Digit(url, Value(url, c).value) == c
  {
  }

  // ---------------------------------------------------------------- three bytes, four characters

  // The characters that carry the bytes a, b and c, and the bytes that the characters w, x, y and z carry.
  function First(a: Byte): Sextet { a / 4 }
  function Second(a: Byte, b: Byte): Sextet { a % 4 * 16 + b / 16 }
  function Third(b: Byte, c: Byte): Sextet { b % 16 * 4 + c / 64 }
  function Fourth(c: Byte): Sextet { c % 64 }
  function A(w: Sextet, x: Sextet): Byte { w * 4 + x / 16 }
  function B(x: Sextet, y: Sextet): Byte { x % 16 * 16 + y / 4 }
  function C(y: Sextet, z: Sextet): Byte { y % 4 * 64 + z }

  lemma Octet(a: Byte, b: Byte, c: Byte)
    ensures A(First(a), Second(a, b)) == a && B(Second(a, b), Third(b, c)) == b && C(Third(b, c), Fourth(c)) == c
  {
  }

  lemma Quantum(w: Sextet, x: Sextet, y: Sextet, z: Sextet)
    ensures First(A(w, x)) == w && Second(A(w, x), B(x, y)) == x
    ensures Third(B(x, y), C(y, z)) == y && Fourth(C(y, z)) == z
    ensures Second(A(w, x), 0) == x <==> x % 16 == 0
    ensures Third(B(x, y), 0) == y <==> y % 4 == 0
  {
  }

  function Sextets(b: seq<Byte>): seq<Sextet> {
    if |b| == 0 then []
    else if |b| == 1 then [First(b[0]), Second(b[0], 0)]
    else if |b| == 2 then [First(b[0]), Second(b[0], b[1]), Third(b[1], 0)]
    else [First(b[0]), Second(b[0], b[1]), Third(b[1], b[2]), Fourth(b[2])] + Sextets(b[3..])
  }

  function Octets(s: seq<Sextet>): Option<seq<Byte>> {
    if |s| == 0 then Some([])
    else if |s| == 1 then None
    else if |s| == 2 then Some([A(s[0], s[1])])
    else if |s| == 3 then Some([A(s[0], s[1]), B(s[1], s[2])])
    else
      var rest := Octets(s[4..]);
      if rest.None? then None else Some([A(s[0], s[1]), B(s[1], s[2]), C(s[2], s[3])] + rest.value)
  }

  function Encode(url: bool, b: seq<Byte>): string {
    Digits(url, Sextets(b))
  }

  function Digits(url: bool, s: seq<Sextet>): string {
    if s == [] then "" else [Digit(url, s[0])] + Digits(url, s[1..])
  }

  /** The values of the characters that are not line breaks, unless one of them is no digit. */
  function Values(url: bool, s: string): Option<seq<Sextet>> {
    if s == "" then Some([])
    else
      var rest := Values(url, s[1..]);
      if IsBreak(s[0]) then rest
      else if rest.None? || Value(url, s[0]).None? then None
      else Some([Value(url, s[0]).value] + rest.value)
  }

  function Decode(url: bool, s: string): Option<seq<Byte>> {
    var v := Values(url, s);
    if v.None? then None else Octets(v.value)
  }

  // ---------------------------------------------------------------- theorems

  lemma OctetsOf(w: Sextet, x: Sextet, y: Sextet, z: Sextet, rest: seq<Sextet>)
    ensures Octets([w, x]) == Some([A(w, x)])
    ensures Octets([w, x, y]) == Some([A(w, x), B(x, y)])
    ensures Octets(rest).Some? ==>
              Octets([w, x, y, z] + rest) == Some([A(w, x), B(x, y), C(y, z)] + Octets(rest).value)
  {
    assert ([w, x, y, z] + rest)[4..] == rest;
  }

  lemma TwoBack(a: Byte, w: Sextet, x: Sextet)
    requires a == A(w, x)
    ensures Octets([w, x]) == Some([a])
  {
    OctetsOf(w, x, 0, 0, []);
  }

  lemma ThreeBack(a: Byte, b: Byte, w: Sextet, x: Sextet, y: Sextet)
    requires a == A(w, x) && b == B(x, y)
    ensures Octets([w, x, y]) == Some([a, b])
  {
    OctetsOf(w, x, y, 0, []);
  }

  lemma FourBack(a: Byte, b: Byte, c: Byte, w: Sextet, x: Sextet, y: Sextet, z: Sextet, more: seq<Byte>)
    requires a == A(w, x) && b == B(x, y) && c == C(y, z) && Octets(Sextets(more)) == Some(more)
    ensures Octets([w, x, y, z] + Sextets(more)) == Some([a, b, c] + more)
  {
    OctetsOf(w, x, y, z, Sextets(more));
  }

  lemma OneByte(a: Byte)
    ensures Octets(Sextets([a])) == Some([a])
  {
    Octet(a, 0, 0);
    TwoBack(a, First(a), Second(a, 0));
  }

  lemma TwoBytes(a: Byte, b: Byte)
    ensures Octets(Sextets([a, b])) == Some([a, b])
  {
    Octet(a, b, 0);
    ThreeBack(a, b, First(a), Second(a, b), Third(b, 0));
  }

  lemma ThreeBytes(a: Byte, b: Byte, c: Byte, more: seq<Byte>)
    requires Octets(Sextets(more)) == Some(more)
    ensures Octets(Sextets([a, b, c] + more)) == Some([a, b, c] + more)
  {
    Octet(a, b, c);
    FourBack(a, b, c, First(a), Second(a, b), Third(b, c), Fourth(c), more);
    assert ([a, b, c] + more)[3..] == more;
  }

  lemma {:induction false} OctetsUndoSextets(b: seq<Byte>)
    ensures Octets(Sextets(b)) == Some(b)
  {
    if |b| > 2 {
      OctetsUndoSextets(b[3..]);
      ThreeBytes(b[0], b[1], b[2], b[3..]);
      assert b == [b[0], b[1], b[2]] + b[3..];
    } else if |b| == 2 {
      TwoBytes(b[0], b[1]);
      assert b == [b[0], b[1]];
    } else if |b| == 1 {
      OneByte(b[0]);
      assert b == [b[0]];
    }
  }

  lemma {:induction false} ValuesUndoDigits(url: bool, s: seq<Sextet>)
    ensures Values(url, Digits(url, s)) == Some(s)
    ensures |Digits(url, s)| == |s|
    ensures forall c :: c in Digits(url, s) ==> IsDigit(url, c)
  {
    if s != [] {
      ValuesUndoDigits(url, s[1..]);
      ValueOfDigit(url, s[0]);
      assert Digits(url, s)[0] == Digit(url, s[0]) && Digits(url, s)[1..] == Digits(url, s[1..]);
      assert s == [s[0]] + s[1..];
    }
  }

  /** Decoding undoes encoding, for every sequence of bytes. */
  lemma DecodeUndoesEncode(url: bool, b: seq<Byte>)
    ensures Decode(url, Encode(url, b)) == Some(b)
  {
    ValuesUndoDigits(url, Sextets(b));
    OctetsUndoSextets(b);
  }

  function WithoutBreaks(s: string): string {
    if s == "" then "" else (if IsBreak(s[0]) then "" else [s[0]]) + WithoutBreaks(s[1..])
  }

  lemma {:induction false} ValuesIff(url: bool, s: string)
    ensures Values(url, s).Some? <==> forall c :: c in s ==> IsBreak(c) || IsDigit(url, c)
    ensures Values(url, s).Some? ==> |Values(url, s).value| == |WithoutBreaks(s)|
  {
    if s != "" {
      ValuesIff(url, s[1..]);
      assert forall c :: c in s <==> c == s[0] || c in s[1..];
    }
  }

  lemma {:induction false} OctetsIff(s: seq<Sextet>)
    ensures Octets(s).Some? <==> |s| % 4 != 1
  {
    if |s| > 3 {
      OctetsIff(s[4..]);
      assert |s| == |s[4..]| + 4;
    }
  }

  /** What the decoder accepts, exactly: digits and line breaks, the digits not one more than a multiple of four. */
  lemma DecodesIff(url: bool, s: string)
    ensures Decode(url, s).Some? <==>
            (forall c :: c in s ==> IsBreak(c) || IsDigit(url, c)) && |WithoutBreaks(s)| % 4 != 1
  {
    ValuesIff(url, s);
    if Values(url, s).Some? { OctetsIff(Values(url, s).value); }
  }

  /** The low bits the last character does not need are zero. */
  predicate SpareBitsClear(s: seq<Sextet>) {
    && (|s| % 4 == 2 ==> s[|s| - 1] % 16 == 0)
    && (|s| % 4 == 3 ==> s[|s| - 1] % 4 == 0)
  }

  /** One quantum of four characters goes there and back; what follows it decides. */
  lemma QuantumThenRest(s: seq<Sextet>)
    requires |s| > 3 && Octets(s).Some?
    ensures Octets(s[4..]).Some?
    ensures Sextets(Octets(s).value) == s[..4] + Sextets(Octets(s[4..]).value)
  {
    Quantum(s[0], s[1], s[2], s[3]);
    assert Octets(s).value[3..] == Octets(s[4..]).value;
  }

  lemma SpareBitsOfRest(s: seq<Sextet>)
    requires |s| > 3
    ensures SpareBitsClear(s) <==> SpareBitsClear(s[4..])
  {
    assert |s| == |s[4..]| + 4;
    assert s[4..] != [] ==> s[4..][|s[4..]| - 1] == s[|s| - 1];
  }

  lemma {:induction false} SextetsUndoOctetsIff(s: seq<Sextet>)
    requires Octets(s).Some?
    ensures Sextets(Octets(s).value) == s <==> SpareBitsClear(s)
  {
    if |s| > 3 {
      QuantumThenRest(s);
      SpareBitsOfRest(s);
      SextetsUndoOctetsIff(s[4..]);
      assert s == s[..4] + s[4..];
      SamePrefix(s[..4], Sextets(Octets(s[4..]).value), s[4..]);
    } else if |s| == 3 {
      Quantum(s[0], s[1], s[2], 0);
      assert s == [s[0], s[1], s[2]];
    } else if |s| == 2 {
      Quantum(s[0], s[1], 0, 0);
      assert s == [s[0], s[1]];
    }
  }

  lemma SamePrefix(p: seq<Sextet>, a: seq<Sextet>, b: seq<Sextet>)
    ensures p + a == p + b <==> a == b
  {
    assert (p + a)[|p|..] == a && (p + b)[|p|..] == b;
  }

  lemma {:induction false} DigitsUndoValuesIff(url: bool, s: string)
    requires Values(url, s).Some?
    ensures Digits(url, Values(url, s).value) == WithoutBreaks(s)
  {
    if s != "" {
      DigitsUndoValuesIff(url, s[1..]);
      if !IsBreak(s[0]) { DigitOfValue(url, s[0]); }
    }
  }

  /** Encoding what was decoded gives the text back, less its line breaks, exactly when its spare bits are clear. */
  lemma EncodeUndoesDecodeIff(url: bool, s: string)
    requires Decode(url, s).Some?
    ensures Encode(url, Decode(url, s).value) == WithoutBreaks(s) <==> SpareBitsClear(Values(url, s).value)
  {
    var v := Values(url, s).value;
    SextetsUndoOctetsIff(v);
    DigitsUndoValuesIff(url, s);
    var again := Sextets(Decode(url, s).value);
    if Digits(url, again) == Digits(url, v) {
      ValuesUndoDigits(url, again);
      ValuesUndoDigits(url, v);
    }
  }

  lemma DigitsOf(url: bool, s: seq<Sextet>)
    requires |s| > 0
    ensures Digits(url, s) == [Digit(url, s[0])] + Digits(url, s[1..])
  {
  }

  /** The last vectors of section 10 of RFC 4648, without their padding, and the characters the alphabets differ in. */
  lemma Vectors(f: Byte, o: Byte, b: Byte, url: bool)
    requires f == 102 && o == 111 && b == 98
    ensures Encode(url, [f, o, o, b]) == "Zm9vYg" && Encode(url, [f, o]) == "Zm8"
    ensures Encode(url, [251, 255]) == if url then "-_8" else "+/8"
  {
    var foob: seq<Byte> := [f, o, o, b];
    assert foob[3..] == [b];
    assert Sextets([b]) == [24, 32];
    assert Sextets(foob) == [25, 38, 61, 47] + [24, 32] == [25, 38, 61, 47, 24, 32];
    SixDigits(url, 25, 38, 61, 47, 24, 32);
    assert Sextets([f, o]) == [25, 38, 60];
    ThreeDigits(url, 25, 38, 60);
    assert Sextets([251, 255]) == [62, 63, 60];
    ThreeDigits(url, 62, 63, 60);
  }

  lemma ThreeDigits(url: bool, u: Sextet, v: Sextet, w: Sextet)
    ensures Digits(url, [u, v, w]) == [Digit(url, u), Digit(url, v), Digit(url, w)]
  {
    assert [u, v, w][1..] == [v, w] && [v, w][1..] == [w];
    DigitsOf(url, [w]);
    DigitsOf(url, [v, w]);
    DigitsOf(url, [u, v, w]);
  }

  lemma SixDigits(url: bool, u: Sextet, v: Sextet, w: Sextet, x: Sextet, y: Sextet, z: Sextet)
    ensures Digits(url, [u, v, w, x, y, z]) ==
            [Digit(url, u), Digit(url, v), Digit(url, w), Digit(url, x), Digit(url, y), Digit(url, z)]
  {
    ThreeDigits(url, x, y, z);
    assert [u, v, w, x, y, z][1..] == [v, w, x, y, z] && [v, w, x, y, z][1..] == [w, x, y, z];
    assert [w, x, y, z][1..] == [x, y, z];
    DigitsOf(url, [w, x, y, z]);
    DigitsOf(url, [v, w, x, y, z]);
    DigitsOf(url, [u, v, w, x, y, z]);
  }
}
