/** Password hashes as PHC strings (platform/security/password.go), with argon2 left uninterpreted:
    $argon2id$v=19$m=<memory>,t=<time>,p=<threads>$<salt>$<key>. */
module PasswordHash {
  import opened Basics
  import opened Base64

  const ARGON_VERSION: int := 19
  const ARGON_TIME: nat := 3
  const ARGON_MEMORY: nat := 64 * 1024
  const ARGON_THREADS: nat := 4
  const ARGON_KEY_LEN: nat := 32
  const MIN_PASSWORD_LEN: nat := 10
  const MAX_PASSWORD_LEN: nat := 1024

  /** uint32, uint32 and uint8 in the source. */
  datatype Params = Params(memory: nat, time: nat, threads: nat) {
    predicate Fits() { memory < 0x1_0000_0000 && time < 0x1_0000_0000 && threads < 0x100 }
    predicate Positive() { memory > 0 && time > 0 && threads > 0 }
  }

  const POLICY: Params := Params(ARGON_MEMORY, ARGON_TIME, ARGON_THREADS)

  datatype Error = ErrTooShort | ErrTooLong | ErrInvalidFormat | ErrUnsupportedVersion(version: int)
  datatype Result<+T> = Ok(value: T) | Err(error: Error)
  datatype Hash = Hash(params: Params, salt: seq<Byte>, key: seq<Byte>)

  /** argon2.IDKey(password, salt, params, keyLen). */
  type Kdf = (seq<Byte>, seq<Byte>, Params, nat) -> seq<Byte>

  ghost predicate YieldsKeys(kdf: Kdf) {
    forall password, salt, p, n :: |kdf(password, salt, p, n)| == n
  }

  // ---------------------------------------------------------------- strings.Split and fmt

  function Split(s: string, sep: char): (parts: seq<string>)
    ensures |parts| >= 1
  {
    if s == "" then [""]
    else
      var rest := Split(s[1..], sep);
      if s[0] == sep then [""] + rest else [[s[0]] + rest[0]] + rest[1..]
  }

  predicate IsDecimal(c: char) { '0' <= c <= '9' }

  function Decimal(n: nat): string {
    var last := [('0' as int + n % 10) as char];
    if n < 10 then last else Decimal(n / 10) + last
  }

  function ValueOf(digits: string): nat
    requires forall c :: c in digits ==> IsDecimal(c)
  {
    if digits == "" then 0
    else
      var n := |digits| - 1;
      assert IsDecimal(digits[n]);
      ValueOf(digits[..n]) * 10 + (digits[n] as int - '0' as int)
  }

  /** The white space a verb skips (of the ASCII characters); a line break ends the scan instead. */
  predicate IsBlank(c: char) { c == ' ' || c == '\t' || c == '\r' || c == 11 as char || c == 12 as char }

  function SkipBlanks(s: string): string {
    if s != "" && IsBlank(s[0]) then SkipBlanks(s[1..]) else s
  }

  function TakeDigits(s: string): (d: string)
    ensures d <= s && forall c :: c in d ==> IsDecimal(c)
  {
    if s != "" && IsDecimal(s[0]) then [s[0]] + TakeDigits(s[1..]) else ""
  }

  /** A literal of the format. */
  function Expect(literal: string, s: string): Option<string> {
    if literal <= s then Some(s[|literal|..]) else None
  }

  /** %d into an unsigned integer below `limit`. */
  function ScanUint(s: string, limit: nat): Option<(nat, string)> {
    var t := SkipBlanks(s);
    var d := TakeDigits(t);
    if d == "" || ValueOf(d) >= limit then None else Some((ValueOf(d), t[|d|..]))
  }

  /** The sign a number begins with, if any. */
  function SignOf(t: string): (sign: string)
    ensures sign == "" || sign == "+" || sign == "-"
  {
    if t != "" && t[0] == '-' then "-" else if t != "" && t[0] == '+' then "+" else ""
  }

  /** %d into an int. */
  function ScanInt(s: string): Option<int> {
    var t := SkipBlanks(s);
    var sign := SignOf(t);
    var d := TakeDigits(t[|sign|..]);
    if d == "" then None
    else
      var v := Signed(sign, ValueOf(d));
      if -0x8000_0000_0000_0000 <= v < 0x8000_0000_0000_0000 then Some(v) else None
  }

  function Signed(sign: string, magnitude: int): int {
    if sign == "-" then -magnitude else magnitude
  }

  /** Sscanf(s, "v=%d"); what follows the number is not looked at. */
  function ScanVersion(s: string): Option<int> {
    match Expect("v=", s)
    case None => None
    case Some(rest) => ScanInt(rest)
  }

  /** Sscanf(s, "m=%d,t=%d,p=%d"). */
  function ScanParams(s: string): Option<Params> {
    match Field("m=", s, 0x1_0000_0000)
    case None => None
    case Some((memory, s1)) =>
      match Field(",t=", s1, 0x1_0000_0000)
      case None => None
      case Some((time, s2)) =>
        match Field(",p=", s2, 0x100)
        case None => None
        case Some((threads, _)) => Some(Params(memory, time, threads))
  }

  function Field(literal: string, s: string, limit: nat): Option<(nat, string)> {
    match Expect(literal, s)
    case None => None
    case Some(rest) => ScanUint(rest, limit)
  }

  // ---------------------------------------------------------------- password.go

  function PrintParams(p: Params): string {
    "m=" + Decimal(p.memory) + (",t=" + Decimal(p.time) + (",p=" + Decimal(p.threads)))
  }

  function PrintHash(version: nat, h: Hash): string {
    "" + ['$'] + ("argon2id" + ['$'] + ("v=" + Decimal(version) + ['$'] + (PrintParams(h.params) + ['$'] +
    (Encode(false, h.salt) + ['$'] + Encode(false, h.key)))))
  }

  function DecodeHash(encoded: string): Result<Hash> {
    DecodeParts(Split(encoded, '$'))
  }

  function DecodeParts(parts: seq<string>): Result<Hash> {
    if |parts| != 6 || parts[1] != "argon2id" then Err(ErrInvalidFormat)
    else
      match ScanVersion(parts[2])
      case None => Err(ErrInvalidFormat)
      case Some(version) =>
        if version != ARGON_VERSION then Err(ErrUnsupportedVersion(version))
        else DecodeFields(parts[3], parts[4], parts[5])
  }

  function DecodeFields(params: string, salt: string, key: string): Result<Hash> {
    match ScanParams(params)
    case None => Err(ErrInvalidFormat)
    case Some(p) =>
      if p.memory == 0 || p.time == 0 || p.threads == 0 then Err(ErrInvalidFormat)
      else
        var saltBytes, keyBytes := Decode(false, salt), Decode(false, key);
        if saltBytes.None? || keyBytes.None? || keyBytes.value == [] then Err(ErrInvalidFormat)
        else Ok(Hash(p, saltBytes.value, keyBytes.value))
  }

  function HashPassword(plain: seq<Byte>, salt: seq<Byte>, kdf: Kdf): Result<string> {
    if |plain| < MIN_PASSWORD_LEN then Err(ErrTooShort)
    else if |plain| > MAX_PASSWORD_LEN then Err(ErrTooLong)
    else Ok(PrintHash(ARGON_VERSION, Hash(POLICY, salt, kdf(plain, salt, POLICY, ARGON_KEY_LEN))))
  }

  function VerifyPassword(plain: seq<Byte>, encoded: string, kdf: Kdf): Result<bool> {
    match DecodeHash(encoded)
    case Err(e) => Err(e)
    case Ok(h) => Ok(kdf(plain, h.salt, h.params, |h.key|) == h.key)
  }

  function NeedsRehash(encoded: string): bool {
    match DecodeHash(encoded)
    case Err(_) => true
    case Ok(h) => h.params.memory < ARGON_MEMORY || h.params.time < ARGON_TIME || h.params.threads < ARGON_THREADS
  }

  // ---------------------------------------------------------------- scanning undoes printing

  lemma {:induction false} DecimalDigits(n: nat)
    ensures Decimal(n) != "" && (forall c :: c in Decimal(n) ==> IsDecimal(c)) && ValueOf(Decimal(n)) == n
  {
    if n >= 10 {
      DecimalDigits(n / 10);
      assert Decimal(n)[..|Decimal(n)| - 1] == Decimal(n / 10);
    }
  }

  lemma {:induction false} TakeAllDigits(d: string, rest: string)
    requires (forall c :: c in d ==> IsDecimal(c)) && (rest != "" ==> !IsDecimal(rest[0]))
    ensures TakeDigits(d + rest) == d
  {
    if d == "" {
      assert d + rest == rest;
    } else {
      assert (d + rest)[1..] == d[1..] + rest;
      TakeAllDigits(d[1..], rest);
      assert d == [d[0]] + d[1..];
    }
  }

  lemma UintUndoesPrint(n: nat, rest: string, limit: nat)
    requires n < limit && (rest != "" ==> !IsDecimal(rest[0]))
    ensures ScanUint(Decimal(n) + rest, limit) == Some((n, rest))
  {
    var d := Decimal(n);
    DecimalDigits(n);
    TakeAllDigits(d, rest);
    assert (d + rest)[0] == d[0] && d[0] in d;
    assert (d + rest)[|d|..] == rest;
  }

  lemma FieldUndoesPrint(literal: string, n: nat, rest: string, limit: nat)
    requires n < limit && (rest != "" ==> !IsDecimal(rest[0]))
    ensures Field(literal, literal + Decimal(n) + rest, limit) == Some((n, rest))
  {
    assert (literal + Decimal(n) + rest)[|literal|..] == Decimal(n) + rest;
    UintUndoesPrint(n, rest, limit);
  }

  lemma ParamsUndoPrint(p: Params)
    requires p.Fits()
    ensures ScanParams(PrintParams(p)) == Some(p)
  {
    var threads := ",p=" + Decimal(p.threads);
    var time := ",t=" + Decimal(p.time) + threads;
    FieldUndoesPrint("m=", p.memory, time, 0x1_0000_0000);
    FieldUndoesPrint(",t=", p.time, threads, 0x1_0000_0000);
    FieldUndoesPrint(",p=", p.threads, "", 0x100);
    assert threads + "" == threads;
  }

  lemma {:induction false} SplitOne(s: string, sep: char)
    requires sep !in s
    ensures Split(s, sep) == [s]
  {
    if s != "" {
      SplitOne(s[1..], sep);
      assert s == [s[0]] + s[1..];
    }
  }

  lemma {:induction false} SplitFirst(s: string, sep: char, rest: string)
    requires sep !in s
    ensures Split(s + [sep] + rest, sep) == [s] + Split(rest, sep)
  {
    var whole := s + [sep] + rest;
    if s == "" {
      assert whole[1..] == rest;
    } else {
      assert whole[1..] == s[1..] + [sep] + rest;
      SplitFirst(s[1..], sep, rest);
      assert s == [s[0]] + s[1..];
    }
  }

  lemma NoDollarInBytes(b: seq<Byte>)
    ensures '$' !in Encode(false, b)
  {
    ValuesUndoDigits(false, Sextets(b));
  }

  lemma NoDollarInParams(p: Params)
    ensures '$' !in PrintParams(p)
  {
    DecimalDigits(p.memory);
    DecimalDigits(p.time);
    DecimalDigits(p.threads);
  }

  lemma PartsOfPrint(version: nat, h: Hash)
    ensures Split(PrintHash(version, h), '$') ==
            ["", "argon2id", "v=" + Decimal(version), PrintParams(h.params),
             Encode(false, h.salt), Encode(false, h.key)]
  {
    DecimalDigits(version);
    NoDollarInParams(h.params);
    NoDollarInBytes(h.salt);
    NoDollarInBytes(h.key);
    SplitSix("", "argon2id", "v=" + Decimal(version), PrintParams(h.params),
             Encode(false, h.salt), Encode(false, h.key));
  }

  lemma SplitSix(a: string, b: string, c: string, d: string, e: string, f: string)
    requires '$' !in a + b + c + d + e + f
    ensures Split(a + ['$'] + (b + ['$'] + (c + ['$'] + (d + ['$'] + (e + ['$'] + f)))), '$') == [a, b, c, d, e, f]
  {
    var fromE := e + ['$'] + f;
    var fromD := d + ['$'] + fromE;
    var fromC := c + ['$'] + fromD;
    var fromB := b + ['$'] + fromC;
    SplitOne(f, '$');
    SplitFirst(e, '$', f);
    SplitFirst(d, '$', fromE);
    SplitFirst(c, '$', fromD);
    SplitFirst(b, '$', fromC);
    SplitFirst(a, '$', fromB);
  }

  lemma VersionUndoesPrint(version: nat)
    requires version < 0x8000_0000_0000_0000
    ensures ScanVersion("v=" + Decimal(version)) == Some(version)
  {
    var d := Decimal(version);
    DecimalDigits(version);
    TakeAllDigits(d, "");
    assert d + "" == d;
    assert ("v=" + d)[2..] == d;
    assert d[0] in d;
    assert SignOf(d) == "" && d[0..] == d;
  }

  lemma FieldsUndoPrint(h: Hash)
    requires h.params.Fits()
    ensures DecodeFields(PrintParams(h.params), Encode(false, h.salt), Encode(false, h.key)) ==
            if h.params.Positive() && h.key != [] then Ok(h) else Err(ErrInvalidFormat)
  {
    ParamsUndoPrint(h.params);
    DecodeUndoesEncode(false, h.salt);
    DecodeUndoesEncode(false, h.key);
  }

  lemma DecimalNext(n: nat, m: nat, d: nat)
    requires n == 10 * m + d && m > 0 && d < 10
    ensures Decimal(n) == Decimal(m) + [('0' as int + d) as char]
  {
    assert n / 10 == m && n % 10 == d;
  }

  lemma DecimalOf65536(n: nat)
    requires n == 65536
    ensures Decimal(n) == "65536"
  {
    assert n / 10 == 6553 && n / 100 == 655 && n / 1000 == 65;
    DecimalNext(n / 1000, 6, 5);
    DecimalNext(n / 100, n / 1000, 5);
    DecimalNext(n / 10, n / 100, 3);
    DecimalNext(n, n / 10, 6);
  }

  lemma PolicyText(p: Params)
    requires p == POLICY
    ensures PrintParams(p) == "m=65536,t=3,p=4"
  {
    DecimalOf65536(p.memory);
    assert Decimal(p.time) == "3" && Decimal(p.threads) == "4";
  }

  /** A fresh hash's text: $argon2id$v=19$m=65536,t=3,p=4$<salt>$<key>. */
  lemma FreshHashText(h: Hash, version: nat)
    requires h.params == POLICY && version == ARGON_VERSION
    ensures PrintHash(version, h) ==
            "$argon2id$" + "v=19" + "$" + "m=65536,t=3,p=4" + "$" + Encode(false, h.salt) + "$" + Encode(false, h.key)
  {
    PolicyText(h.params);
    DecimalNext(version, 1, 9);
    assert Decimal(version) == "19";
    Regroup("v=19", "m=65536,t=3,p=4", Encode(false, h.salt), Encode(false, h.key));
  }

  lemma Regroup(v: string, p: string, salt: string, key: string)
    ensures "" + ['$'] + ("argon2id" + ['$'] + (v + ['$'] + (p + ['$'] + (salt + ['$'] + key)))) ==
            "$argon2id$" + v + "$" + p + "$" + salt + "$" + key
  {
  }

  // ---------------------------------------------------------------- what is accepted

  /** strings.Join. */
  function Joined(parts: seq<string>, sep: char): string
    requires parts != []
  {
    if |parts| == 1 then parts[0] else parts[0] + [sep] + Joined(parts[1..], sep)
  }

  ghost predicate IsSplit(parts: seq<string>, s: string, sep: char) {
    parts != [] && Joined(parts, sep) == s && forall i | 0 <= i < |parts| :: sep !in parts[i]
  }

  lemma {:induction false} SplitJoins(s: string, sep: char)
    ensures IsSplit(Split(s, sep), s, sep)
  {
    if s != "" {
      var rest := Split(s[1..], sep);
      SplitJoins(s[1..], sep);
      assert s == [s[0]] + s[1..];
      if s[0] == sep {
        assert ([""] + rest)[1..] == rest;
      } else {
        var parts := [[s[0]] + rest[0]] + rest[1..];
        assert parts[1..] == rest[1..];
        assert Joined(parts, sep) == [s[0]] + Joined(rest, sep);
      }
    }
  }

  /** A text splits in one way only: into the parts without a separator that make it up. */
  lemma {:induction false} SplitIff(parts: seq<string>, s: string, sep: char)
    ensures Split(s, sep) == parts <==> IsSplit(parts, s, sep)
    decreases |parts|
  {
    SplitJoins(s, sep);
    if IsSplit(parts, s, sep) {
      if |parts| == 1 {
        SplitOne(s, sep);
      } else {
        var rest := parts[1..];
        SplitIff(rest, Joined(rest, sep), sep);
        assert IsSplit(rest, Joined(rest, sep), sep);
        SplitFirst(parts[0], sep, Joined(rest, sep));
        assert parts == [parts[0]] + rest;
      }
    }
  }

  /** A number as the scanner wants it: perhaps blanks, digits as far as they go, and whatever follows. */
  ghost predicate Reads(s: string, blanks: string, sign: string, digits: string, rest: string) {
    && s == blanks + (sign + (digits + rest))
    && (forall c :: c in blanks ==> IsBlank(c))
    && digits != "" && (forall c :: c in digits ==> '0' <= c <= '9')
    && (rest != "" ==> !('0' <= rest[0] <= '9'))
  }

  lemma {:induction false} BlanksSkipped(s: string) returns (blanks: string)
    ensures s == blanks + SkipBlanks(s) && forall c :: c in blanks ==> IsBlank(c)
    ensures SkipBlanks(s) != "" ==> !IsBlank(SkipBlanks(s)[0])
  {
    blanks := "";
    if s != "" && IsBlank(s[0]) {
      var more := BlanksSkipped(s[1..]);
      blanks := [s[0]] + more;
      assert s == [s[0]] + s[1..];
    }
  }

  lemma {:induction false} SkipsBlanks(blanks: string, t: string)
    requires (forall c :: c in blanks ==> IsBlank(c)) && (t != "" ==> !IsBlank(t[0]))
    ensures SkipBlanks(blanks + t) == t
  {
    if blanks == "" {
      assert blanks + t == t;
    } else {
      assert (blanks + t)[1..] == blanks[1..] + t;
      SkipsBlanks(blanks[1..], t);
    }
  }

  lemma {:induction false} DigitsEnd(s: string)
    ensures var d := TakeDigits(s); |d| < |s| ==> !IsDecimal(s[|d|])
  {
    if s != "" && IsDecimal(s[0]) { DigitsEnd(s[1..]); }
  }

  lemma UintRead(s: string, limit: nat) returns (blanks: string, digits: string)
    requires ScanUint(s, limit).Some?
    ensures var (n, rest) := ScanUint(s, limit).value;
            Reads(s, blanks, "", digits, rest) && ValueOf(digits) == n < limit
  {
    blanks := BlanksSkipped(s);
    var t := SkipBlanks(s);
    digits := TakeDigits(t);
    DigitsEnd(t);
    assert "" + (digits + t[|digits|..]) == t;
  }

  lemma DigitsRead(s: string, blanks: string, digits: string, rest: string)
    requires Reads(s, blanks, "", digits, rest)
    ensures SkipBlanks(s) == digits + rest && TakeDigits(digits + rest) == digits
  {
    assert "" + (digits + rest) == digits + rest;
    assert (digits + rest)[0] in digits;
    SkipsBlanks(blanks, digits + rest);
    TakeAllDigits(digits, rest);
  }

  /** %d for an unsigned field: digits after any blanks, no sign, below the field's limit. */
  lemma UintReadsIff(s: string, limit: nat, n: nat, rest: string)
    ensures ScanUint(s, limit) == Some((n, rest)) <==>
            exists blanks, digits :: Reads(s, blanks, "", digits, rest) && ValueOf(digits) == n < limit
  {
    if ScanUint(s, limit) == Some((n, rest)) {
      var blanks, digits := UintRead(s, limit);
    }
    if blanks, digits :| Reads(s, blanks, "", digits, rest) && ValueOf(digits) == n < limit {
      DigitsRead(s, blanks, digits, rest);
      assert (digits + rest)[|digits|..] == rest;
    }
  }

  /** A number with an optional sign, within 64 bits. */
  ghost predicate ReadsInt(s: string, v: int, blanks: string, sign: string, digits: string, rest: string) {
    && Reads(s, blanks, sign, digits, rest) && (sign == "" || sign == "+" || sign == "-")
    && (if sign == "-" then v + ValueOf(digits) == 0 else v == ValueOf(digits))
    && -0x8000_0000_0000_0000 <= v < 0x8000_0000_0000_0000
  }

  lemma SignThenRest(t: string)
    ensures t == SignOf(t) + t[|SignOf(t)|..]
  {
  }

  lemma SignIs(sign: string, u: string)
    requires (sign == "" || sign == "+" || sign == "-") && u != "" && '0' <= u[0] <= '9'
    ensures SignOf(sign + u) == sign && (sign + u)[|sign|..] == u && !IsBlank((sign + u)[0])
  {
    if sign == "" { assert sign + u == u; }
  }

  lemma DigitsThenRest(u: string)
    ensures var d := TakeDigits(u); u == d + u[|d|..] && (u[|d|..] != "" ==> !('0' <= u[|d|..][0] <= '9'))
  {
    DigitsEnd(u);
  }

  lemma IntRead(s: string) returns (blanks: string, sign: string, digits: string, rest: string)
    requires ScanInt(s).Some?
    ensures ReadsInt(s, ScanInt(s).value, blanks, sign, digits, rest)
  {
    blanks := BlanksSkipped(s);
    var t := SkipBlanks(s);
    sign := SignOf(t);
    SignThenRest(t);
    var u := t[|sign|..];
    DigitsThenRest(u);
    digits, rest := TakeDigits(u), u[|TakeDigits(u)|..];
  }

  lemma SignedRead(s: string, v: int, blanks: string, sign: string, digits: string, rest: string)
    requires ReadsInt(s, v, blanks, sign, digits, rest)
    ensures ScanInt(s) == Some(v)
  {
    assert digits[0] in digits;
    SignIs(sign, digits + rest);
    SkipsBlanks(blanks, sign + (digits + rest));
    TakeAllDigits(digits, rest);
  }

  /** %d for the version: the same with an optional sign, within 64 bits; what follows is not looked at. */
  lemma IntReadsIff(s: string, v: int)
    ensures ScanInt(s) == Some(v) <==> exists blanks, sign, digits, rest :: ReadsInt(s, v, blanks, sign, digits, rest)
  {
    if ScanInt(s) == Some(v) {
      var blanks, sign, digits, rest := IntRead(s);
    }
    if blanks, sign, digits, rest :| ReadsInt(s, v, blanks, sign, digits, rest) {
      SignedRead(s, v, blanks, sign, digits, rest);
    }
  }

  lemma VersionReadsIff(s: string, v: int)
    ensures ScanVersion(s) == Some(v) <==> exists t :: s == "v=" + t && ScanInt(t) == Some(v)
  {
    if "v=" <= s { assert s == "v=" + s[2..]; }
    if t :| s == "v=" + t && ScanInt(t) == Some(v) { assert s[2..] == t; }
  }

  /** A literal and then an unsigned number. */
  lemma FieldReadsIff(literal: string, s: string, limit: nat, n: nat, rest: string)
    ensures Field(literal, s, limit) == Some((n, rest)) <==>
            exists t :: s == literal + t && ScanUint(t, limit) == Some((n, rest))
  {
    if literal <= s { assert s == literal + s[|literal|..]; }
    if t :| s == literal + t && ScanUint(t, limit) == Some((n, rest)) { assert s[|literal|..] == t; }
  }

  /** Which parameter fields are read as `p`. */
  lemma ParamsReadIff(s: string, p: Params)
    ensures ScanParams(s) == Some(p) <==>
            exists s1, s2, s3 ::
              && Field("m=", s, 0x1_0000_0000) == Some((p.memory, s1))
              && Field(",t=", s1, 0x1_0000_0000) == Some((p.time, s2))
              && Field(",p=", s2, 0x100) == Some((p.threads, s3))
  {
  }

  /** A text that is accepted, and what it is read as: six parts between dollar signs, of which the first is not looked
      at; argon2id; version 19; parameters above zero; two base64 texts, the second not empty. */
  ghost predicate Accepted(encoded: string, parts: seq<string>, h: Hash) {
    && IsSplit(parts, encoded, '$') && |parts| == 6
    && parts[1] == "argon2id" && ScanVersion(parts[2]) == Some(19)
    && ScanParams(parts[3]) == Some(h.params)
    && h.params.memory >= 1 && h.params.time >= 1 && h.params.threads >= 1
    && Decode(false, parts[4]) == Some(h.salt)
    && Decode(false, parts[5]) == Some(h.key) && h.key != []
  }

  lemma DecodesIff(encoded: string, h: Hash)
    ensures DecodeHash(encoded) == Ok(h) <==> exists parts :: Accepted(encoded, parts, h)
  {
    var parts := Split(encoded, '$');
    SplitIff(parts, encoded, '$');
    if DecodeHash(encoded) == Ok(h) { assert Accepted(encoded, parts, h); }
    if ps :| Accepted(encoded, ps, h) { SplitIff(ps, encoded, '$'); }
  }

  /** Another version is refused as such, and everything else that is not accepted as a bad format. */
  lemma RefusedIff(encoded: string)
    ensures forall e | DecodeHash(encoded) == Err(e) :: e == ErrInvalidFormat || e.ErrUnsupportedVersion?
    ensures forall v :: DecodeHash(encoded) == Err(ErrUnsupportedVersion(v)) <==>
              v != 19 && exists parts :: IsSplit(parts, encoded, '$') && |parts| == 6 && parts[1] == "argon2id"
                                         && ScanVersion(parts[2]) == Some(v)
  {
    var parts := Split(encoded, '$');
    SplitIff(parts, encoded, '$');
    forall v ensures DecodeHash(encoded) == Err(ErrUnsupportedVersion(v)) <==>
              v != 19 && exists parts :: IsSplit(parts, encoded, '$') && |parts| == 6 && parts[1] == "argon2id"
                                         && ScanVersion(parts[2]) == Some(v)
    {
      if ps :| IsSplit(ps, encoded, '$') && |ps| == 6 && ps[1] == "argon2id" && ScanVersion(ps[2]) == Some(v) {
        SplitIff(ps, encoded, '$');
      }
    }
  }

  // ---------------------------------------------------------------- main theorems

  /** Each answer of HashPassword, exactly; a hash is of a 32-byte key derived at memory 65536, time 3, threads 4. */
  lemma HashAnswersIff(plain: seq<Byte>, salt: seq<Byte>, kdf: Kdf)
    ensures var r := HashPassword(plain, salt, kdf);
            && (r == Err(ErrTooShort) <==> |plain| < 10)
            && (r == Err(ErrTooLong) <==> |plain| > 1024)
            && (10 <= |plain| <= 1024 ==>
                  r == Ok("$argon2id$" + "v=19" + "$" + "m=65536,t=3,p=4" + "$" + Encode(false, salt) + "$" +
                          Encode(false, kdf(plain, salt, Params(65536, 3, 4), 32))))
  {
    if 10 <= |plain| <= 1024 {
      FreshHashText(Hash(POLICY, salt, kdf(plain, salt, POLICY, ARGON_KEY_LEN)), ARGON_VERSION);
    }
  }

  /** Each answer of VerifyPassword and NeedsRehash: a text that is not accepted is an error to the one and needs a
      rehash for the other; an accepted one is compared with a key of its own length at its own cost, and needs a rehash
      exactly when one of its costs is below 65536, 3 and 4. */
  lemma VerifyAnswersIff(plain: seq<Byte>, encoded: string, kdf: Kdf, h: Hash)
    ensures VerifyPassword(plain, encoded, kdf).Err? <==> !exists h :: DecodeHash(encoded) == Ok(h)
    ensures VerifyPassword(plain, encoded, kdf).Err? ==> NeedsRehash(encoded)
    ensures DecodeHash(encoded) == Ok(h) ==>
              && VerifyPassword(plain, encoded, kdf) == Ok(kdf(plain, h.salt, h.params, |h.key|) == h.key)
              && (NeedsRehash(encoded) <==> h.params.memory < 65536 || h.params.time < 3 || h.params.threads < 4)
  {
    if DecodeHash(encoded).Ok? { assert DecodeHash(encoded) == Ok(DecodeHash(encoded).value); }
  }

  /** Decoding undoes printing for every hash that fits its fields, exactly when it is of the supported version, no
      parameter is zero and the key is not empty; any other is refused. */
  lemma DecodeUndoesPrintIff(version: nat, h: Hash)
    requires h.params.Fits() && version < 0x8000_0000_0000_0000
    ensures DecodeHash(PrintHash(version, h)) ==
            if version != ARGON_VERSION then Err(ErrUnsupportedVersion(version))
            else if h.params.Positive() && h.key != [] then Ok(h)
            else Err(ErrInvalidFormat)
  {
    PartsOfPrint(version, h);
    VersionUndoesPrint(version);
    FieldsUndoPrint(h);
    DecodesSix(version, "v=" + Decimal(version), PrintParams(h.params), Encode(false, h.salt), Encode(false, h.key));
  }

  lemma DecodesSix(version: int, v: string, params: string, salt: string, key: string)
    requires ScanVersion(v) == Some(version)
    ensures DecodeParts(["", "argon2id", v, params, salt, key]) ==
            if version != ARGON_VERSION then Err(ErrUnsupportedVersion(version)) else DecodeFields(params, salt, key)
  {
  }

  /** A password verifies against a fresh hash exactly when it derives the same key; in particular its own always
      verifies, and a fresh hash never needs a rehash. */
  lemma FreshHashVerifiesIff(plain: seq<Byte>, other: seq<Byte>, salt: seq<Byte>, kdf: Kdf)
    requires YieldsKeys(kdf) && 10 <= |plain| <= 1024
    ensures var h := HashPassword(plain, salt, kdf);
            && h.Ok?
            && VerifyPassword(other, h.value, kdf) ==
               Ok(kdf(other, salt, POLICY, ARGON_KEY_LEN) == kdf(plain, salt, POLICY, ARGON_KEY_LEN))
            && VerifyPassword(plain, h.value, kdf) == Ok(true)
            && !NeedsRehash(h.value)
  {
    DecodeUndoesPrintIff(ARGON_VERSION, Hash(POLICY, salt, kdf(plain, salt, POLICY, ARGON_KEY_LEN)));
  }

  /** Of the hashes this code could have printed, exactly the weaker ones are replaced at the next login. */
  lemma RehashIff(h: Hash)
    requires h.params.Fits() && h.params.Positive() && h.key != []
    ensures NeedsRehash(PrintHash(ARGON_VERSION, h)) <==>
            h.params.memory < 65536 || h.params.time < 3 || h.params.threads < 4
  {
    DecodeUndoesPrintIff(ARGON_VERSION, h);
  }
}
