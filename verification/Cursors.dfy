/** Page cursors as opaque tokens (internal/rooms/pagination.go, internal/matches/pagination.go), and the two list
    operations with them. How a time and a uuid are written is left to the standard libraries: a pair of functions each,
    of which only faithfulness is assumed. */
module Cursors {
  import opened Basics
  import opened Base64
  import opened Paging

  const BAR: Byte := 124

  /** time.RFC3339Nano in UTC and the canonical uuid text, written and read. */
  datatype Texts = Texts(writeTime: int -> seq<Byte>, readTime: seq<Byte> -> Option<int>,
                         writeId: Id -> seq<Byte>, readId: seq<Byte> -> Option<Id>)

  ghost predicate Faithful(t: Texts) {
    && (forall at :: t.readTime(t.writeTime(at)) == Some(at) && BAR !in t.writeTime(at))
    && (forall id: Id :: t.readId(t.writeId(id)) == Some(id))
  }

  datatype Result<+T> = Ok(value: T) | ErrInvalidCursor

  function EncodeCursor(t: Texts, k: Key): string {
    Encode(true, t.writeTime(k.createdAt) + [BAR] + t.writeId(k.id))
  }

  /** Where the first bar is. */
  function FirstBar(b: seq<Byte>): (n: nat)
    ensures n <= |b| && (forall i | 0 <= i < n :: b[i] != BAR) && (n < |b| ==> b[n] == BAR)
  {
    if b == [] || b[0] == BAR then 0
    else FirstBar(b[1..]) + 1
  }

  function DecodeCursor(t: Texts, s: string): Result<Option<Key>> {
    if s == "" then Ok(None)
    else
      match Decode(true, s)
      case None => ErrInvalidCursor
      case Some(raw) =>
        var n := FirstBar(raw);
        if n == |raw| then ErrInvalidCursor
        else
          var at, id := t.readTime(raw[..n]), t.readId(raw[n + 1..]);
          if at.None? || id.None? then ErrInvalidCursor else Ok(Some(Key(at.value, id.value)))
  }

  lemma FirstBarIs(a: seq<Byte>, b: seq<Byte>)
    requires BAR !in a
    ensures FirstBar(a + [BAR] + b) == |a|
  {
    var whole := a + [BAR] + b;
    var n := FirstBar(whole);
    assert whole[|a|] == BAR;
    assert forall i | 0 <= i < |a| :: whole[i] == a[i] && a[i] in a;
  }

  lemma EncodedNotEmpty(url: bool, b: seq<Byte>)
    requires b != []
    ensures Encode(url, b) != ""
  {
    ValuesUndoDigits(url, Sextets(b));
  }

  /** Decoding a token undoes encoding it, for every position, and a token is never the empty string that stands for no
      cursor. */
  lemma DecodeUndoesEncodeCursor(t: Texts, k: Key)
    requires Faithful(t)
    ensures DecodeCursor(t, EncodeCursor(t, k)) == Ok(Some(k)) && EncodeCursor(t, k) != ""
  {
    var at, id := t.writeTime(k.createdAt), t.writeId(k.id);
    var raw := at + [BAR] + id;
    DecodeUndoesEncode(true, raw);
    EncodedNotEmpty(true, raw);
    FirstBarIs(at, id);
    assert raw[..|at|] == at && raw[|at| + 1..] == id;
  }

  predicate UrlSafe(c: char) {
    'A' <= c <= 'Z' || 'a' <= c <= 'z' || '0' <= c <= '9' || c == '-' || c == '_'
  }

  lemma {:induction false} DigitsAreUrlSafe(s: seq<Sextet>)
    ensures forall c :: c in Digits(true, s) ==> UrlSafe(c)
  {
    if s != [] { DigitsAreUrlSafe(s[1..]); }
  }

  /** A token can stand in a URL as it is, and holds the time's text, a bar (124) and the id's text. */
  lemma TokenHolds(t: Texts, k: Key)
    ensures forall c :: c in EncodeCursor(t, k) ==> UrlSafe(c)
    ensures Decode(true, EncodeCursor(t, k)) == Some(t.writeTime(k.createdAt) + [124] + t.writeId(k.id))
  {
    var raw := t.writeTime(k.createdAt) + [BAR] + t.writeId(k.id);
    DigitsAreUrlSafe(Sextets(raw));
    DecodeUndoesEncode(true, raw);
  }

  /** Every position has its own token. */
  lemma TokensDiffer(t: Texts, j: Key, k: Key)
    requires Faithful(t) && EncodeCursor(t, j) == EncodeCursor(t, k)
    ensures j == k
  {
    DecodeUndoesEncodeCursor(t, j);
    DecodeUndoesEncodeCursor(t, k);
  }

  /** ListPublicOpen and ListForUser: a bad token is the client's error; otherwise the page is the one its cursor
      names, and the token returned is that of the cursor to follow, or empty after the last page. */
  method List(table: Table, t: Texts, token: string, asked: int) returns (r: Result<(seq<Key>, string)>)
    requires Faithful(t)
    ensures r.ErrInvalidCursor? <==> DecodeCursor(t, token).ErrInvalidCursor?
    ensures r.Ok? ==>
              var page := PageAt(table.rows, DecodeCursor(t, token).value, PageSize(asked));
              r.value.0 == page.items && DecodeCursor(t, r.value.1) == Ok(page.next)
              && (r.value.1 == "" <==> page.next.None?)
  {
    var cursor := DecodeCursor(t, token);
    if cursor.ErrInvalidCursor? { return ErrInvalidCursor; }
    var items, next := table.ListPage(cursor.value, asked);
    var nextToken := "";
    if next.Some? {
      nextToken := EncodeCursor(t, next.value);
      DecodeUndoesEncodeCursor(t, next.value);
    }
    return Ok((items, nextToken));
  }
}
