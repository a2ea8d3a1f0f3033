/** The rooms service (internal/rooms/service.go, repository.go) as an object over its tables: each method is one
    transaction run alone, with the loops of the source, proved against the functions of module Rooms. */
module RoomService {
  import opened Basics
  import Matches
  import opened Turns
  import opened Rooms

  // ---------------------------------------------------------------- reading and building

  datatype Row = Row(user: Id, member: Member)

  ghost predicate Listed(rows: seq<Row>, u: Id) {
    exists i :: 0 <= i < |rows| && rows[i].user == u
  }

  ghost predicate RowsOf(rows: seq<Row>, ms: Members) {
    forall i | 0 <= i < |rows| :: rows[i].user in ms && rows[i].member == ms[rows[i].user]
  }

  ghost predicate InSeatOrder(rows: seq<Row>) {
    forall i, j | 0 <= i < j < |rows| :: SeatBefore(rows[i].member.seat, rows[j].member.seat)
  }

  /** The rows of one room in the order the query returns them: every member once, ordered by side, slot. */
  ghost predicate Lists(rows: seq<Row>, ms: Members) {
    RowsOf(rows, ms) && InSeatOrder(rows) && forall u :: u in ms ==> Listed(rows, u)
  }

  lemma ListsSize(rows: seq<Row>, ms: Members)
    requires Lists(rows, ms)
    ensures |rows| == |ms|
  {
    var users := seq(|rows|, i requires 0 <= i < |rows| => rows[i].user);
    forall u | u in ms ensures u in users {
      assert Listed(rows, u);
      var i :| 0 <= i < |rows| && rows[i].user == u;
      assert users[i] == u;
    }
    assert Elements(users) == ms.Keys;
    assert NoDuplicates(users) by {
      forall i, j | 0 <= i < j < |users| ensures users[i] != users[j] {
        assert SeatBefore(rows[i].member.seat, rows[j].member.seat);
      }
    }
    DistinctSize(users);
  }

  ghost predicate IsLowest(ms: Members, u: Id) {
    u in ms && forall v :: v in ms && v != u ==> SeatBefore(ms[u].seat, ms[v].seat)
  }

  lemma {:induction false} LowestSeatExists(ms: Members)
    requires ms != map[] && DistinctSeats(ms)
    ensures exists u: Id :: IsLowest(ms, u)
    decreases |ms|
  {
    var u :| u in ms;
    var rest := ms - {u};
    assert forall v :: v in ms && v != u ==> v in rest && rest[v] == ms[v];
    if rest != map[] {
      assert DistinctSeats(rest);
      LowestSeatExists(rest);
      var w: Id :| IsLowest(rest, w);
      assert ms[u].seat != ms[w].seat;
      assert IsLowest(ms, if SeatBefore(ms[u].seat, ms[w].seat) then u else w);
    } else {
      assert IsLowest(ms, u);
    }
  }

  method LowestSeat(ms: Members) returns (u: Id)
    requires ms != map[] && DistinctSeats(ms)
    ensures IsLowest(ms, u)
  {
    LowestSeatExists(ms);
    u :| u in ms && forall v :: v in ms && v != u ==> SeatBefore(ms[u].seat, ms[v].seat);
  }

  /** Partway through the query: `rows` lists what is no longer `left`, and all of it comes before what is left. */
  ghost predicate Partway(rows: seq<Row>, left: Members, ms: Members) {
    && RowsOf(rows, ms) && InSeatOrder(rows)
    && left.Keys <= ms.Keys && (forall u :: u in left ==> left[u] == ms[u])
    && (forall i, u | 0 <= i < |rows| && u in left :: SeatBefore(rows[i].member.seat, left[u].seat))
    && (forall u :: u in ms && u !in left ==> Listed(rows, u))
  }

  lemma TakeLowest(rows: seq<Row>, left: Members, ms: Members, u: Id)
    requires Partway(rows, left, ms) && IsLowest(left, u)
    ensures Partway(rows + [Row(u, left[u])], left - {u}, ms)
  {
    var rows', left' := rows + [Row(u, left[u])], left - {u};
    forall w | w in ms && w !in left' ensures Listed(rows', w) {
      if w == u {
        assert rows'[|rows|].user == w;
      } else {
        var i :| 0 <= i < |rows| && rows[i].user == w;
        assert rows'[i].user == w;
      }
    }
  }

  method SelectMembers(ms: Members) returns (rows: seq<Row>)
    requires DistinctSeats(ms)
    ensures Lists(rows, ms)
  {
    rows := [];
    var left := ms;
    while left != map[]
      invariant Partway(rows, left, ms) && DistinctSeats(left)
      decreases |left|
    {
      var u := LowestSeat(left);
      TakeLowest(rows, left, ms, u);
      rows := rows + [Row(u, left[u])];
      left := left - {u};
    }
  }

  /** rows[at] joined first, and among equals was read first. */
  ghost predicate EarliestAmong(rows: seq<Row>, n: int, at: int) {
    && 0 <= at < n <= |rows|
    && (forall j | 0 <= j < at :: rows[at].member.joinedAt < rows[j].member.joinedAt)
    && (forall j | at < j < n :: rows[at].member.joinedAt <= rows[j].member.joinedAt)
  }

  /** The host handoff loop of Leave. */
  method EarliestMember(rows: seq<Row>, ghost ms: Members) returns (user: Id)
    requires Lists(rows, ms) && rows != []
    ensures IsHeir(ms, user)
  {
    var next := rows[0];
    ghost var at := 0;
    for i := 1 to |rows|
      invariant EarliestAmong(rows, i, at) && next == rows[at]
    {
      if rows[i].member.joinedAt < next.member.joinedAt {
        next := rows[i];
        at := i;
      }
    }
    EarliestIsHeir(rows, ms, at);
    user := next.user;
  }

  lemma EarliestIsHeir(rows: seq<Row>, ms: Members, at: int)
    requires Lists(rows, ms) && EarliestAmong(rows, |rows|, at)
    ensures IsHeir(ms, rows[at].user)
  {
    forall v | v in ms && v != rows[at].user ensures Earlier(ms, rows[at].user, v) {
      assert Listed(rows, v);
      var j :| 0 <= j < |rows| && rows[j].user == v;
      assert at < j ==> SeatBefore(rows[at].member.seat, rows[j].member.seat);
    }
  }

  lemma HeirIsUnique(ms: Members, u: Id)
    requires IsHeir(ms, u)
    ensures Heir(ms) == u
  {
    var h := Heir(ms);
    assert h != u ==> Earlier(ms, u, h);
  }

  lemma OccupiedIffTaken(rows: seq<Row>, ms: Members, occupied: set<Seat>)
    requires Lists(rows, ms) && occupied == set j | 0 <= j < |rows| :: rows[j].member.seat
    ensures forall seat :: seat in occupied <==> Taken(ms, seat)
  {
    forall seat | Taken(ms, seat) ensures seat in occupied {
      var u :| u in ms && ms[u].seat == seat;
      assert Listed(rows, u);
      var j :| 0 <= j < |rows| && rows[j].user == u;
      assert rows[j].member.seat == seat;
    }
  }

  /** The seat loop of seatMember: the first seat of the order that no row occupies. */
  method FirstOpenSeat(order: seq<Seat>, rows: seq<Row>, ghost ms: Members) returns (seat: Option<Seat>)
    requires Lists(rows, ms)
    ensures seat == FirstFree(order, ms)
  {
    var occupied: set<Seat> := {};
    for i := 0 to |rows|
      invariant occupied == set j | 0 <= j < i :: rows[j].member.seat
    {
      occupied := occupied + {rows[i].member.seat};
    }
    OccupiedIffTaken(rows, ms, occupied);
    for i := 0 to |order|
      invariant FirstFree(order, ms) == FirstFree(order[i..], ms)
    {
      if order[i] !in occupied {
        return Some(order[i]);
      }
      assert order[i..][1..] == order[i + 1..];
    }
    return None;
  }

  /** The player among the first `n` rows sitting at `seat`. */
  ghost function SeatedAmong(rows: seq<Row>, n: nat, seat: Seat): Id
    requires n <= |rows|
    decreases n
  {
    if n == 0 then NIL else if rows[n - 1].member.seat == seat then rows[n - 1].user else SeatedAmong(rows, n - 1, seat)
  }

  lemma {:induction false} SeatedAmongFinds(rows: seq<Row>, n: nat, j: nat)
    requires j < n <= |rows| && InSeatOrder(rows)
    ensures SeatedAmong(rows, n, rows[j].member.seat) == rows[j].user
    decreases n
  {
    if j < n - 1 {
      assert SeatBefore(rows[j].member.seat, rows[n - 1].member.seat);
      SeatedAmongFinds(rows, n - 1, j);
    }
  }

  lemma {:induction false} SeatedAmongMisses(rows: seq<Row>, n: nat, seat: Seat)
    requires n <= |rows| && forall j | 0 <= j < n :: rows[j].member.seat != seat
    ensures SeatedAmong(rows, n, seat) == NIL
    decreases n
  {
    if n > 0 {
      SeatedAmongMisses(rows, n - 1, seat);
    }
  }

  lemma SeatedAmongIsPlayerAt(rows: seq<Row>, ms: Members, seat: Seat)
    requires Lists(rows, ms)
    ensures SeatedAmong(rows, |rows|, seat) == PlayerAt(ms, seat)
  {
    if Taken(ms, seat) {
      PlayerAtTakenSeat(ms, seat);
      assert Listed(rows, PlayerAt(ms, seat));
      var j :| 0 <= j < |rows| && rows[j].user == PlayerAt(ms, seat);
      SeatedAmongFinds(rows, |rows|, j);
    } else {
      SeatedAmongMisses(rows, |rows|, seat);
    }
  }

  /** One side's slice after the first `n` rows have been written into it. */
  ghost function Filled(perSide: nat, rows: seq<Row>, n: nat, side: int): seq<Id>
    requires n <= |rows|
  {
    seq(perSide, k => SeatedAmong(rows, n, Seat(side, k)))
  }

  lemma FillNext(perSide: nat, rows: seq<Row>, n: nat, side: int)
    requires n < |rows| && InRange(perSide, rows[n].member.seat)
    ensures var seat := rows[n].member.seat; var filled := Filled(perSide, rows, n, side);
            Filled(perSide, rows, n + 1, side) ==
            if seat.side == side then filled[seat.slot := rows[n].user] else filled
  {
  }

  /** One write of the loop. */
  method Place(a: array<Id>, b: array<Id>, perSide: nat, rows: seq<Row>, i: nat)
    requires a != b && i < |rows| && InRange(perSide, rows[i].member.seat)
    requires a[..] == Filled(perSide, rows, i, 0) && b[..] == Filled(perSide, rows, i, 1)
    modifies a, b
    ensures a[..] == Filled(perSide, rows, i + 1, 0) && b[..] == Filled(perSide, rows, i + 1, 1)
  {
    var seat := rows[i].member.seat;
    FillNext(perSide, rows, i, 0);
    FillNext(perSide, rows, i, 1);
    if seat.side == 0 { a[seat.slot] := rows[i].user; } else { b[seat.slot] := rows[i].user; }
  }

  /** buildMatchSides: fills two freshly made slices, one write per row. */
  method BuildMatchSides(perSide: nat, rows: seq<Row>, ghost ms: Members) returns (r: Option<Matches.Sides>)
    requires Lists(rows, ms)
    ensures r.None? <==> exists u :: u in ms && !InRange(perSide, ms[u].seat)
    ensures r.Some? ==> r.value == [SideOf(ms, perSide, 0), SideOf(ms, perSide, 1)]
  {
    var a, b := new Id[perSide](_ => NIL), new Id[perSide](_ => NIL);
    assert a[..] == Filled(perSide, rows, 0, 0) && b[..] == Filled(perSide, rows, 0, 1);
    for i := 0 to |rows|
      invariant a != b
      invariant forall j | 0 <= j < i :: InRange(perSide, rows[j].member.seat)
      invariant a[..] == Filled(perSide, rows, i, 0)
      invariant b[..] == Filled(perSide, rows, i, 1)
    {
      var seat := rows[i].member.seat;
      if seat.side < 0 || seat.side > 1 || seat.slot < 0 || seat.slot >= perSide {
        assert rows[i].user in ms && !InRange(perSide, ms[rows[i].user].seat);
        return None;
      }
      Place(a, b, perSide, rows, i);
    }
    AllInRange(perSide, rows, ms);
    FilledSide(perSide, rows, ms, 0);
    FilledSide(perSide, rows, ms, 1);
    return Some([Matches.Side(0, a[..]), Matches.Side(1, b[..])]);
  }

  lemma AllInRange(perSide: nat, rows: seq<Row>, ms: Members)
    requires Lists(rows, ms) && forall j | 0 <= j < |rows| :: InRange(perSide, rows[j].member.seat)
    ensures forall u :: u in ms ==> InRange(perSide, ms[u].seat)
  {
    forall u | u in ms ensures InRange(perSide, ms[u].seat) {
      assert Listed(rows, u);
      var j :| 0 <= j < |rows| && rows[j].user == u;
      assert InRange(perSide, rows[j].member.seat);
    }
  }

  lemma FilledSide(perSide: nat, rows: seq<Row>, ms: Members, side: int)
    requires Lists(rows, ms)
    ensures Matches.Side(side, Filled(perSide, rows, |rows|, side)) == SideOf(ms, perSide, side)
  {
    var players := Filled(perSide, rows, |rows|, side);
    forall k | 0 <= k < perSide ensures players[k] == PlayerAt(ms, Seat(side, k)) {
      SeatedAmongIsPlayerAt(rows, ms, Seat(side, k));
    }
  }

  // ---------------------------------------------------------------- join codes

  const ALPHABET: string := "23456789ABCDEFGHJKMNPQRSTUVWXYZ"
  const CODE_LENGTH: nat := 8

  predicate Blank(c: char) { c == ' ' || '\t' <= c <= '\r' }

  function TrimLeft(s: string): string {
    if s != [] && Blank(s[0]) then TrimLeft(s[1..]) else s
  }

  function TrimRight(s: string): string {
    if s != [] && Blank(s[|s| - 1]) then TrimRight(s[..|s| - 1]) else s
  }

  function Upper(c: char): char {
    if 'a' <= c <= 'z' then c - 'a' + 'A' else c
  }

  /** JoinByCode upper-cases and trims what the caller typed (ASCII only here). */
  function Canonical(s: string): string {
    var t := TrimRight(TrimLeft(s));
    seq(|t|, i requires 0 <= i < |t| => Upper(t[i]))
  }

  lemma {:induction false} TrimLeftDrops(left: string, t: string)
    requires (forall c :: c in left ==> Blank(c)) && (t != [] ==> !Blank(t[0]))
    ensures TrimLeft(left + t) == t
  {
    if left == [] {
      assert left + t == t;
    } else {
      assert (left + t)[1..] == left[1..] + t;
      TrimLeftDrops(left[1..], t);
    }
  }

  lemma {:induction false} TrimRightDrops(t: string, right: string)
    requires (forall c :: c in right ==> Blank(c)) && (t != [] ==> !Blank(t[|t| - 1]))
    ensures TrimRight(t + right) == t
  {
    if right == [] {
      assert t + right == t;
    } else {
      var init := right[..|right| - 1];
      assert (t + right)[..|t + right| - 1] == t + init;
      TrimRightDrops(t, init);
    }
  }

  /** White space around a typed code does not matter, nor does its case, and nothing else is changed. */
  lemma TypedCode(left: string, t: string, right: string)
    requires forall c :: c in left ==> c == ' ' || '\t' <= c <= '\r'
    requires forall c :: c in right ==> c == ' ' || '\t' <= c <= '\r'
    requires t != [] ==> !Blank(t[0]) && !Blank(t[|t| - 1])
    ensures |Canonical(left + t + right)| == |t|
    ensures forall i | 0 <= i < |t| ::
              Canonical(left + t + right)[i] == if 'a' <= t[i] <= 'z' then t[i] - 'a' + 'A' else t[i]
  {
    if t == [] {
      assert left + t + right == (left + right) + [];
      TrimLeftDrops(left + right, []);
    } else {
      assert left + t + right == left + (t + right);
      TrimLeftDrops(left, t + right);
      TrimRightDrops(t, right);
    }
  }

  predicate RandomBytes(random: seq<nat>) {
    |random| == CODE_LENGTH && forall v :: v in random ==> v < 256
  }

  method GenerateJoinCode(random: seq<nat>) returns (code: string)
    requires RandomBytes(random)
    ensures code == Encoded(random)
    ensures |code| == 8
    ensures forall i | 0 <= i < 8 :: code[i] == "23456789ABCDEFGHJKMNPQRSTUVWXYZ"[random[i] % 31]
  {
    var a := new char[CODE_LENGTH](_ => '0');
    for i := 0 to CODE_LENGTH
      invariant forall j | 0 <= j < i :: a[j] == ALPHABET[random[j] % |ALPHABET|]
    {
      a[i] := ALPHABET[random[i] % |ALPHABET|];
    }
    code := a[..];
  }

  function Encoded(random: seq<nat>): string {
    seq(|random|, i requires 0 <= i < |random| => ALPHABET[random[i] % |ALPHABET|])
  }

  /** A generated code survives the clean-up that JoinByCode applies to it, so the code it hands out finds its room. */
  lemma GeneratedCodeIsCanonical(random: seq<nat>)
    requires |random| == CODE_LENGTH
    ensures Canonical(Encoded(random)) == Encoded(random) != ""
  {
    var code := Encoded(random);
    forall i | 0 <= i < |ALPHABET| ensures !Blank(ALPHABET[i]) && Upper(ALPHABET[i]) == ALPHABET[i] {
    }
    assert !Blank(code[0]) && !Blank(code[|code| - 1]);
  }

  // ---------------------------------------------------------------- creating a room

  datatype CreateInput = CreateInput(visibility: Visibility, mode: Mode, ranked: bool,
                                     shotTimer: Option<int>, wager: Option<int>, spectators: Option<bool>)

  datatype CreateOutcome =
    | Created | ErrInvalidVisibility | ErrInvalidMode | ErrInvalidShotTimer | ErrInvalidWager | ErrCollision

  /** CreateInput.normalize: checks and fills in the defaults. */
  method Normalize(input: CreateInput) returns (r: CreateOutcome, out: CreateInput)
    ensures r == Refusal(input)
    ensures r == Created ==> out == Defaulted(input)
  {
    out := input;
    if input.visibility != Public && input.visibility != Private { return ErrInvalidVisibility, out; }
    if !input.mode.Valid() { return ErrInvalidMode, out; }
    if input.shotTimer.None? {
      out := out.(shotTimer := Some(30));
    } else if input.shotTimer.value < 15 || input.shotTimer.value > 120 {
      return ErrInvalidShotTimer, out;
    }
    if input.wager.None? {
      out := out.(wager := Some(0));
    } else if input.wager.value < 0 {
      return ErrInvalidWager, out;
    }
    if input.spectators.None? { out := out.(spectators := Some(true)); }
    return Created, out;
  }

  /** What `Normalize` must answer; never a collision. */
  function Refusal(input: CreateInput): (r: CreateOutcome)
    ensures r == ErrInvalidVisibility <==> input.visibility.OtherVisibility?
    ensures r == ErrInvalidMode <==> !input.visibility.OtherVisibility? && input.mode.OtherMode?
    ensures r == ErrInvalidShotTimer <==>
            !input.visibility.OtherVisibility? && !input.mode.OtherMode? &&
            input.shotTimer.Some? && !(15 <= input.shotTimer.value <= 120)
    ensures r == ErrInvalidWager <==>
            !input.visibility.OtherVisibility? && !input.mode.OtherMode? &&
            (input.shotTimer.Some? ==> 15 <= input.shotTimer.value <= 120) &&
            input.wager.Some? && input.wager.value < 0
    ensures r != ErrCollision
  {
    if input.visibility.OtherVisibility? then ErrInvalidVisibility
    else if !input.mode.Valid() then ErrInvalidMode
    else if input.shotTimer.Some? && (input.shotTimer.value < 15 || input.shotTimer.value > 120) then
      ErrInvalidShotTimer
    else if input.wager.Some? && input.wager.value < 0 then ErrInvalidWager
    else Created
  }

  function Defaulted(input: CreateInput): CreateInput {
    input.(shotTimer := if input.shotTimer.None? then Some(30) else input.shotTimer,
           wager := if input.wager.None? then Some(0) else input.wager,
           spectators := if input.spectators.None? then Some(true) else input.spectators)
  }

  function NewLobby(id: Id, host: Id, input: CreateInput, code: Option<string>, at: int): Lobby
    requires input.shotTimer.Some? && input.wager.Some? && input.spectators.Some?
  {
    Lobby(Room(id, input.visibility, input.mode, input.ranked, Matches.EightBall, input.shotTimer.value,
               input.wager.value, input.spectators.value, Open, host, code),
          map[host := Member(Seat(0, 0), false, at)], [])
  }

  /** The room a host gets: what was asked for, or the defaults; open, for eight-ball, with the host in its first
      seat and not ready. */
  lemma NewRoomIs(id: Id, host: Id, input: CreateInput, code: Option<string>, at: int)
    ensures var l := NewLobby(id, host, Defaulted(input), code, at);
            && l.room.id == id && l.room.host == host && l.room.joinCode == code
            && l.room.visibility == input.visibility && l.room.mode == input.mode && l.room.ranked == input.ranked
            && l.room.ruleset == Matches.EightBall && l.room.state == Open
            && l.room.shotTimer == (match input.shotTimer case None => 30 case Some(v) => v)
            && l.room.wager == (match input.wager case None => 0 case Some(v) => v)
            && l.room.spectators == (match input.spectators case None => true case Some(v) => v)
            && l.members == map[host := Member(Seat(0, 0), false, at)]
            && l.matches == []
  {
  }

  /** A validated input, its defaults filled in. */
  predicate Insertable(input: CreateInput) {
    && input.mode.Valid() && input.shotTimer.Some? && input.shotTimer.value > 0
    && input.wager.Some? && input.spectators.Some?
  }

  /** The tables the service works on. */
  type Tables = map<Id, Lobby>

  predicate CodeUsed(t: Tables, code: string) {
    exists id :: id in t && t[id].room.joinCode == Some(code)
  }

  ghost predicate AllUsed(t: Tables, random: seq<seq<nat>>, n: int) {
    forall a | 0 <= a < n && a < |random| :: CodeUsed(t, Encoded(random[a]))
  }

  /** The code of attempt `a` is free, and those of the attempts before it were all in use. */
  ghost predicate FirstUnused(t: Tables, random: seq<seq<nat>>, a: int, code: string) {
    0 <= a < |random| && code == Encoded(random[a]) && !CodeUsed(t, code) && AllUsed(t, random, a)
  }

  ghost predicate FoundUnused(t: Tables, random: seq<seq<nat>>, code: string) {
    exists a :: FirstUnused(t, random, a, code)
  }

  ghost predicate CodesDistinct(t: Tables) {
    forall i, j | i in t && j in t && t[i].room.joinCode.Some? && t[i].room.joinCode == t[j].room.joinCode :: i == j
  }

  ghost predicate TablesOk(t: Tables, now: int) {
    CodesDistinct(t) && forall id :: id in t ==> t[id].room.id == id && LobbyOk(t[id], now)
  }

  lemma NewLobbyOk(id: Id, host: Id, input: CreateInput, code: Option<string>, at: int)
    requires host != NIL && Insertable(input)
    requires code.Some? <==> input.visibility == Private
    ensures LobbyOk(NewLobby(id, host, input, code, at), at + 1)
  {
    assert Seat(0, 0) == input.mode.SeatOrder()[0];
  }

  /** One room changes as if the operation ran alone, and no other room changes. */
  ghost predicate Applied(before: Tables, after: Tables, id: Id, op: Op, r: Outcome) {
    if id in before then
      after == before[id := Apply(before[id], op).0] && r == Apply(before[id], op).1
    else
      after == before && r == ErrNotFound
  }

  lemma CodesStayDistinct(t: Tables, id: Id, l: Lobby)
    requires CodesDistinct(t) && id in t && l.room.joinCode == t[id].room.joinCode
    ensures CodesDistinct(t[id := l])
  {
    var t' := t[id := l];
    assert forall j :: j in t' ==> j in t && t'[j].room.joinCode == t[j].room.joinCode;
  }

  lemma OthersStayOk(t: Tables, now: int, later: int)
    requires TablesOk(t, now) && now <= later
    ensures TablesOk(t, later)
  {
    forall j | j in t ensures LobbyOk(t[j], later) { LaterOk(t[j], now, later); }
  }

  lemma AppliedKeepsOk(before: Tables, after: Tables, id: Id, op: Op, r: Outcome, now: int)
    requires TablesOk(before, now) && Applied(before, after, id, op, r) && op.user != NIL && StampedAt(op, now)
    ensures TablesOk(after, NextTick(op, now))
  {
    OthersStayOk(before, now, NextTick(op, now));
    if id in before {
      ApplyKeeps(before[id], op, now);
      ApplyNeverReopens(before[id], op);
      CodesStayDistinct(before, id, Apply(before[id], op).0);
    }
  }

  lemma ChangeApplied(t: Tables, id: Id, op: Op, l: Lobby, r: Outcome)
    requires id in t && (l, r) == Apply(t[id], op)
    ensures Applied(t, t[id := l], id, op, r)
  {
  }

  lemma NothingApplied(t: Tables, id: Id, op: Op)
    requires id in t && Apply(t[id], op).0 == t[id]
    ensures Applied(t, t, id, op, Apply(t[id], op).1)
  {
    assert t == t[id := t[id]];
  }

  lemma StartApplied(t: Tables, id: Id, user: Id, matchId: Id, r: Outcome, input: Option<Matches.CreateInput>)
    requires id in t && (r, input) == StartDecision(t[id].room, t[id].members, user)
    ensures Applied(t, if input.Some? then t[id := WithMatch(t[id], Match(matchId, input.value))] else t, id,
                    Op.Start(user, matchId), r)
  {
    if input.None? { NothingApplied(t, id, Op.Start(user, matchId)); }
  }

  lemma CreatedKeepsOk(t: Tables, now: int, id: Id, l: Lobby, later: int)
    requires TablesOk(t, now) && id !in t && now <= later && LobbyOk(l, later) && l.room.id == id
    requires l.room.joinCode.Some? ==> !CodeUsed(t, l.room.joinCode.value)
    ensures TablesOk(t[id := l], later)
  {
    OthersStayOk(t, now, later);
  }

  /** The one open room a code leads to. */
  ghost predicate LeadsTo(t: Tables, code: string, id: Id) {
    code != "" && id in t && t[id].room.joinCode == Some(code) && t[id].room.state == Open
  }

  // ---------------------------------------------------------------- one room's transactions

  /** seatMember, under the room's row lock. */
  method SeatIn(l: Lobby, user: Id, at: int) returns (l': Lobby, r: Outcome)
    requires DistinctSeats(l.members)
    ensures (l', r) == SeatMember(l, user, at)
  {
    l' := l;
    if l.room.state != Open { return l, ErrRoomClosed; }
    var rows := SelectMembers(l.members);
    for i := 0 to |rows|
      invariant forall j | 0 <= j < i :: rows[j].user != user
    {
      if rows[i].user == user { return l, ErrAlreadyMember; }
    }
    assert user in l.members ==> Listed(rows, user);
    var seat := FirstOpenSeat(l.room.mode.SeatOrder(), rows, l.members);
    if seat.None? { return l, ErrRoomFull; }
    return l.(members := l.members[user := Member(seat.value, false, at)]), Ok;
  }

  /** Leave: delete, read who remains, then close the room or hand it over. */
  method LeaveFrom(l: Lobby, user: Id) returns (l': Lobby, r: Outcome)
    requires DistinctSeats(l.members)
    ensures (l', r) == LeaveRoom(l, user)
  {
    if user !in l.members { return l, ErrNotMember; }
    l' := l.(members := l.members - {user});
    assert DistinctSeats(l'.members) by {
      assert forall v :: v in l'.members ==> v in l.members && l'.members[v] == l.members[v];
    }
    var remaining := SelectMembers(l'.members);
    ListsSize(remaining, l'.members);
    if |remaining| == 0 {
      l' := l'.(room := l.room.(state := Closed));
    } else if l.room.host == user {
      var next := EarliestMember(remaining, l'.members);
      HeirIsUnique(l'.members, next);
      l' := l'.(room := l.room.(host := next));
    }
    r := Ok;
  }

  /** The checks and reads of Start, up to the input it hands to the match feature. */
  method DecideStart(l: Lobby, user: Id) returns (r: Outcome, input: Option<Matches.CreateInput>)
    requires DistinctSeats(l.members)
    ensures (r, input) == StartDecision(l.room, l.members, user)
  {
    input := None;
    if l.room.host != user { return ErrNotHost, None; }
    if l.room.state != Open { return ErrRoomClosed, None; }
    var rows := SelectMembers(l.members);
    ListsSize(rows, l.members);
    if |rows| != l.room.mode.Capacity() { return ErrRoomNotFull, None; }
    var ready := AllReady(rows, l.members);
    if !ready { return ErrNotAllReady, None; }
    var sides := BuildMatchSides(l.room.mode.PlayersPerSide(), rows, l.members);
    if sides.None? { return ErrSeatOutOfRange, None; }
    var made := Matches.Normalize(Matches.CreateInput(l.room.id, l.room.mode.ToMatchMode(), l.room.ranked,
                                                      l.room.ruleset, l.room.shotTimer, sides.value));
    match made
    case Err(e) => return ErrMatch(e), None;
    case Ok(normal) => return Ok, Some(normal);
  }

  method AllReady(rows: seq<Row>, ghost ms: Members) returns (all: bool)
    requires Lists(rows, ms)
    ensures all <==> !exists u :: u in ms && !ms[u].ready
  {
    for i := 0 to |rows|
      invariant forall j | 0 <= j < i :: rows[j].member.ready
    {
      if !rows[i].member.ready {
        assert rows[i].user in ms && !ms[rows[i].user].ready;
        return false;
      }
    }
    forall u | u in ms ensures ms[u].ready {
      assert Listed(rows, u);
      var j :| 0 <= j < |rows| && rows[j].user == u;
    }
    all := true;
  }

  /** Only a private room gets a code. */
  method CodeFor(visibility: Visibility, random: seq<nat>) returns (code: Option<string>)
    requires RandomBytes(random)
    ensures code == if visibility == Private then Some(Encoded(random)) else None
  {
    code := None;
    if visibility == Private {
      var c := GenerateJoinCode(random);
      code := Some(c);
    }
  }

  // ---------------------------------------------------------------- the service

  class Service {
    var rooms: Tables
    ghost var now: int  // later than every join so far

    ghost predicate Valid() reads this { TablesOk(rooms, now) }

    constructor ()
      ensures Valid() && rooms == map[]
    {
      rooms, now := map[], 0;
    }

    /** One attempt of Create: a transaction that fails whole when the code is taken. */
    method InsertRoom(id: Id, l: Lobby, at: int) returns (collided: bool)
      requires Valid() && id !in rooms && now <= at && LobbyOk(l, at + 1) && l.room.id == id
      modifies this
      ensures Valid() && now >= old(now) && (collided ==> now == old(now))
      ensures collided <==> l.room.joinCode.Some? && CodeUsed(old(rooms), l.room.joinCode.value)
      ensures rooms == if collided then old(rooms) else old(rooms)[id := l]
    {
      collided := l.room.joinCode.Some? && CodeUsed(rooms, l.room.joinCode.value);
      if !collided {
        CreatedKeepsOk(rooms, now, id, l, at + 1);
        rooms := rooms[id := l];
        now := at + 1;
      }
    }

    /** Create: up to three attempts, each with a fresh code when the room is private. */
    method Create(id: Id, host: Id, input: CreateInput, random: seq<seq<nat>>, at: int)
      returns (r: CreateOutcome, code: Option<string>)
      requires Valid() && id !in rooms && host != NIL && now <= at
      requires |random| == 3 && forall a | 0 <= a < 3 :: RandomBytes(random[a])
      modifies this
      ensures Valid() && now >= old(now)
      ensures r == Created ==> rooms == old(rooms)[id := NewLobby(id, host, Defaulted(input), code, at)]
      ensures r == Created ==> (code.Some? <==> input.visibility == Private)
      ensures r == Created && code.Some? ==> FoundUnused(old(rooms), random, code.value)
      ensures r != Created ==> rooms == old(rooms)
      ensures Refusal(input) != Created ==> r == Refusal(input)
      ensures Refusal(input) == Created ==> r == Created || r == ErrCollision
      ensures r == ErrCollision ==> input.visibility == Private && AllUsed(rooms, random, 3)
    {
      code := None;
      var normal: CreateInput;
      r, normal := Normalize(input);
      if r == Created {
        r, code := AttemptThrice(id, host, normal, random, at);
      }
    }

    /** The retry loop: each attempt is a transaction of its own. */
    method AttemptThrice(id: Id, host: Id, normal: CreateInput, random: seq<seq<nat>>, at: int)
      returns (r: CreateOutcome, code: Option<string>)
      requires Valid() && id !in rooms && host != NIL && now <= at && Insertable(normal)
      requires |random| == 3 && forall a | 0 <= a < 3 :: RandomBytes(random[a])
      modifies this
      ensures Valid() && now >= old(now) && (r == Created || r == ErrCollision)
      ensures r == Created ==> rooms == old(rooms)[id := NewLobby(id, host, normal, code, at)]
      ensures r == Created ==> (code.Some? <==> normal.visibility == Private)
      ensures r == Created && code.Some? ==> FoundUnused(old(rooms), random, code.value)
      ensures r != Created ==> rooms == old(rooms)
      ensures r == ErrCollision ==> normal.visibility == Private && AllUsed(rooms, random, 3)
    {
      for attempt := 0 to 3
        invariant Valid() && now == old(now) && rooms == old(rooms)
        invariant (attempt > 0 ==> normal.visibility == Private) && AllUsed(rooms, random, attempt)
      {
        r, code := TryNext(id, host, normal, random, attempt, at);
        if r != ErrCollision { return; }
      }
      r, code := ErrCollision, None;
    }

    /** One round of the loop, after `attempt` codes that were in use. */
    method TryNext(id: Id, host: Id, normal: CreateInput, random: seq<seq<nat>>, attempt: nat, at: int)
      returns (r: CreateOutcome, code: Option<string>)
      requires Valid() && id !in rooms && host != NIL && now <= at && Insertable(normal)
      requires attempt < |random| && RandomBytes(random[attempt]) && AllUsed(rooms, random, attempt)
      modifies this
      ensures Valid() && now >= old(now) && (r == Created || r == ErrCollision)
      ensures r == Created ==> rooms == old(rooms)[id := NewLobby(id, host, normal, code, at)]
      ensures r == Created ==> (code.Some? <==> normal.visibility == Private)
      ensures r == Created && code.Some? ==> FoundUnused(old(rooms), random, code.value)
      ensures r != Created ==> rooms == old(rooms) && now == old(now)
      ensures r != Created ==> normal.visibility == Private && AllUsed(rooms, random, attempt + 1)
    {
      code := CodeFor(normal.visibility, random[attempt]);
      ghost var before := rooms;
      r := Attempt(id, host, normal, code, at);
      assert r == Created && code.Some? ==> FirstUnused(before, random, attempt, code.value);
    }

    method Attempt(id: Id, host: Id, normal: CreateInput, code: Option<string>, at: int) returns (r: CreateOutcome)
      requires Valid() && id !in rooms && host != NIL && now <= at
      requires Insertable(normal)
      requires code.Some? <==> normal.visibility == Private
      modifies this
      ensures Valid() && now >= old(now)
      ensures if code.Some? && CodeUsed(old(rooms), code.value)
              then r == ErrCollision && rooms == old(rooms) && now == old(now)
              else r == Created && rooms == old(rooms)[id := NewLobby(id, host, normal, code, at)]
    {
      NewLobbyOk(id, host, normal, code, at);
      var collided := InsertRoom(id, NewLobby(id, host, normal, code, at), at);
      r := if collided then ErrCollision else Created;
    }

    method Join(id: Id, user: Id, at: int) returns (r: Outcome)
      requires Valid() && user != NIL && now <= at
      modifies this
      ensures Valid() && Applied(old(rooms), rooms, id, Op.Join(user, at), r)
    {
      ghost var before := rooms;
      if id !in rooms {
        r := ErrNotFound;
      } else if rooms[id].room.visibility != Public {
        NothingApplied(rooms, id, Op.Join(user, at));
        r := ErrWrongJoinPath;
      } else {
        var l: Lobby;
        l, r := SeatIn(rooms[id], user, at);
        rooms := rooms[id := l];
        ChangeApplied(before, id, Op.Join(user, at), l, r);
      }
      AppliedKeepsOk(before, rooms, id, Op.Join(user, at), r, now);
      now := at + 1;
    }

    /** The locked read by code: an open room with that code, if there is one. */
    method SelectByCode(code: string) returns (found: Option<Id>)
      requires code != ""
      ensures found.Some? ==> LeadsTo(rooms, code, found.value)
      ensures found.None? ==> !exists id: Id :: LeadsTo(rooms, code, id)
    {
      if id: Id :| id in rooms && rooms[id].room.joinCode == Some(code) && rooms[id].room.state == Open {
        return Some(id);
      }
      return None;
    }

    method JoinByCode(typed: string, user: Id, at: int) returns (r: Outcome)
      requires Valid() && user != NIL && now <= at
      modifies this
      ensures Valid()
      ensures forall id: Id :: LeadsTo(old(rooms), Canonical(typed), id) ==>
                                 Applied(old(rooms), rooms, id, Op.JoinByCode(Canonical(typed), user, at), r)
      ensures !(exists id: Id :: LeadsTo(old(rooms), Canonical(typed), id)) ==>
                rooms == old(rooms) && r == ErrInvalidJoinCode
    {
      var code := Canonical(typed);
      if code == "" { return ErrInvalidJoinCode; }
      var found := SelectByCode(code);
      if found.None? { return ErrInvalidJoinCode; }
      ghost var before := rooms;
      assert forall id: Id :: LeadsTo(before, code, id) ==> id == found.value;
      var l: Lobby;
      l, r := SeatIn(rooms[found.value], user, at);
      rooms := rooms[found.value := l];
      AppliedKeepsOk(before, rooms, found.value, Op.JoinByCode(code, user, at), r, now);
      now := at + 1;
    }

    method Leave(id: Id, user: Id) returns (r: Outcome)
      requires Valid() && user != NIL
      modifies this
      ensures Valid() && Applied(old(rooms), rooms, id, Op.Leave(user), r)
    {
      ghost var before := rooms;
      if id !in rooms { return ErrNotFound; }
      var l: Lobby;
      l, r := LeaveFrom(rooms[id], user);
      rooms := rooms[id := l];
      AppliedKeepsOk(before, rooms, id, Op.Leave(user), r, now);
    }

    method SetReady(id: Id, user: Id, ready: bool) returns (r: Outcome)
      requires Valid() && user != NIL
      modifies this
      ensures Valid()
      ensures if id in old(rooms) then Applied(old(rooms), rooms, id, Op.SetReady(user, ready), r)
              else rooms == old(rooms) && r == ErrNotMember
    {
      ghost var before := rooms;
      r := ErrNotMember;
      if id in rooms && user in rooms[id].members {
        rooms := rooms[id := rooms[id].(members := MarkReady(rooms[id].members, user, ready))];
        r := Ok;
      } else if id in rooms {
        NothingApplied(rooms, id, Op.SetReady(user, ready));
      }
      if id in before { AppliedKeepsOk(before, rooms, id, Op.SetReady(user, ready), r, now); }
    }

    method Start(id: Id, user: Id, matchId: Id) returns (r: Outcome)
      requires Valid() && user != NIL
      modifies this
      ensures Valid() && Applied(old(rooms), rooms, id, Op.Start(user, matchId), r)
    {
      ghost var before := rooms;
      if id !in rooms { return ErrNotFound; }
      var l := rooms[id];
      var input: Option<Matches.CreateInput>;
      r, input := DecideStart(l, user);
      StartApplied(rooms, id, user, matchId, r, input);
      if input.Some? {
        rooms := rooms[id := WithMatch(l, Match(matchId, input.value))];
      }
      AppliedKeepsOk(before, rooms, id, Op.Start(user, matchId), r, now);
    }
  }
}
