/** The rows a match is stored in (internal/matches/repository.go): inserting a match writes its row and one row for
    each player, slot by slot; reading it back appends the player rows to their sides. */
module MatchRows {
  import opened Basics
  import opened Matches
  import opened Turns
  import Actors

  /** A row of the matches table; the turn is a pair of nullable columns. */
  datatype MatchRow = MatchRow(roomId: Id, state: State, mode: Mode, ranked: bool, ruleset: Ruleset, shotTimer: int,
                               turnSide: Option<int>, turnPlayerIdx: Option<int>, turnStartedAt: Option<int>,
                               startedAt: Option<int>, completedAt: Option<int>, createdAt: int)

  datatype Match = Match(id: Id, roomId: Id, state: State, mode: Mode, ranked: bool, ruleset: Ruleset, shotTimer: int,
                         sides: Sides, turn: Option<TurnRef>, turnStartedAt: Option<int>,
                         startedAt: Option<int>, completedAt: Option<int>, createdAt: int)

  /** A row of match_participants, as one match's listing returns it. */
  datatype ParticipantRow = ParticipantRow(user: Id, side: int, slot: int)

  /** The participants of one match, keyed by user. */
  type Seating = map<Id, Seat>

  function ToMatch(id: Id, r: MatchRow): Match {
    var turn := if r.turnSide.Some? && r.turnPlayerIdx.Some? then Some(TurnRef(r.turnSide.value, r.turnPlayerIdx.value))
                else None;
    Match(id, r.roomId, r.state, r.mode, r.ranked, r.ruleset, r.shotTimer, [Side(0, []), Side(1, [])],
          turn, r.turnStartedAt, r.startedAt, r.completedAt, r.createdAt)
  }

  function NewRow(input: CreateInput, now: int): MatchRow {
    MatchRow(input.roomId, Waiting, input.mode, input.ranked, input.ruleset, input.shotTimer,
             None, None, None, None, None, now)
  }

  /** What a creation promises its caller. */
  function Created(id: Id, input: CreateInput, now: int): Match {
    Match(id, input.roomId, Waiting, input.mode, input.ranked, input.ruleset, input.shotTimer, input.sides,
          None, None, None, None, now)
  }

  predicate IdsByPosition(sides: Sides) {
    sides[0].id == 0 && sides[1].id == 1
  }

  /** The seat of the n-th player of a roster that begins with side A's `a` players. */
  function SeatAt(a: nat, n: nat): Seat {
    if n < a then Seat(0, n) else Seat(1, n - a)
  }

  /** The first n players of the roster hold their seats, and nobody else holds one. */
  ghost predicate SeatedTo(seating: Seating, roster: seq<Id>, a: nat, n: nat)
    requires n <= |roster|
  {
    && seating.Keys == Elements(roster[..n]) && NoDuplicates(roster[..n])
    && forall k | 0 <= k < n :: roster[k] in seating && seating[roster[k]] == SeatAt(a, k)
  }

  /** Every player of both sides holds the seat of side and slot, and nobody else holds one. */
  ghost predicate AllSeated(seating: Seating, sides: Sides) {
    SeatedTo(seating, Roster(sides), |sides[0].players|, |Roster(sides)|)
  }

  /** Where an insert was refused: the players before the n-th are seated, and the n-th repeats one of them or has no
      slot. */
  ghost predicate RefusedAt(seating: Seating, roster: seq<Id>, a: nat, slots: nat, n: nat)
    requires n < |roster|
  {
    SeatedTo(seating, roster, a, n) && (roster[n] in seating || SeatAt(a, n).slot >= slots)
  }

  ghost predicate Refused(seating: Seating, roster: seq<Id>, a: nat, slots: nat) {
    exists n: nat | n < |roster| :: RefusedAt(seating, roster, a, slots, n)
  }

  ghost predicate SeatsUnique(seating: Seating) {
    forall u, v | u in seating && v in seating && seating[u] == seating[v] :: u == v
  }

  ghost predicate SidesInRange(seating: Seating) {
    forall u :: u in seating ==> 0 <= seating[u].side <= 1
  }

  predicate RowBefore(a: ParticipantRow, b: ParticipantRow) {
    SeatBefore(Seat(a.side, a.slot), Seat(b.side, b.slot))
  }

  function RowsOf(seating: Seating): set<ParticipantRow> {
    set u | u in seating :: ParticipantRow(u, seating[u].side, seating[u].slot)
  }

  /** An answer of the participants query: every row of the match, ordered by side and slot. */
  ghost predicate IsListing(rows: seq<ParticipantRow>, seating: Seating) {
    && Sorted(rows, RowBefore)
    && Elements(rows) == RowsOf(seating)
  }

  function PlayersOn(rows: seq<ParticipantRow>, side: int): seq<Id> {
    if rows == [] then []
    else
      var row := rows[|rows| - 1];
      PlayersOn(rows[..|rows| - 1], side) + if row.side == side then [row.user] else []
  }

  /** The match that a row and a listing describe. */
  function Assembled(id: Id, row: MatchRow, rows: seq<ParticipantRow>): Match {
    ToMatch(id, row).(sides := [Side(0, PlayersOn(rows, 0)), Side(1, PlayersOn(rows, 1))])
  }

  /** Every participant row belongs to a match, holds a seat of its own, and is on one of the two sides. */
  ghost predicate TablesOk(matches: map<Id, MatchRow>, participants: map<Id, Seating>) {
    && participants.Keys <= matches.Keys
    && forall id :: id in participants ==> SeatsUnique(participants[id]) && SidesInRange(participants[id])
  }

  lemma RowsInsertedOk(matches: map<Id, MatchRow>, participants: map<Id, Seating>, id: Id, row: MatchRow,
                       participants': map<Id, Seating>)
    requires TablesOk(matches, participants) && participants' - {id} == participants
    requires id in participants' ==> SeatsUnique(participants'[id]) && SidesInRange(participants'[id])
    ensures TablesOk(matches[id := row], participants')
  {
    forall other | other in participants' && other != id
      ensures other in participants && participants'[other] == participants[other]
    {
      assert other in participants' - {id};
    }
  }

  class Tables {
    const slots: nat  // how many slots a side has; the migration's check admits 2
    var matches: map<Id, MatchRow>
    var participants: map<Id, Seating>

    constructor (slots: nat)
      ensures Valid() && this.slots == slots && matches == map[] && participants == map[]
    {
      this.slots, matches, participants := slots, map[], map[];
    }

    ghost predicate Valid() reads this { TablesOk(matches, participants) }

    function Seated(id: Id): Seating reads this {
      if id in participants then participants[id] else map[]
    }

    /** One participant row; refused by the primary key (match, user), the unique index on the seat, or the check on
        its slot. */
    method InsertParticipant(id: Id, user: Id, seat: Seat) returns (ok: bool)
      modifies this`participants
      ensures ok <==> user !in old(Seated(id)) && seat !in old(Seated(id)).Values && 0 <= seat.slot < slots
      ensures participants == if ok then old(participants[id := Seated(id)[user := seat]]) else old(participants)
      ensures participants - {id} == old(participants) - {id}
    {
      var seating: Seating := Seated(id);
      ok := user !in seating && (!exists u: Id | u in seating :: seating[u] == seat) && 0 <= seat.slot < slots;
      if ok {
        seating := seating[user := seat];
        participants := participants[id := seating];
      }
    }

    predicate Fits(sides: Sides) { |sides[0].players| <= slots && |sides[1].players| <= slots }

    /** insertMatch: the match row, then the players of each side slot by slot. After a refusal the match row and the
        players before the refused one are there, for the surrounding transaction to roll back. */
    method Insert(id: Id, input: CreateInput, now: int) returns (r: Option<Match>)
      requires Valid() && IdsByPosition(input.sides)
      modifies this
      ensures r.Some? <==> old(id !in matches) && NoDuplicates(Roster(input.sides)) && Fits(input.sides)
      ensures matches - {id} == old(matches) - {id} && participants - {id} == old(participants) - {id}
      ensures r.None? && old(id !in matches) ==>
                && id in matches && matches[id] == NewRow(input, now)
                && Refused(Seated(id), Roster(input.sides), |input.sides[0].players|, slots)
      ensures old(id in matches) ==> r.None? && matches == old(matches) && participants == old(participants)
      ensures r.Some? ==>
                && Valid() && r.value == Created(id, input, now)
                && matches == old(matches)[id := NewRow(input, now)]
                && participants - {id} == old(participants)
                && AllSeated(Seated(id), input.sides)
    {
      if id in matches { return None; }
      matches := matches[id := NewRow(input, now)];
      var m := ToMatch(id, matches[id]);
      var ok := InsertSides(id, input.sides);
      if !ok { return None; }
      RowsInsertedOk(old(matches), old(participants), id, matches[id], participants);
      m := m.(sides := input.sides);
      return Some(m);
    }

    /** Both sides' players, for a match that has none yet: refused exactly when the roster repeats a player or does
        not fit. */
    method InsertSides(id: Id, sides: Sides) returns (ok: bool)
      requires id !in participants && IdsByPosition(sides)
      modifies this`participants
      ensures ok <==> NoDuplicates(Roster(sides)) && Fits(sides)
      ensures !ok ==> Refused(Seated(id), Roster(sides), |sides[0].players|, slots)
      ensures ok ==> AllSeated(Seated(id), sides) && SeatsUnique(Seated(id)) && SidesInRange(Seated(id))
      ensures participants - {id} == old(participants)
    {
      ok := InsertBoth(id, sides, Roster(sides));
      if ok {
        SeatedSeats(Seated(id), Roster(sides), |sides[0].players|);
      } else {
        RefusedMeans(Seated(id), sides, slots);
      }
    }

    /** The loop over the two sides. */
    method InsertBoth(id: Id, sides: Sides, ghost roster: seq<Id>) returns (ok: bool)
      requires id !in participants && IdsByPosition(sides) && roster == Roster(sides)
      modifies this`participants
      ensures ok ==> SeatedTo(Seated(id), roster, |sides[0].players|, |roster|) && Fits(sides)
      ensures !ok ==> Refused(Seated(id), roster, |sides[0].players|, slots)
      ensures participants - {id} == old(participants)
    {
      SidesMakeRoster(sides);
      ghost var a := |sides[0].players|;
      NoneSeated(roster, a);
      ok := InsertSide(id, sides[0], roster, a, 0);
      if !ok { return; }
      ok := InsertSide(id, sides[1], roster, a, a);
    }

    /** The loop over one side's players, the roster's players from the n-th on. */
    method InsertSide(id: Id, side: Side, ghost roster: seq<Id>, ghost a: nat, ghost n: nat) returns (ok: bool)
      requires SideFrom(side, roster, a, n) && SeatedTo(Seated(id), roster, a, n)
      modifies this`participants
      ensures ok ==> SeatedTo(Seated(id), roster, a, n + |side.players|) && |side.players| <= slots
      ensures !ok ==> Refused(Seated(id), roster, a, slots)
      ensures participants - {id} == old(participants) - {id}
    {
      for slot := 0 to |side.players|
        invariant SeatedTo(Seated(id), roster, a, n + slot) && slot <= slots
        invariant participants - {id} == old(participants) - {id}
      {
        NextOfSide(side, roster, a, n, slot);
        ok := InsertNext(id, side.players[slot], Seat(side.id, slot), roster, a, n + slot);
        if !ok { return; }
      }
      ok := true;
    }

    /** The roster's n-th player, in its seat. */
    method InsertNext(id: Id, user: Id, seat: Seat, ghost roster: seq<Id>, ghost a: nat, ghost n: nat)
      returns (ok: bool)
      requires n < |roster| && user == roster[n] && seat == SeatAt(a, n) && SeatedTo(Seated(id), roster, a, n)
      modifies this`participants
      ensures ok ==> SeatedTo(Seated(id), roster, a, n + 1) && seat.slot < slots
      ensures !ok ==> Refused(Seated(id), roster, a, slots)
      ensures participants - {id} == old(participants) - {id}
    {
      SeatNext(Seated(id), roster, a, n);
      ok := InsertParticipant(id, user, seat);
      assert !ok ==> RefusedAt(Seated(id), roster, a, slots, n);
    }

    /** CreateInTx: validation, then the insert; a valid input is stored unless its id is already in use
        (with two slots a side, as the migration has it, it always fits). */
    method CreateInTx(input: CreateInput, id: Id, now: int) returns (r: Result<Option<Match>>)
      requires Valid()
      modifies this
      ensures r.Err? <==> Normalized(input).Err?
      ensures r.Err? ==>
                r.error == Normalized(input).error && matches == old(matches) && participants == old(participants)
      ensures r.Ok? ==> (r.value.Some? <==> old(id !in matches) && input.mode.PlayersPerSide() <= slots)
      ensures r.Ok? && r.value.Some? ==>
                && Valid() && r.value.value == Created(id, Normalized(input).value, now)
                && matches == old(matches)[id := NewRow(Normalized(input).value, now)]
                && participants - {id} == old(participants)
                && AllSeated(Seated(id), input.sides)
    {
      var normal := Normalize(input);
      if normal.Err? { return Err(normal.error); }
      var m := Insert(id, normal.value, now);
      return Result.Ok(m);
    }

    method UpdateState(id: Id, state: State, startedAt: Option<int>, completedAt: Option<int>)
      modifies this`matches
      ensures matches == if id !in old(matches) then old(matches)
                         else old(matches[id := WithState(matches[id], state, startedAt, completedAt)])
    {
      if id in matches {
        matches := matches[id := WithState(matches[id], state, startedAt, completedAt)];
      }
    }

    method UpdateTurn(id: Id, turn: TurnRef, startedAt: int)
      modifies this`matches
      ensures matches == if id !in old(matches) then old(matches)
                         else old(matches[id := WithTurn(matches[id], turn, startedAt)])
    {
      if id in matches { matches := matches[id := WithTurn(matches[id], turn, startedAt)]; }
    }

    /** selectParticipants: ... WHERE match_id = id ORDER BY side, slot. */
    method SelectParticipants(id: Id) returns (rows: seq<ParticipantRow>)
      requires Valid()
      ensures IsListing(rows, Seated(id))
    {
      RowsAreOrdered(Seated(id));
      rows := SortedListing(RowsOf(Seated(id)), RowBefore);
    }

    /** scanMatch: the match row, and every participant row appended to its side. */
    method Scan(id: Id) returns (r: Option<Match>)
      requires Valid()
      ensures r.None? <==> id !in matches
      ensures r.Some? ==> exists rows :: IsListing(rows, Seated(id)) && r.value == Assembled(id, matches[id], rows)
    {
      if id !in matches { return None; }
      var m := ToMatch(id, matches[id]);
      var rows := SelectParticipants(id);
      for i := 0 to |rows|
        invariant m == Assembled(id, matches[id], rows[..i])
      {
        PlayersOnNext(rows, i);
        var p := rows[i];
        assert p in Elements(rows) && 0 <= p.side <= 1;
        var side := m.sides[p.side];
        m := m.(sides := m.sides[p.side := side.(players := side.players + [p.user])]);
        assert m.sides[0] == Side(0, PlayersOn(rows[..i + 1], 0));
        assert m.sides[1] == Side(1, PlayersOn(rows[..i + 1], 1));
      }
      assert rows[..|rows|] == rows;
      return Some(m);
    }
  }

  lemma RowsAreOrdered(seating: Seating)
    requires SeatsUnique(seating)
    ensures Transitive(RowBefore) && TotalOn(RowsOf(seating), RowBefore)
  {
    forall x, y | x in RowsOf(seating) && y in RowsOf(seating) && x != y ensures RowBefore(x, y) || RowBefore(y, x) {
      assert seating[x.user] == seating[y.user] ==> x.user == y.user;
    }
  }

  lemma PlayersOnNext(rows: seq<ParticipantRow>, i: nat)
    requires i < |rows|
    ensures forall side :: PlayersOn(rows[..i + 1], side) ==
                           PlayersOn(rows[..i], side) + if rows[i].side == side then [rows[i].user] else []
  {
    assert rows[..i + 1][..i] == rows[..i];
  }

  function WithState(r: MatchRow, state: State, startedAt: Option<int>, completedAt: Option<int>): MatchRow {
    r.(state := state, startedAt := startedAt, completedAt := completedAt)
  }

  function WithTurn(r: MatchRow, turn: TurnRef, startedAt: int): MatchRow {
    r.(turnSide := Some(turn.side), turnPlayerIdx := Some(turn.playerIdx), turnStartedAt := Some(startedAt))
  }

  /** Whether the next participant row is accepted depends only on whether its player is already there. */
  lemma SeatNext(seating: Seating, roster: seq<Id>, a: nat, n: nat)
    requires n < |roster| && SeatedTo(seating, roster, a, n)
    ensures SeatAt(a, n) !in seating.Values
    ensures roster[n] !in seating ==> SeatedTo(seating[roster[n] := SeatAt(a, n)], roster, a, n + 1)
    ensures roster[n] in seating ==> !NoDuplicates(roster)
  {
    assert roster[..n + 1] == roster[..n] + [roster[n]];
    forall u | u in seating ensures seating[u] != SeatAt(a, n) {
      assert u in Elements(roster[..n]);
    }
    if roster[n] in seating {
      assert roster[n] in Elements(roster[..n]);
    }
  }

  /** A refusal means that the roster repeats a player or does not fit. */
  lemma RefusedMeans(seating: Seating, sides: Sides, slots: nat)
    requires Refused(seating, Roster(sides), |sides[0].players|, slots)
    ensures !NoDuplicates(Roster(sides)) || |sides[0].players| > slots || |sides[1].players| > slots
  {
    var roster, a := Roster(sides), |sides[0].players|;
    var n: nat :| n < |roster| && RefusedAt(seating, roster, a, slots, n);
    SeatNext(seating, roster, a, n);
  }

  lemma SeatedSeats(seating: Seating, roster: seq<Id>, a: nat)
    requires SeatedTo(seating, roster, a, |roster|)
    ensures NoDuplicates(roster) && SeatsUnique(seating) && SidesInRange(seating)
  {
    assert roster[..|roster|] == roster;
    forall u | u in seating ensures exists k :: 0 <= k < |roster| && roster[k] == u && seating[u] == SeatAt(a, k) {
      assert u in Elements(roster);
    }
  }

  /** A side is the stretch of the roster from `n` on. */
  ghost predicate SideFrom(side: Side, roster: seq<Id>, a: nat, n: nat) {
    && n + |side.players| <= |roster|
    && forall k | 0 <= k < |side.players| ::
         side.players[k] == roster[n + k] && Seat(side.id, k) == SeatAt(a, n + k)
  }

  lemma NextOfSide(side: Side, roster: seq<Id>, a: nat, n: nat, slot: nat)
    requires SideFrom(side, roster, a, n) && slot < |side.players|
    ensures n + slot < |roster|
    ensures side.players[slot] == roster[n + slot] && Seat(side.id, slot) == SeatAt(a, n + slot)
  {
  }

  lemma SidesMakeRoster(sides: Sides)
    requires IdsByPosition(sides)
    ensures var roster, a := Roster(sides), |sides[0].players|;
            && |roster| == a + |sides[1].players|
            && SideFrom(sides[0], roster, a, 0) && SideFrom(sides[1], roster, a, a)
  {
  }

  lemma NoneSeated(roster: seq<Id>, a: nat)
    ensures SeatedTo(map[], roster, a, 0)
  {
  }

  // ---------------------------------------------------------------- round trips

  function RosterRows(sides: Sides): seq<ParticipantRow> {
    seq(|Roster(sides)|, n requires 0 <= n < |Roster(sides)| =>
      ParticipantRow(Roster(sides)[n], SeatAt(|sides[0].players|, n).side, SeatAt(|sides[0].players|, n).slot))
  }

  /** Whatever listing the query returns, it is the roster in order. */
  lemma ListingIsRoster(rows: seq<ParticipantRow>, seating: Seating, sides: Sides)
    requires AllSeated(seating, sides) && IsListing(rows, seating)
    ensures rows == RosterRows(sides)
  {
    var roster, all := Roster(sides), RosterRows(sides);
    assert roster[..|roster|] == roster;
    forall row | row in Elements(rows) ensures row in Elements(all) {
      assert row.user in Elements(roster);
      var k :| 0 <= k < |roster| && roster[k] == row.user;
      assert all[k] == row;
    }
    forall row | row in Elements(all) ensures row in Elements(rows) {
      assert row.user in seating;
    }
    SortedListingIsUnique(rows, all, RowBefore);
  }

  /** The players of one side among the first n of the roster. */
  function GatheredFrom(sides: Sides, side: int, n: nat): seq<Id>
    requires n <= |Roster(sides)|
  {
    var a := |sides[0].players|;
    if side == 0 then sides[0].players[..if n < a then n else a] else sides[1].players[..if n < a then 0 else n - a]
  }

  lemma GatheredNext(sides: Sides, side: int, n: nat)
    requires n < |Roster(sides)| && 0 <= side <= 1
    ensures GatheredFrom(sides, side, n + 1) ==
            GatheredFrom(sides, side, n) + if SeatAt(|sides[0].players|, n).side == side then [Roster(sides)[n]] else []
  {
  }

  lemma {:induction false} RosterRowsGather(sides: Sides, side: int, n: nat)
    requires n <= |Roster(sides)| && 0 <= side <= 1
    ensures PlayersOn(RosterRows(sides)[..n], side) == GatheredFrom(sides, side, n)
  {
    if n > 0 {
      RosterRowsGather(sides, side, n - 1);
      PlayersOnNext(RosterRows(sides), n - 1);
      GatheredNext(sides, side, n - 1);
    }
  }

  lemma GatheredAll(sides: Sides, side: int)
    requires 0 <= side <= 1
    ensures GatheredFrom(sides, side, |Roster(sides)|) == sides[side].players
  {
  }

  lemma RosterRowsAreSide(sides: Sides, side: int)
    requires 0 <= side <= 1
    ensures PlayersOn(RosterRows(sides), side) == sides[side].players
  {
    var rows := RosterRows(sides);
    RosterRowsGather(sides, side, |rows|);
    assert rows[..|rows|] == rows;
    GatheredAll(sides, side);
  }

  lemma RosterRowsAreTheSides(sides: Sides)
    requires IdsByPosition(sides)
    ensures [Side(0, PlayersOn(RosterRows(sides), 0)), Side(1, PlayersOn(RosterRows(sides), 1))] == sides
  {
    RosterRowsAreSide(sides, 0);
    RosterRowsAreSide(sides, 1);
    assert Side(0, sides[0].players) == sides[0] && Side(1, sides[1].players) == sides[1];
  }

  /** Reading back a match just inserted gives the match the creation returned: every player on the side and in the
      slot of the input, for any number of players a side. */
  lemma InsertThenScan(id: Id, input: CreateInput, now: int, seating: Seating, rows: seq<ParticipantRow>)
    requires IdsByPosition(input.sides)
    requires AllSeated(seating, input.sides) && IsListing(rows, seating)
    ensures Assembled(id, NewRow(input, now), rows) == Created(id, input, now)
    ensures var m := Assembled(id, NewRow(input, now), rows);
            && m.id == id && m.roomId == input.roomId && m.createdAt == now && m.state == Waiting
            && m.mode == input.mode && m.ranked == input.ranked && m.ruleset == input.ruleset
            && m.shotTimer == input.shotTimer && m.sides == input.sides
            && m.turn == None && m.turnStartedAt == None && m.startedAt == None && m.completedAt == None
  {
    ListingIsRoster(rows, seating, input.sides);
    RosterRowsAreTheSides(input.sides);
  }

  /** The columns of a row that the match's actor owns. */
  function ActorColumns(r: MatchRow): Actors.Row {
    Actors.Row(r.state, r.startedAt, r.completedAt, ToMatch(NIL, r).turn, r.turnStartedAt)
  }

  /** The two updates store exactly what the actor model's two writes store, and a reader of the row sees the new turn
      and every other column unchanged. */
  lemma UpdatesStoreTheActorsMemory(r: MatchRow, m: Actors.Match, turn: TurnRef, at: int)
    requires m.turn == Some(turn) && m.turnStartedAt == Some(at)
    ensures ActorColumns(WithTurn(r, turn, at)) == Actors.TurnStored(ActorColumns(r), m)
    ensures forall id, rows :: Assembled(id, WithTurn(r, turn, at), rows) ==
                               Assembled(id, r, rows).(turn := Some(turn), turnStartedAt := Some(at))
    ensures forall id, rows, state, from, til :: Assembled(id, WithState(r, state, from, til), rows) ==
                               Assembled(id, r, rows).(state := state, startedAt := from, completedAt := til)
    ensures var completedAt := if m.state.Terminal() then m.completedAt else None;
            ActorColumns(WithState(r, m.state, m.startedAt, completedAt)) ==
            Actors.StateStored(ActorColumns(r), m)
  {
  }

  /** The match an actor is started with. */
  function ForActor(m: Match): Actors.Match {
    Actors.Match(m.state, m.sides, m.turn, m.turnStartedAt, m.startedAt, m.completedAt)
  }

  /** Every match that validation lets through is one an actor can run: waiting, no turn yet, players on both sides, and
      its row saying the same. */
  lemma CreatedMatchCanRun(id: Id, input: CreateInput, now: int)
    requires Normalized(input).Ok?
    ensures var normal := Normalized(input).value;
            Actors.FreshStart(Actors.World(ForActor(Created(id, normal, now)), ActorColumns(NewRow(normal, now)),
                                           [], 0, false))
  {
  }
}
