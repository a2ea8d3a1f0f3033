/** The lobby feature (internal/rooms): one room, its member rows and the matches it has produced, and what each
    transaction does to them when it runs alone. The interleaved transactions are in RoomSchedule.dfy. */
module Rooms {
  import opened Basics
  import Matches
  import opened Turns

  // ---------------------------------------------------------------- model.go

  /** Strings in the source; `Create` admits only the named values. */
  datatype Visibility = Public | Private | OtherVisibility(text: string)

  datatype Mode = Mode1v1 | Mode2v2 | OtherMode(text: string) {
    predicate Valid() { Mode1v1? || Mode2v2? }
    function PlayersPerSide(): (p: nat)
      ensures p >= 1
    { if Mode2v2? then 2 else 1 }
    function Capacity(): nat { 2 * PlayersPerSide() }

    function SeatOrder(): seq<Seat> {
      if Mode2v2? then [Seat(0, 0), Seat(1, 0), Seat(0, 1), Seat(1, 1)] else [Seat(0, 0), Seat(1, 0)]
    }

    function ToMatchMode(): Matches.Mode {
      if Mode2v2? then Matches.Mode2v2 else Matches.Mode1v1
    }
  }

  /** The two written-out orders are instances of one alternating order. */
  lemma SeatOrderAlternates(m: Mode)
    ensures m.SeatOrder() == Alternating(m.PlayersPerSide())
    ensures |m.SeatOrder()| == m.Capacity() == |AllSeats(m.PlayersPerSide())|
    ensures Elements(m.SeatOrder()) == AllSeats(m.PlayersPerSide())
  {
    assert m.SeatOrder() == Alternating(m.PlayersPerSide());
    AlternatingCoversAllSeats(m.PlayersPerSide());
  }

  datatype State = Open | Closed

  datatype Room = Room(id: Id, visibility: Visibility, mode: Mode, ranked: bool, ruleset: Matches.Ruleset,
                       shotTimer: int, wager: int, spectators: bool, state: State, host: Id, joinCode: Option<string>)

  /** A row of room_members; its key is the user. */
  datatype Member = Member(seat: Seat, ready: bool, joinedAt: int)
  type Members = map<Id, Member>

  datatype Match = Match(id: Id, input: Matches.CreateInput)

  /** One room and every row that belongs to it. */
  datatype Lobby = Lobby(room: Room, members: Members, matches: seq<Match>)

  datatype Outcome =
    | Ok
    | ErrNotFound | ErrWrongJoinPath | ErrRoomClosed | ErrAlreadyMember | ErrRoomFull | ErrNotMember
    | ErrInvalidJoinCode
    | ErrNotHost | ErrRoomNotFull | ErrNotAllReady | ErrSeatOutOfRange | ErrMatch(error: Matches.Error)

  // ---------------------------------------------------------------- service.go, each transaction alone

  /** A request, with what the environment contributes: the clock reading of an insert, the id of a new match. */
  datatype Op =
    | Join(user: Id, at: int)
    | JoinByCode(code: string, user: Id, at: int)
    | Leave(user: Id)
    | SetReady(user: Id, ready: bool)
    | Start(user: Id, matchId: Id)

  ghost predicate Taken(ms: Members, seat: Seat) {
    exists u :: u in ms && ms[u].seat == seat
  }

  ghost function FirstFree(order: seq<Seat>, ms: Members): Option<Seat> {
    if order == [] then None
    else if Taken(ms, order[0]) then FirstFree(order[1..], ms)
    else Some(order[0])
  }

  ghost function SeatMember(l: Lobby, user: Id, at: int): (Lobby, Outcome) {
    if l.room.state != Open then (l, ErrRoomClosed)
    else if user in l.members then (l, ErrAlreadyMember)
    else match FirstFree(l.room.mode.SeatOrder(), l.members)
      case None => (l, ErrRoomFull)
      case Some(seat) => (l.(members := l.members[user := Member(seat, false, at)]), Ok)
  }

  /** `u` joined first; equal clock readings would be settled by the order the rows are read in. */
  predicate Earlier(ms: Members, u: Id, v: Id)
    requires u in ms && v in ms
  {
    ms[u].joinedAt < ms[v].joinedAt || (ms[u].joinedAt == ms[v].joinedAt && SeatBefore(ms[u].seat, ms[v].seat))
  }

  ghost predicate IsHeir(ms: Members, u: Id) {
    u in ms && forall v :: v in ms && v != u ==> Earlier(ms, u, v)
  }

  /** The earliest-joined of the members left behind. */
  ghost function Heir(ms: Members): Id {
    if exists u: Id :: IsHeir(ms, u) then var u: Id :| IsHeir(ms, u); u else NIL
  }

  ghost function LeaveRoom(l: Lobby, user: Id): (Lobby, Outcome) {
    if user !in l.members then (l, ErrNotMember)
    else
      var rest := l.members - {user};
      if rest == map[] then (l.(members := rest, room := l.room.(state := Closed)), Ok)
      else if l.room.host != user then (l.(members := rest), Ok)
      else (l.(members := rest, room := l.room.(host := Heir(rest))), Ok)
  }

  function MarkReady(ms: Members, user: Id, ready: bool): Members {
    if user in ms then ms[user := ms[user].(ready := ready)] else ms
  }

  /** The player a row puts in a seat, or the nil id a freshly made slice holds there. */
  ghost function PlayerAt(ms: Members, seat: Seat): Id {
    if Taken(ms, seat) then var u :| u in ms && ms[u].seat == seat; u else NIL
  }

  ghost function SideOf(ms: Members, perSide: nat, side: int): Matches.Side {
    Matches.Side(side, seq(perSide, k => PlayerAt(ms, Seat(side, k))))
  }

  ghost predicate InRange(perSide: nat, seat: Seat) {
    0 <= seat.side <= 1 && 0 <= seat.slot < perSide
  }

  ghost function MatchInput(r: Room, ms: Members): Matches.CreateInput {
    var p := r.mode.PlayersPerSide();
    Matches.CreateInput(r.id, r.mode.ToMatchMode(), r.ranked, r.ruleset, r.shotTimer,
                        [SideOf(ms, p, 0), SideOf(ms, p, 1)])
  }

  /** Start's decision, from the room row and the member rows it reads. */
  ghost function StartDecision(r: Room, ms: Members, user: Id): (Outcome, Option<Matches.CreateInput>) {
    if r.host != user then (ErrNotHost, None)
    else if r.state != Open then (ErrRoomClosed, None)
    else if |ms| != r.mode.Capacity() then (ErrRoomNotFull, None)
    else if exists u :: u in ms && !ms[u].ready then (ErrNotAllReady, None)
    else if exists u :: u in ms && !InRange(r.mode.PlayersPerSide(), ms[u].seat) then (ErrSeatOutOfRange, None)
    else match Matches.Normalized(MatchInput(r, ms))
      case Err(e) => (ErrMatch(e), None)
      case Ok(input) => (Ok, Some(input))
  }

  /** The two writes of a successful Start: the match row and the closed room. */
  function WithMatch(l: Lobby, m: Match): Lobby {
    l.(room := l.room.(state := Closed), matches := l.matches + [m])
  }

  ghost function Apply(l: Lobby, op: Op): (Lobby, Outcome) {
    match op
    case Join(user, at) =>
      if l.room.visibility != Public then (l, ErrWrongJoinPath) else SeatMember(l, user, at)
    case JoinByCode(code, user, at) =>
      if l.room.joinCode != Some(code) || l.room.state != Open then (l, ErrInvalidJoinCode) else SeatMember(l, user, at)
    case Leave(user) => LeaveRoom(l, user)
    case SetReady(user, ready) =>
      if user in l.members then (l.(members := MarkReady(l.members, user, ready)), Ok) else (l, ErrNotMember)
    case Start(user, id) =>
      var (r, input) := StartDecision(l.room, l.members, user);
      if input.None? then (l, r) else (WithMatch(l, Match(id, input.value)), Ok)
  }

  // ---------------------------------------------------------------- what every transaction keeps

  ghost predicate DistinctSeats(ms: Members) {
    forall u, v | u in ms && v in ms && ms[u].seat == ms[v].seat :: u == v
  }

  ghost predicate SeatsAllowed(m: Mode, ms: Members) {
    forall u :: u in ms ==> ms[u].seat in m.SeatOrder()
  }

  ghost predicate DistinctTimes(ms: Members, now: int) {
    && (forall u :: u in ms ==> ms[u].joinedAt < now)
    && (forall u, v | u in ms && v in ms && ms[u].joinedAt == ms[v].joinedAt :: u == v)
  }

  /** The host is the member who has been seated longest. */
  ghost predicate HostLongestSeated(l: Lobby) {
    l.members != map[] ==>
      l.room.host in l.members &&
      forall v :: v in l.members ==> l.members[l.room.host].joinedAt <= l.members[v].joinedAt
  }

  ghost predicate Configured(r: Room) {
    && r.mode.Valid() && r.ruleset == Matches.EightBall && r.shotTimer > 0
    && (r.visibility == Private ==> r.joinCode.Some?)
    && (r.visibility == Public ==> r.joinCode == None)
  }

  /** The invariant of a room; `now` is later than every join so far. */
  ghost predicate LobbyOk(l: Lobby, now: int) {
    && Configured(l.room)
    && NIL !in l.members
    && SeatsAllowed(l.room.mode, l.members)
    && DistinctSeats(l.members)
    && DistinctTimes(l.members, now)
    && HostLongestSeated(l)
    && (l.room.state == Open ==> l.members != map[])
    && |l.matches| <= 1
    && (l.matches != [] ==> l.room.state == Closed)
  }

  lemma {:induction false} FirstFreeIsFree(order: seq<Seat>, ms: Members)
    ensures FirstFree(order, ms).Some? ==> FirstFree(order, ms).value in order && !Taken(ms, FirstFree(order, ms).value)
    ensures FirstFree(order, ms).None? <==> forall seat :: seat in order ==> Taken(ms, seat)
  {
    if order != [] {
      FirstFreeIsFree(order[1..], ms);
    }
  }

  /** The seats in use number as many as the members. */
  ghost function SeatsTaken(ms: Members): set<Seat> {
    set u | u in ms :: ms[u].seat
  }

  lemma SeatsTakenSize(ms: Members)
    requires DistinctSeats(ms)
    ensures |SeatsTaken(ms)| == |ms|
  {
    var f := u requires u in ms => ms[u].seat;
    assert Image(f, ms.Keys) == SeatsTaken(ms);
    ImageSize(f, ms.Keys);
  }

  /** By pigeonhole, a room whose member count is its capacity has every seat taken, and no other room has. */
  lemma FullIffEverySeatTaken(m: Mode, ms: Members)
    requires DistinctSeats(ms) && SeatsAllowed(m, ms)
    ensures |ms| <= m.Capacity()
    ensures |ms| == m.Capacity() <==> forall seat :: seat in m.SeatOrder() ==> Taken(ms, seat)
  {
    SeatsTakenSize(ms);
    SeatOrderAlternates(m);
    var all := AllSeats(m.PlayersPerSide());
    SubsetSize(SeatsTaken(ms), all);
    if |ms| == m.Capacity() {
      forall seat | seat in m.SeatOrder() ensures Taken(ms, seat) {
        assert seat in all;
      }
    }
    if forall seat :: seat in m.SeatOrder() ==> Taken(ms, seat) {
      assert SeatsTaken(ms) == all;
    }
  }

  /** Some member joined before all others. */
  lemma {:induction false} HeirExists(ms: Members, now: int)
    requires ms != map[] && DistinctTimes(ms, now)
    ensures exists u :: IsHeir(ms, u)
    decreases |ms|
  {
    var u :| u in ms;
    var rest := ms - {u};
    assert forall v :: v in rest ==> rest[v] == ms[v];
    if rest != map[] {
      HeirExists(rest, now);
      var w :| IsHeir(rest, w);
      HeirOfMore(ms, u, w, now);
    } else {
      assert ms.Keys == rest.Keys + {u};
      assert IsHeir(ms, u);
    }
  }

  /** Of a newcomer and the heir of the rest, the one who joined first is the heir of all. */
  lemma HeirOfMore(ms: Members, u: Id, w: Id, now: int)
    requires DistinctTimes(ms, now) && u in ms && IsHeir(ms - {u}, w)
    ensures IsHeir(ms, if ms[u].joinedAt < ms[w].joinedAt then u else w)
  {
    var rest := ms - {u};
    var x := if ms[u].joinedAt < ms[w].joinedAt then u else w;
    forall v | v in ms && v != x ensures Earlier(ms, x, v) {
      if v != u && v != w {
        assert Earlier(rest, w, v);
      }
    }
  }

  lemma LaterOk(l: Lobby, now: int, later: int)
    requires LobbyOk(l, now) && now <= later
    ensures LobbyOk(l, later)
  {
  }

  ghost predicate StampedAt(op: Op, now: int) {
    op.Join? || op.JoinByCode? ==> op.at >= now
  }

  ghost function NextTick(op: Op, now: int): int {
    if op.Join? || op.JoinByCode? then op.at + 1 else now
  }

  lemma InsertKeepsRows(m: Mode, ms: Members, user: Id, seat: Seat, at: int, now: int)
    requires SeatsAllowed(m, ms) && DistinctSeats(ms) && DistinctTimes(ms, now)
    requires user !in ms && seat in m.SeatOrder() && !Taken(ms, seat) && at >= now
    ensures var ms' := ms[user := Member(seat, false, at)];
            SeatsAllowed(m, ms') && DistinctSeats(ms') && DistinctTimes(ms', at + 1)
  {
    var ms' := ms[user := Member(seat, false, at)];
    assert forall u :: u in ms ==> ms'[u] == ms[u] && ms[u].seat != seat;
  }

  lemma SeatMemberKeeps(l: Lobby, user: Id, at: int, now: int)
    requires LobbyOk(l, now) && at >= now && user != NIL
    ensures LobbyOk(SeatMember(l, user, at).0, at + 1)
  {
    var order := l.room.mode.SeatOrder();
    FirstFreeIsFree(order, l.members);
    if l.room.state == Open && user !in l.members && FirstFree(order, l.members).Some? {
      InsertKeepsRows(l.room.mode, l.members, user, FirstFree(order, l.members).value, at, now);
      var l' := SeatMember(l, user, at).0;
      assert l'.members[l.room.host] == l.members[l.room.host];
      assert HostLongestSeated(l');
    }
  }

  lemma RemoveKeepsRows(m: Mode, ms: Members, user: Id, now: int)
    requires NIL !in ms && SeatsAllowed(m, ms) && DistinctSeats(ms) && DistinctTimes(ms, now)
    ensures var rest := ms - {user};
            NIL !in rest && SeatsAllowed(m, rest) && DistinctSeats(rest) && DistinctTimes(rest, now)
  {
    var rest := ms - {user};
    assert forall v :: v in rest ==> v in ms && rest[v] == ms[v];
  }

  /** The rows a leaver leaves behind, with the room as the leaver leaves it. */
  lemma RemainingOk(l: Lobby, user: Id, host: Id, now: int)
    requires LobbyOk(l, now) && l.members - {user} != map[]
    requires if l.room.host == user then IsHeir(l.members - {user}, host) else host == l.room.host
    ensures LobbyOk(l.(members := l.members - {user}, room := l.room.(host := host)), now)
  {
    var rest := l.members - {user};
    RemoveKeepsRows(l.room.mode, l.members, user, now);
    forall v | v in rest ensures host in rest && rest[host].joinedAt <= rest[v].joinedAt {
      if l.room.host == user && v != host { assert Earlier(rest, host, v); }
    }
  }

  lemma EmptiedOk(l: Lobby, user: Id, now: int)
    requires LobbyOk(l, now) && l.members - {user} == map[]
    ensures LobbyOk(l.(members := l.members - {user}, room := l.room.(state := Closed)), now)
  {
  }

  lemma LeaveKeeps(l: Lobby, user: Id, now: int)
    requires LobbyOk(l, now)
    ensures LobbyOk(LeaveRoom(l, user).0, now)
  {
    if user in l.members {
      var rest := l.members - {user};
      if rest == map[] {
        EmptiedOk(l, user, now);
      } else if l.room.host == user {
        RemoveKeepsRows(l.room.mode, l.members, user, now);
        HeirExists(rest, now);
        RemainingOk(l, user, Heir(rest), now);
      } else {
        RemainingOk(l, user, l.room.host, now);
        assert l.room.(host := l.room.host) == l.room;
      }
    }
  }

  lemma WithMatchKeeps(l: Lobby, m: Match, now: int)
    requires LobbyOk(l, now) && l.room.state == Open
    ensures LobbyOk(WithMatch(l, m), now)
  {
  }

  lemma StartLaunches(l: Lobby, user: Id, id: Id)
    ensures var l' := Apply(l, Start(user, id)).0;
            l' == l || (l.room.state == Open && exists m :: l' == WithMatch(l, m))
  {
    var (r, input) := StartDecision(l.room, l.members, user);
    assert input.Some? ==> l.room.state == Open;
  }

  lemma StartKeeps(l: Lobby, user: Id, id: Id, now: int)
    requires LobbyOk(l, now)
    ensures LobbyOk(Apply(l, Start(user, id)).0, now)
  {
    StartLaunches(l, user, id);
    var l' := Apply(l, Start(user, id)).0;
    if l' != l {
      var m :| l' == WithMatch(l, m);
      WithMatchKeeps(l, m, now);
    }
  }

  lemma ReadyKeeps(l: Lobby, user: Id, ready: bool, now: int)
    requires LobbyOk(l, now)
    ensures LobbyOk(l.(members := MarkReady(l.members, user, ready)), now)
  {
    var ms := MarkReady(l.members, user, ready);
    assert forall u :: u in ms ==> u in l.members && ms[u].seat == l.members[u].seat
                                   && ms[u].joinedAt == l.members[u].joinedAt;
    assert ms.Keys == l.members.Keys;
  }

  lemma JoinKeeps(l: Lobby, op: Op, now: int)
    requires LobbyOk(l, now) && (op.Join? || op.JoinByCode?) && op.at >= now && op.user != NIL
    ensures LobbyOk(Apply(l, op).0, op.at + 1)
  {
    SeatMemberKeeps(l, op.user, op.at, now);
    LaterOk(l, now, op.at + 1);
  }

  /** Every transaction keeps the invariant, never reopens a closed room, and never changes what was configured. */
  lemma ApplyKeeps(l: Lobby, op: Op, now: int)
    requires LobbyOk(l, now) && StampedAt(op, now) && op.user != NIL
    ensures LobbyOk(Apply(l, op).0, NextTick(op, now))
  {
    if op.Join? || op.JoinByCode? {
      JoinKeeps(l, op, now);
    } else if op.Leave? {
      LeaveKeeps(l, op.user, now);
    } else if op.SetReady? {
      ReadyKeeps(l, op.user, op.ready, now);
    } else {
      StartKeeps(l, op.user, op.matchId, now);
    }
  }

  /** Closed rooms stay closed, matches are only ever added, and what was configured never changes. */
  lemma ApplyNeverReopens(l: Lobby, op: Op)
    ensures l.room.state == Closed ==> Apply(l, op).0.room.state == Closed
    ensures Apply(l, op).0.room == l.room.(state := Apply(l, op).0.room.state, host := Apply(l, op).0.room.host)
    ensures l.matches <= Apply(l, op).0.matches
  {
  }

  /** A full, ready, open room always starts: the sides its rows give pass the match feature's own validation, and
      every member keeps the side and slot held in the room. */
  lemma FullRoomStarts(l: Lobby, now: int)
    requires LobbyOk(l, now) && l.room.state == Open && |l.members| == l.room.mode.Capacity()
    requires forall u :: u in l.members ==> l.members[u].ready
    ensures StartDecision(l.room, l.members, l.room.host) == (Ok, Some(MatchInput(l.room, l.members)))
    ensures KeepsSeats(l.members, MatchInput(l.room, l.members).sides)
  {
    FullRoomSeats(l.room.mode, l.members);
    MatchInputNormal(l.room, l.members);
  }

  lemma FullRoomSeats(m: Mode, ms: Members)
    requires NIL !in ms && DistinctSeats(ms) && SeatsAllowed(m, ms) && |ms| == m.Capacity()
    ensures var p := m.PlayersPerSide(); var sides := [SideOf(ms, p, 0), SideOf(ms, p, 1)];
            Matches.WellSeated(sides, p) && KeepsSeats(ms, sides)
    ensures forall u :: u in ms ==> InRange(m.PlayersPerSide(), ms[u].seat)
  {
    var p := m.PlayersPerSide();
    SeatOrderAlternates(m);
    FullIffEverySeatTaken(m, ms);
    forall u | u in ms ensures ms[u].seat in AllSeats(p) {
      assert ms[u].seat in m.SeatOrder();
    }
    forall seat | seat in AllSeats(p) ensures Taken(ms, seat) {
      assert seat in m.SeatOrder();
    }
    FullSidesAreWellSeated(ms, p);
  }

  lemma MatchInputNormal(r: Room, ms: Members)
    requires Configured(r) && Matches.WellSeated(MatchInput(r, ms).sides, r.mode.PlayersPerSide())
    ensures Matches.Normalized(MatchInput(r, ms)) == Matches.Result.Ok(MatchInput(r, ms))
  {
  }

  ghost predicate KeepsSeats(ms: Members, sides: Matches.Sides) {
    forall u :: u in ms ==>
      && 0 <= ms[u].seat.side <= 1
      && 0 <= ms[u].seat.slot < |sides[ms[u].seat.side].players|
      && sides[ms[u].seat.side].players[ms[u].seat.slot] == u
  }

  lemma PlayerAtTakenSeat(ms: Members, seat: Seat)
    requires Taken(ms, seat)
    ensures PlayerAt(ms, seat) in ms && ms[PlayerAt(ms, seat)].seat == seat
  {
  }

  /** Where the n-th player of the roster sits. */
  function RosterSeat(perSide: nat, n: nat): Seat {
    if n < perSide then Seat(0, n) else Seat(1, n - perSide)
  }

  /** For any number of players a side: when every seat is taken once, the sides are full and nobody sits twice. */
  lemma FullSidesAreWellSeated(ms: Members, perSide: nat)
    requires NIL !in ms && DistinctSeats(ms)
    requires forall u :: u in ms ==> ms[u].seat in AllSeats(perSide)
    requires forall seat :: seat in AllSeats(perSide) ==> Taken(ms, seat)
    ensures Matches.WellSeated([SideOf(ms, perSide, 0), SideOf(ms, perSide, 1)], perSide)
    ensures KeepsSeats(ms, [SideOf(ms, perSide, 0), SideOf(ms, perSide, 1)])
  {
    var sides: Matches.Sides := [SideOf(ms, perSide, 0), SideOf(ms, perSide, 1)];
    var roster := Matches.Roster(sides);
    forall n | 0 <= n < |roster|
      ensures roster[n] in ms && ms[roster[n]].seat == RosterSeat(perSide, n)
    {
      var seat := RosterSeat(perSide, n);
      assert seat in AllSeats(perSide);
      assert roster[n] == PlayerAt(ms, seat);
      PlayerAtTakenSeat(ms, seat);
    }
    assert NoDuplicates(roster) && NIL !in roster;
    forall u | u in ms
      ensures sides[ms[u].seat.side].players[ms[u].seat.slot] == u
    {
      assert ms[u].seat in AllSeats(perSide);
      PlayerAtTakenSeat(ms, ms[u].seat);
    }
  }
}
