/** From the lobby to the table: in a room that filled up without anyone leaving, play goes round in join order
    (internal/rooms/service.go, internal/rooms/model.go, internal/matches/turn.go). */
module PlayOrder {
  import opened Basics
  import Matches
  import opened Turns
  import opened Rooms

  /** The members are those who joined, in that order, and the j-th of them holds the j-th seat. */
  ghost predicate FilledInOrder(m: Rooms.Mode, ms: Members, joined: seq<Id>) {
    && ms.Keys == Elements(joined) && NoDuplicates(joined) && |joined| <= m.Capacity()
    && forall j | 0 <= j < |joined| :: joined[j] in ms && ms[joined[j]].seat == m.SeatOrder()[j]
  }

  predicate IsJoin(op: Op) {
    op.Join? || op.JoinByCode?
  }

  /** Everyone who has joined after a further transaction. */
  ghost function JoinedBy(l: Lobby, op: Op, joined: seq<Id>): seq<Id> {
    if IsJoin(op) && Apply(l, op).1 == Ok then joined + [op.user] else joined
  }

  lemma {:induction false} FirstFreeSkips(order: seq<Seat>, ms: Members, n: nat)
    requires n <= |order| && (forall j | 0 <= j < n :: Taken(ms, order[j])) && (n < |order| ==> !Taken(ms, order[n]))
    ensures FirstFree(order, ms) == if n < |order| then Some(order[n]) else None
    decreases n
  {
    if n > 0 {
      FirstFreeSkips(order[1..], ms, n - 1);
    }
  }

  /** The next seat offered is the one after the last that joined. */
  lemma NextSeatInOrder(m: Rooms.Mode, ms: Members, joined: seq<Id>)
    requires FilledInOrder(m, ms, joined)
    ensures FirstFree(m.SeatOrder(), ms) ==
            if |joined| < m.Capacity() then Some(m.SeatOrder()[|joined|]) else None
  {
    var order, n := m.SeatOrder(), |joined|;
    SeatOrderAlternates(m);
    AlternatingCoversAllSeats(m.PlayersPerSide());
    forall j | 0 <= j < n ensures Taken(ms, order[j]) {
      assert ms[joined[j]].seat == order[j];
    }
    forall u | u in ms && n < m.Capacity() ensures ms[u].seat != order[n] {
      assert u in Elements(joined);
      var j :| 0 <= j < n && joined[j] == u;
    }
    FirstFreeSkips(order, ms, n);
  }

  lemma OneMoreSeated(m: Rooms.Mode, ms: Members, joined: seq<Id>, user: Id, at: int)
    requires FilledInOrder(m, ms, joined) && user !in ms && |joined| < m.Capacity() == |m.SeatOrder()|
    ensures FilledInOrder(m, ms[user := Member(m.SeatOrder()[|joined|], false, at)], joined + [user])
  {
    assert Elements(joined + [user]) == Elements(joined) + {user};
    assert forall j | 0 <= j < |joined| :: joined[j] in Elements(joined);
  }

  lemma SeatingContinues(l: Lobby, user: Id, at: int, joined: seq<Id>)
    requires FilledInOrder(l.room.mode, l.members, joined)
    ensures var (l', r) := SeatMember(l, user, at);
            FilledInOrder(l.room.mode, l'.members, if r == Ok then joined + [user] else joined)
  {
    NextSeatInOrder(l.room.mode, l.members, joined);
    SeatOrderAlternates(l.room.mode);
    if SeatMember(l, user, at).1 == Ok {
      OneMoreSeated(l.room.mode, l.members, joined, user, at);
    }
  }

  lemma StepContinues(l: Lobby, op: Op, joined: seq<Id>)
    requires FilledInOrder(l.room.mode, l.members, joined) && !op.Leave?
    ensures FilledInOrder(l.room.mode, Apply(l, op).0.members, JoinedBy(l, op, joined))
  {
    match op
    case Join(user, at) => SeatingContinues(l, user, at, joined);
    case JoinByCode(_, user, at) => SeatingContinues(l, user, at, joined);
    case SetReady(_, _) =>
    case Start(_, _) =>
    case Leave(_) =>
  }

  /** Any number of transactions one after another (every interleaved run is equivalent to such a sequence). */
  ghost function ApplyAll(l: Lobby, ops: seq<Op>): Lobby
    decreases |ops|
  {
    if ops == [] then l else ApplyAll(Apply(l, ops[0]).0, ops[1..])
  }

  ghost function JoinedByAll(l: Lobby, ops: seq<Op>, joined: seq<Id>): seq<Id>
    decreases |ops|
  {
    if ops == [] then joined else JoinedByAll(Apply(l, ops[0]).0, ops[1..], JoinedBy(l, ops[0], joined))
  }

  lemma {:induction false} RunContinues(l: Lobby, ops: seq<Op>, joined: seq<Id>)
    requires FilledInOrder(l.room.mode, l.members, joined) && forall i | 0 <= i < |ops| :: !ops[i].Leave?
    ensures FilledInOrder(l.room.mode, ApplyAll(l, ops).members, JoinedByAll(l, ops, joined))
    ensures ApplyAll(l, ops).room.mode == l.room.mode
    decreases |ops|
  {
    if ops != [] {
      StepContinues(l, ops[0], joined);
      ApplyNeverReopens(l, ops[0]);
      RunContinues(Apply(l, ops[0]).0, ops[1..], JoinedBy(l, ops[0], joined));
    }
  }

  /** Whoever the turn names in the match made from these rows is the player who joined in that position. */
  lemma TurnNamesJoiner(m: Rooms.Mode, ms: Members, joined: seq<Id>, sides: Matches.Sides, k: nat)
    requires FilledInOrder(m, ms, joined) && |joined| == m.Capacity()
    requires EvenSides(sides, m.PlayersPerSide()) && KeepsSeats(ms, sides)
    ensures var turn := TurnAfter(sides, k);
            && 0 <= turn.side < 2 && 0 <= turn.playerIdx < |sides[turn.side].players|
            && sides[turn.side].players[turn.playerIdx] == joined[k % m.Capacity()]
  {
    SeatOrderAlternates(m);
    TurnsFollowSeats(sides, m.PlayersPerSide(), k);
    var u := joined[k % m.Capacity()];
    assert u in ms && ms[u].seat == m.SeatOrder()[k % m.Capacity()];
  }

  /** A room made by `host`, filled and readied by any transactions in any order but Leave, and then started: the
      match's turn after k timeouts belongs to the player who joined (k mod capacity)-th. */
  lemma PlaysInJoinOrder(l: Lobby, host: Id, at: int, ops: seq<Op>, user: Id, id: Id, k: nat)
    requires l.members == map[host := Member(l.room.mode.SeatOrder()[0], false, at)]
    requires forall i | 0 <= i < |ops| :: !ops[i].Leave?
    requires Apply(ApplyAll(l, ops), Start(user, id)).1 == Ok
    ensures var sides := Apply(ApplyAll(l, ops), Start(user, id)).0.matches[|ApplyAll(l, ops).matches|].input.sides;
            var joined := JoinedByAll(l, ops, [host]);
            && |joined| == l.room.mode.Capacity() && BothSidesPlay(sides)
            && var turn := TurnAfter(sides, k);
               && 0 <= turn.side < 2 && 0 <= turn.playerIdx < |sides[turn.side].players|
               && sides[turn.side].players[turn.playerIdx] == joined[k % l.room.mode.Capacity()]
  {
    assert Elements([host]) == {host};
    RunContinues(l, ops, [host]);
    var full, joined := ApplyAll(l, ops), JoinedByAll(l, ops, [host]);
    DistinctSize(joined);
    StartedSidesKeepSeats(full, joined, user, id);
    TurnNamesJoiner(l.room.mode, full.members, joined, MatchInput(full.room, full.members).sides, k);
  }

  lemma DistinctSeatsAreKept(r: Room, ms: Members)
    requires DistinctSeats(ms) && forall u :: u in ms ==> ms[u].seat in AllSeats(r.mode.PlayersPerSide())
    ensures KeepsSeats(ms, MatchInput(r, ms).sides)
  {
    forall u | u in ms ensures PlayerAt(ms, ms[u].seat) == u {
      PlayerAtTakenSeat(ms, ms[u].seat);
    }
  }

  lemma SeatsInOrderAreKept(r: Room, ms: Members, joined: seq<Id>)
    requires FilledInOrder(r.mode, ms, joined)
    ensures KeepsSeats(ms, MatchInput(r, ms).sides)
  {
    var p := r.mode.PlayersPerSide();
    SeatOrderAlternates(r.mode);
    forall u | u in ms ensures ms[u].seat in AllSeats(p) {
      OwnSeat(r.mode, ms, joined, u);
      assert ms[u].seat in Elements(r.mode.SeatOrder());
    }
    forall u, v | u in ms && v in ms && ms[u].seat == ms[v].seat ensures u == v {
      AlternatingCoversAllSeats(p);
      OwnSeat(r.mode, ms, joined, u);
      OwnSeat(r.mode, ms, joined, v);
    }
    DistinctSeatsAreKept(r, ms);
  }

  /** A member's seat says when they joined. */
  lemma OwnSeat(m: Rooms.Mode, ms: Members, joined: seq<Id>, u: Id)
    requires FilledInOrder(m, ms, joined) && u in ms && |m.SeatOrder()| == m.Capacity()
    ensures exists j :: 0 <= j < |joined| && joined[j] == u && ms[u].seat == m.SeatOrder()[j]
    ensures ms[u].seat in m.SeatOrder()
  {
    assert u in Elements(joined);
    var j :| 0 <= j < |joined| && joined[j] == u;
    assert ms[joined[j]].seat == m.SeatOrder()[j];
  }

  lemma StartedInput(l: Lobby, user: Id, id: Id)
    requires Apply(l, Start(user, id)).1 == Ok
    ensures Apply(l, Start(user, id)).0.matches[|l.matches|].input.sides == MatchInput(l.room, l.members).sides
    ensures |l.members| == l.room.mode.Capacity()
  {
  }

  lemma StartedSidesKeepSeats(l: Lobby, joined: seq<Id>, user: Id, id: Id)
    requires FilledInOrder(l.room.mode, l.members, joined) && |joined| == |l.members|
    requires Apply(l, Start(user, id)).1 == Ok
    ensures var sides := MatchInput(l.room, l.members).sides;
            && Apply(l, Start(user, id)).0.matches[|l.matches|].input.sides == sides
            && |joined| == l.room.mode.Capacity()
            && EvenSides(sides, l.room.mode.PlayersPerSide()) && KeepsSeats(l.members, sides)
  {
    StartedInput(l, user, id);
    SeatsInOrderAreKept(l.room, l.members, joined);
  }
}
