/** Every room transaction's answers and effects (internal/rooms/service.go), in terms of the room's own columns and
    rows and of nothing the transactions are defined by. */
module RoomAnswers {
  import opened Basics
  import Matches
  import opened Turns
  import opened Rooms

  /** The four facts a Start needs. */
  ghost predicate MayStart(l: Lobby, user: Id) {
    && l.room.host == user
    && l.room.state == Open
    && |l.members| == (if l.room.mode == Mode2v2 then 4 else 2)
    && AllReady(l.members)
  }

  ghost predicate AllReady(ms: Members) { forall u :: u in ms ==> ms[u].ready }

  /** Whatever the room's rows are, a Start that is answered Ok found the four facts. */
  lemma StartOkMeans(l: Lobby, user: Id, id: Id)
    ensures Apply(l, Start(user, id)).1 == Ok ==> MayStart(l, user)
  {
  }

  lemma StartRefused(l: Lobby, user: Id, id: Id)
    requires !MayStart(l, user)
    ensures Apply(l, Start(user, id)) ==
            (l, if l.room.host != user then ErrNotHost
                else if l.room.state == Closed then ErrRoomClosed
                else if |l.members| != (if l.room.mode == Mode2v2 then 4 else 2) then ErrRoomNotFull
                else ErrNotAllReady)
  {
  }

  lemma StartApplies(l: Lobby, user: Id, id: Id, input: Matches.CreateInput)
    requires StartDecision(l.room, l.members, user) == (Ok, Some(input))
    ensures Apply(l, Start(user, id)) == (WithMatch(l, Match(id, input)), Ok)
  {
  }

  lemma StartGranted(l: Lobby, user: Id, id: Id, now: int)
    requires LobbyOk(l, now) && MayStart(l, user)
    ensures Apply(l, Start(user, id)) == (WithMatch(l, Match(id, MatchInput(l.room, l.members))), Ok)
  {
    FullRoomStarts(l, now);
    StartApplies(l, user, id, MatchInput(l.room, l.members));
  }

  /** Each answer of Start, exactly. */
  lemma StartAnswersIff(l: Lobby, user: Id, id: Id, now: int)
    requires LobbyOk(l, now)
    ensures var r := Apply(l, Start(user, id)).1;
            var hosts, open := l.room.host == user, l.room.state == Open;
            var full := |l.members| == (if l.room.mode == Mode2v2 then 4 else 2);
            var ready := AllReady(l.members);
            && (r == Ok <==> hosts && open && full && ready)
            && (r == ErrNotHost <==> !hosts)
            && (r == ErrRoomClosed <==> hosts && !open)
            && (r == ErrRoomNotFull <==> hosts && open && !full)
            && (r == ErrNotAllReady <==> hosts && open && full && !ready)
  {
    if MayStart(l, user) { StartGranted(l, user, id, now); } else { StartRefused(l, user, id); }
  }

  /** Both sides of a match's input, as the rows seat them: everyone at the side and slot of the row, every slot the
      mode has taken by a member. */
  ghost predicate SeatedAs(ms: Members, sides: Matches.Sides, perSide: nat) {
    && sides[0].id == 0 && sides[1].id == 1
    && |sides[0].players| == |sides[1].players| == perSide
    && (forall u :: u in ms ==> 0 <= ms[u].seat.side <= 1 && 0 <= ms[u].seat.slot < perSide)
    && (forall u :: u in ms ==> sides[ms[u].seat.side].players[ms[u].seat.slot] == u)
    && (forall k | 0 <= k < perSide :: Holds(ms, sides[0].players[k], 0, k) && Holds(ms, sides[1].players[k], 1, k))
  }

  predicate Holds(ms: Members, u: Id, side: int, slot: int) {
    u in ms && ms[u].seat == Seat(side, slot)
  }

  lemma SlotHoldsMember(m: Mode, ms: Members, side: int, slot: nat)
    requires DistinctSeats(ms) && SeatsAllowed(m, ms) && |ms| == m.Capacity()
    requires 0 <= side <= 1 && slot < m.PlayersPerSide()
    ensures Holds(ms, SideOf(ms, m.PlayersPerSide(), side).players[slot], side, slot)
  {
    FullIffEverySeatTaken(m, ms);
    SeatOrderAlternates(m);
    assert Seat(side, slot) in AllSeats(m.PlayersPerSide());
    assert Seat(side, slot) in m.SeatOrder();
    PlayerAtTakenSeat(ms, Seat(side, slot));
  }

  lemma FullRoomSeatedAs(m: Mode, ms: Members)
    requires NIL !in ms && DistinctSeats(ms) && SeatsAllowed(m, ms) && |ms| == m.Capacity()
    ensures SeatedAs(ms, [SideOf(ms, m.PlayersPerSide(), 0), SideOf(ms, m.PlayersPerSide(), 1)], m.PlayersPerSide())
  {
    var p := m.PlayersPerSide();
    var sides: Matches.Sides := [SideOf(ms, p, 0), SideOf(ms, p, 1)];
    FullRoomSeats(m, ms);
    forall k | 0 <= k < p ensures Holds(ms, sides[0].players[k], 0, k) && Holds(ms, sides[1].players[k], 1, k) {
      SlotHoldsMember(m, ms, 0, k);
      SlotHoldsMember(m, ms, 1, k);
    }
  }

  /** What a match takes over from its room. */
  ghost predicate FromRoom(l: Lobby, input: Matches.CreateInput) {
    && input.roomId == l.room.id
    && input.mode == (if l.room.mode == Mode2v2 then Matches.Mode2v2 else Matches.Mode1v1)
    && input.ranked == l.room.ranked
    && input.ruleset == l.room.ruleset
    && input.shotTimer == l.room.shotTimer
    && SeatedAs(l.members, input.sides, if l.room.mode == Mode2v2 then 2 else 1)
  }

  /** What Start does: refused, nothing; answered Ok, the room is closed and one match row is added, which has the
      room's id, mode, ranked flag, ruleset and timer and its members where they sit. */
  lemma StartEffect(l: Lobby, user: Id, id: Id, now: int)
    requires LobbyOk(l, now)
    ensures var (l', r) := Apply(l, Start(user, id));
            && (r != Ok ==> l' == l)
            && (r == Ok ==>
                  && l'.room == l.room.(state := Closed)
                  && l'.members == l.members
                  && |l'.matches| == |l.matches| + 1
                  && l'.matches[..|l.matches|] == l.matches
                  && l'.matches[|l.matches|].id == id && FromRoom(l, l'.matches[|l.matches|].input))
  {
    if MayStart(l, user) {
      StartGranted(l, user, id, now);
      FullRoomSeatedAs(l.room.mode, l.members);
    } else {
      StartRefused(l, user, id);
    }
  }

  /** The newcomer of `l'` sits in the first seat, in the room's seat order, that no row of `l` occupies. */
  ghost predicate Seated(l: Lobby, l': Lobby, user: Id, at: int) {
    var order := if l.room.mode == Mode2v2 then [Seat(0, 0), Seat(1, 0), Seat(0, 1), Seat(1, 1)]
                 else [Seat(0, 0), Seat(1, 0)];
    && l'.room == l.room && l'.matches == l.matches
    && exists i | 0 <= i < |order| ::
         && l'.members == l.members[user := Member(order[i], false, at)]
         && (forall u :: u in l.members ==> l.members[u].seat != order[i])
         && (forall j | 0 <= j < i :: Taken(l.members, order[j]))
  }

  lemma {:induction false} FirstFreeIndex(order: seq<Seat>, ms: Members) returns (i: nat)
    requires FirstFree(order, ms).Some?
    ensures i < |order| && order[i] == FirstFree(order, ms).value && !Taken(ms, order[i])
    ensures forall j | 0 <= j < i :: Taken(ms, order[j])
  {
    if Taken(ms, order[0]) {
      var k := FirstFreeIndex(order[1..], ms);
      i := k + 1;
      forall j | 0 <= j < i ensures Taken(ms, order[j]) {
        if j > 0 { assert order[j] == order[1..][j - 1]; }
      }
    } else {
      i := 0;
    }
  }

  lemma SeatToGive(l: Lobby, now: int) returns (i: nat)
    requires LobbyOk(l, now) && |l.members| != (if l.room.mode == Mode2v2 then 4 else 2)
    ensures i < |l.room.mode.SeatOrder()|
    ensures FirstFree(l.room.mode.SeatOrder(), l.members) == Some(l.room.mode.SeatOrder()[i])
    ensures !Taken(l.members, l.room.mode.SeatOrder()[i])
    ensures forall j | 0 <= j < i :: Taken(l.members, l.room.mode.SeatOrder()[j])
  {
    FirstFreeIsFree(l.room.mode.SeatOrder(), l.members);
    FullIffEverySeatTaken(l.room.mode, l.members);
    i := FirstFreeIndex(l.room.mode.SeatOrder(), l.members);
  }

  lemma SeatMemberSeats(l: Lobby, user: Id, at: int, now: int)
    requires LobbyOk(l, now) && l.room.state == Open && user !in l.members
    requires |l.members| != (if l.room.mode == Mode2v2 then 4 else 2)
    ensures SeatMember(l, user, at).1 == Ok && Seated(l, SeatMember(l, user, at).0, user, at)
  {
    var i := SeatToGive(l, now);
  }

  lemma SeatMemberRefuses(l: Lobby, user: Id, at: int, now: int)
    requires LobbyOk(l, now)
    requires l.room.state == Closed || user in l.members || |l.members| == (if l.room.mode == Mode2v2 then 4 else 2)
    ensures SeatMember(l, user, at) ==
            (l, if l.room.state == Closed then ErrRoomClosed
                else if user in l.members then ErrAlreadyMember
                else ErrRoomFull)
  {
    FirstFreeIsFree(l.room.mode.SeatOrder(), l.members);
    FullIffEverySeatTaken(l.room.mode, l.members);
  }

  lemma SeatMemberAnswersIff(l: Lobby, user: Id, at: int, now: int)
    requires LobbyOk(l, now)
    ensures var (l', r) := SeatMember(l, user, at);
            var full := |l.members| == (if l.room.mode == Mode2v2 then 4 else 2);
            && (r == ErrRoomClosed <==> l.room.state == Closed)
            && (r == ErrAlreadyMember <==> l.room.state == Open && user in l.members)
            && (r == ErrRoomFull <==> l.room.state == Open && user !in l.members && full)
            && (r == Ok <==> l.room.state == Open && user !in l.members && !full)
            && (if r == Ok then Seated(l, l', user, at) else l' == l)
  {
    if l.room.state == Open && user !in l.members && |l.members| != (if l.room.mode == Mode2v2 then 4 else 2) {
      SeatMemberSeats(l, user, at, now);
    } else {
      SeatMemberRefuses(l, user, at, now);
    }
  }

  /** Each answer of Join, exactly, and its effect. */
  lemma JoinAnswersIff(l: Lobby, user: Id, at: int, now: int)
    requires LobbyOk(l, now)
    ensures var (l', r) := Apply(l, Join(user, at));
            var full := |l.members| == (if l.room.mode == Mode2v2 then 4 else 2);
            && (r == ErrWrongJoinPath <==> l.room.visibility != Public)
            && (r == ErrRoomClosed <==> l.room.visibility == Public && l.room.state == Closed)
            && (r == ErrAlreadyMember <==> l.room.visibility == Public && l.room.state == Open && user in l.members)
            && (r == ErrRoomFull <==>
                  l.room.visibility == Public && l.room.state == Open && user !in l.members && full)
            && (r == Ok <==> l.room.visibility == Public && l.room.state == Open && user !in l.members && !full)
            && (if r == Ok then Seated(l, l', user, at) else l' == l)
  {
    SeatMemberAnswersIff(l, user, at, now);
  }

  /** Each answer of JoinByCode on the room the code may lead to, and its effect. */
  lemma JoinByCodeAnswersIff(l: Lobby, code: string, user: Id, at: int, now: int)
    requires LobbyOk(l, now)
    ensures var (l', r) := Apply(l, JoinByCode(code, user, at));
            var full := |l.members| == (if l.room.mode == Mode2v2 then 4 else 2);
            var found := l.room.joinCode == Some(code) && l.room.state == Open;
            && (r == ErrInvalidJoinCode <==> !found)
            && (r == ErrAlreadyMember <==> found && user in l.members)
            && (r == ErrRoomFull <==> found && user !in l.members && full)
            && (r == Ok <==> found && user !in l.members && !full)
            && (if r == Ok then Seated(l, l', user, at) else l' == l)
  {
    SeatMemberAnswersIff(l, user, at, now);
  }

  /** Each answer of Leave, exactly, and its effect: the row goes; the room closes with its last member; a leaving
      host is followed by the member who joined before all others left, and otherwise the host stays. */
  lemma LeaveAnswersIff(l: Lobby, user: Id, now: int)
    requires LobbyOk(l, now)
    ensures var (l', r) := Apply(l, Leave(user));
            && (r == Ok <==> user in l.members)
            && (r == ErrNotMember <==> user !in l.members)
            && (r != Ok ==> l' == l)
            && (r == Ok ==>
                  && l'.matches == l.matches
                  && l'.members == l.members - {user}
                  && l'.room == l.room.(state := l'.room.state, host := l'.room.host)
                  && (l'.room.state == Closed <==> l.room.state == Closed || |l.members| == 1)
                  && (l.room.host == user && |l.members| > 1 ==> JoinedFirst(l'.members, l'.room.host))
                  && (l.room.host != user || |l.members| == 1 ==> l'.room.host == l.room.host))
  {
    if user in l.members {
      OneFewer(l.members, user);
      if l.members - {user} != map[] { HandedOver(l.members - {user}, l, user, now); }
    }
  }

  lemma OneFewer(ms: Members, user: Id)
    requires user in ms
    ensures |ms - {user}| == |ms| - 1
    ensures |ms| == 1 <==> ms - {user} == map[]
  {
    assert ms.Keys == (ms - {user}).Keys + {user};
  }

  lemma HandedOver(rest: Members, l: Lobby, user: Id, now: int)
    requires LobbyOk(l, now) && rest == l.members - {user} != map[]
    ensures JoinedFirst(rest, Heir(rest))
  {
    RemoveKeepsRows(l.room.mode, l.members, user, now);
    HeirExists(rest, now);
    HeirJoinedFirst(rest, Heir(rest), now);
  }

  ghost predicate JoinedFirst(ms: Members, u: Id) {
    u in ms && forall v :: v in ms && v != u ==> ms[u].joinedAt < ms[v].joinedAt
  }

  lemma HeirJoinedFirst(ms: Members, u: Id, now: int)
    requires DistinctTimes(ms, now) && IsHeir(ms, u)
    ensures JoinedFirst(ms, u)
  {
    assert forall v :: v in ms && v != u ==> Earlier(ms, u, v);
  }

  /** Each answer of SetReady, exactly, and its effect: the caller's flag takes the value asked for, in an open room
      or a closed one, and every other row and every other column is as it was. */
  lemma SetReadyAnswersIff(l: Lobby, user: Id, ready: bool)
    ensures var (l', r) := Apply(l, SetReady(user, ready));
            && (r == Ok <==> user in l.members)
            && (r == ErrNotMember <==> user !in l.members)
            && l'.room == l.room && l'.matches == l.matches
            && l'.members.Keys == l.members.Keys
            && (forall u :: u in l.members ==>
                  && l'.members[u].ready == (if u == user then ready else l.members[u].ready)
                  && l'.members[u].seat == l.members[u].seat
                  && l'.members[u].joinedAt == l.members[u].joinedAt)
  {
  }
}
