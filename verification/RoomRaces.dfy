/** Joins racing for the last seats of an open public room, under the room's row lock
    (internal/rooms/service.go:90-161). */
module RoomRaces {
  import opened Basics
  import opened Turns
  import opened Rooms
  import opened RoomSchedule
  import opened RoomSerial

  // ---------------------------------------------------------------- joins one after another

  ghost function FreeSeats(l: Lobby): int { l.room.mode.Capacity() - |l.members| }

  ghost predicate RoomForJoins(l: Lobby) {
    && l.room.state == Open && l.room.visibility == Public
    && SeatsAllowed(l.room.mode, l.members) && DistinctSeats(l.members)
  }

  ghost predicate AllJoins(log: seq<Entry>) {
    && (forall i | 0 <= i < |log| :: log[i].op.Join?)
    && (forall i, j | 0 <= i < j < |log| :: log[i].op.user != log[j].op.user)
  }

  function Winners(log: seq<Entry>): set<Pid> {
    set i | 0 <= i < |log| && log[i].r == Ok :: log[i].pid
  }

  function CountWins(log: seq<Entry>): nat {
    if log == [] then 0 else (if log[0].r == Ok then 1 else 0) + CountWins(log[1..])
  }

  lemma JoinOnce(l: Lobby, user: Id, at: int)
    requires RoomForJoins(l) && user !in l.members
    ensures var (l', r) := Apply(l, Join(user, at));
            && RoomForJoins(l') && FreeSeats(l') >= 0
            && (FreeSeats(l) > 0 ==>
                  r == Ok && l'.members.Keys == l.members.Keys + {user} && FreeSeats(l') == FreeSeats(l) - 1)
            && (FreeSeats(l) <= 0 ==> r == ErrRoomFull && l' == l)
  {
    var order := l.room.mode.SeatOrder();
    FirstFreeIsFree(order, l.members);
    FullIffEverySeatTaken(l.room.mode, l.members);
    if FreeSeats(l) > 0 {
      SeatFilled(l.room.mode, l.members, user, FirstFree(order, l.members).value, at);
    }
  }

  lemma SeatFilled(m: Mode, ms: Members, user: Id, seat: Seat, at: int)
    requires SeatsAllowed(m, ms) && DistinctSeats(ms) && user !in ms && seat in m.SeatOrder() && !Taken(ms, seat)
    ensures var ms' := ms[user := Member(seat, false, at)];
            && SeatsAllowed(m, ms') && DistinctSeats(ms') && ms'.Keys == ms.Keys + {user}
            && |ms'| == |ms| + 1 && |ms'| <= m.Capacity()
  {
    var ms' := ms[user := Member(seat, false, at)];
    assert forall u :: u in ms ==> ms'[u] == ms[u] && ms[u].seat != seat;
    assert ms'.Keys == ms.Keys + {user};
    FullIffEverySeatTaken(m, ms');
  }

  /** Joins by distinct newcomers into a room with the given number of free seats. */
  ghost predicate Newcomers(l: Lobby, log: seq<Entry>) {
    && RoomForJoins(l) && AllJoins(log) && FreeSeats(l) >= 0
    && forall i | 0 <= i < |log| :: log[i].op.user !in l.members
  }

  lemma FirstNewcomer(l: Lobby, log: seq<Entry>)
    requires Newcomers(l, log) && log != []
    ensures var (l', r) := Apply(l, log[0].op);
            && Newcomers(l', log[1..])
            && FreeSeats(l') == FreeSeats(l) - (if r == Ok then 1 else 0)
            && r == if FreeSeats(l) > 0 then Ok else ErrRoomFull
  {
    var op := log[0].op;
    assert op == Join(op.user, op.at);
    JoinOnce(l, op.user, op.at);
    assert forall i | 0 <= i < |log| - 1 :: log[1..][i] == log[i + 1];
  }

  lemma {:induction false} SerialJoins(l0: Lobby, log: seq<Entry>, l1: Lobby)
    requires Replays(l0, log, l1) && Newcomers(l0, log)
    ensures CountWins(log) == if |log| <= FreeSeats(l0) then |log| else FreeSeats(l0)
    ensures forall i | 0 <= i < |log| :: log[i].r == Ok || log[i].r == ErrRoomFull
    decreases |log|
  {
    if log != [] {
      FirstNewcomer(l0, log);
      SerialJoins(Apply(l0, log[0].op).0, log[1..], l1);
    }
  }

  lemma WinnersOfRest(log: seq<Entry>)
    requires log != []
    ensures Winners(log) == Winners(log[1..]) + if log[0].r == Ok then {log[0].pid} else {}
  {
    assert log == [log[0]] + log[1..];
    forall i | 0 < i < |log| && log[i].r == Ok ensures log[i].pid in Winners(log[1..]) {
      assert log[1..][i - 1] == log[i];
    }
    forall i | 0 <= i < |log| - 1 && log[1..][i].r == Ok ensures log[1..][i].pid in Winners(log) {
      assert log[i + 1] == log[1..][i];
    }
  }

  lemma {:induction false} WinnersCounted(log: seq<Entry>)
    requires forall i, j | 0 <= i < j < |log| :: log[i].pid != log[j].pid
    ensures |Winners(log)| == CountWins(log)
  {
    if log != [] {
      WinnersCounted(log[1..]);
      WinnersOfRest(log);
      assert log[0].pid !in Winners(log[1..]);
    }
  }

  // ---------------------------------------------------------------- the locked race

  /** Everyone in the race asks to join, each its own user. */
  ghost predicate Races(procs: map<Pid, Status>, users: map<Pid, Id>) {
    && procs.Keys == users.Keys
    && forall p :: p in procs ==> procs[p].Waiting? && procs[p].op.Join? && procs[p].op.user == users[p]
  }

  ghost predicate Distinct(users: map<Pid, Id>) {
    forall p, q | p in users && q in users && users[p] == users[q] :: p == q
  }

  ghost predicate AllDone(procs: map<Pid, Status>) {
    forall p :: p in procs ==> procs[p].Done?
  }

  ghost function Won(procs: map<Pid, Status>): set<Pid> {
    set p | p in procs && procs[p].Done? && procs[p].r == Ok
  }

  function Min(a: int, b: int): int { if a <= b then a else b }

  lemma LoggedOnce(procs: map<Pid, Status>, log: seq<Entry>, p: Pid) returns (i: nat)
    requires LogOk(procs, log) && p in procs && procs[p].Done?
    ensures i < |log| && log[i] == Entry(p, procs[p].op, procs[p].r)
  {
    assert Logged(log, p);
    i :| 0 <= i < |log| && log[i].pid == p;
    assert Settled(procs, log[i]);
  }

  lemma LogCoversDone(procs: map<Pid, Status>, log: seq<Entry>)
    requires LogOk(procs, log) && AllDone(procs)
    ensures Won(procs) == Winners(log) && |log| == |procs|
  {
    var pids := seq(|log|, i requires 0 <= i < |log| => log[i].pid);
    assert NoDuplicates(pids);
    forall p ensures p in procs <==> p in pids {
      if p in procs { var i := LoggedOnce(procs, log, p); assert pids[i] == p; }
      if p in pids { var i :| 0 <= i < |pids| && pids[i] == p; assert Settled(procs, log[i]); }
    }
    assert Elements(pids) == procs.Keys;
    DistinctSize(pids);
    WonIsWinners(procs, log);
  }

  lemma WonIsWinners(procs: map<Pid, Status>, log: seq<Entry>)
    requires LogOk(procs, log) && AllDone(procs)
    ensures Won(procs) == Winners(log)
  {
    forall p ensures p in Won(procs) <==> p in Winners(log) {
      if p in Won(procs) { var i := LoggedOnce(procs, log, p); }
      if p in Winners(log) {
        var i :| 0 <= i < |log| && log[i].r == Ok && log[i].pid == p;
        assert Settled(procs, log[i]);
      }
    }
  }

  /** n distinct newcomers race for k free seats: in every complete schedule exactly min(n, k) win and everyone else is
      told the room is full. */
  lemma ExactlyMinWin(s: Sys, schedule: seq<Choice>, users: map<Pid, Id>)
    requires Initial(s) && Races(s.procs, users) && Distinct(users)
    requires s.lobby.room.state == Open && s.lobby.room.visibility == Public
    requires forall p :: p in users ==> users[p] !in s.lobby.members
    requires AllDone(Run(s, NO_HISTORY, schedule).0.procs)
    ensures var procs := Run(s, NO_HISTORY, schedule).0.procs;
            && |Won(procs)| == Min(|users|, FreeSeats(s.lobby))
            && forall p :: p in procs && p !in Won(procs) ==> procs[p].r == ErrRoomFull
  {
    var (t, h) := Run(s, NO_HISTORY, schedule);
    Serializable(s, schedule);
    RaceLog(s.procs, t.procs, h.log, users);
    FinishedRace(s.lobby, t.procs, h.log, t.lobby, users);
  }

  lemma FinishedRace(l0: Lobby, procs: map<Pid, Status>, log: seq<Entry>, l1: Lobby, users: map<Pid, Id>)
    requires Replays(l0, log, l1) && RoomForJoins(l0) && AllJoins(log) && LogOk(procs, log) && AllDone(procs)
    requires procs.Keys == users.Keys
    requires forall i | 0 <= i < |log| :: log[i].pid in users && log[i].op.user == users[log[i].pid]
    requires forall p :: p in users ==> users[p] !in l0.members
    ensures |Won(procs)| == Min(|users|, FreeSeats(l0))
    ensures forall p :: p in procs && p !in Won(procs) ==> procs[p].r == ErrRoomFull
  {
    LogCoversDone(procs, log);
    FullIffEverySeatTaken(l0.room.mode, l0.members);
    SerialJoins(l0, log, l1);
    WinnersCounted(log);
    assert |users| == |users.Keys| == |procs.Keys|;
    forall p | p in procs && p !in Won(procs) ensures procs[p].r == ErrRoomFull {
      var i := LoggedOnce(procs, log, p);
    }
  }

  lemma RaceLog(asked: map<Pid, Status>, procs: map<Pid, Status>, log: seq<Entry>, users: map<Pid, Id>)
    requires Races(asked, users) && LogAsAsked(asked, log) && LogOk(procs, log) && Distinct(users)
    ensures AllJoins(log)
    ensures forall i | 0 <= i < |log| :: log[i].pid in users && log[i].op.user == users[log[i].pid]
  {
    forall i | 0 <= i < |log| ensures log[i].op.Join? && log[i].pid in users && log[i].op.user == users[log[i].pid] {
      assert SameRequest(log[i].op, asked[log[i].pid].op);
    }
  }
}
