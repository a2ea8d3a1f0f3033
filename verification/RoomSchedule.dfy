/** The transactions on one room, interleaved statement by statement (internal/rooms/service.go).

    Join, JoinByCode, Leave and Start take the room's row lock with their first read and keep what they write to
    themselves until they commit; SetReady is a lone update that takes no such lock and only waits for a member row
    that an uncommitted Leave has deleted. Any transaction may be aborted at any time before its commit. A schedule
    is any sequence of choices of who moves next. */
module RoomSchedule {
  import opened Basics
  import Matches
  import opened Turns
  import opened Rooms

  type Pid = nat

  /** What a transaction has written but not committed. */
  datatype Delta =
    | Insert(user: Id, member: Member)
    | Delete(user: Id, close: bool, host: Id)
    | Launch(m: Match)

  function Written(l: Lobby, d: Delta): Lobby {
    match d
    case Insert(user, member) => l.(members := l.members[user := member])
    case Delete(user, close, host) =>
      l.(members := l.members - {user}, room := l.room.(state := if close then Closed else l.room.state, host := host))
    case Launch(m) => WithMatch(l, m)
  }

  /** How far the transaction holding the row lock has come. */
  datatype Phase = Locked | SawMembers(seen: Members) | DeletedOwn | SawRest(rest: Members) | Wrote(delta: Delta)
  datatype Tx = Tx(pid: Pid, op: Op, row: Room, phase: Phase)

  datatype Status = Waiting(op: Op) | InTx | Spawning(op: Op, id: Id) | Done(op: Op, r: Outcome) | Aborted

  datatype Sys = Sys(lobby: Lobby, tx: Option<Tx>, procs: map<Pid, Status>, clock: int, actors: set<Id>, conflict: bool)

  datatype Choice = Advance(pid: Pid) | Abort(pid: Pid)

  /** What a move means for the serial order: nothing; a Start has read the members; an operation has its final
      answer and takes its place now, or where its Start read. */
  datatype Note = Silent | StartRead | Settles(e: Entry) | SettlesWhereRead(e: Entry)
  datatype Entry = Entry(pid: Pid, op: Op, r: Outcome)

  // ---------------------------------------------------------------- the moves

  function Finish(s: Sys, tx: Tx, r: Outcome): Sys {
    s.(tx := None, procs := s.procs[tx.pid := Done(tx.op, r)])
  }

  /** Rolling back with an error: the lock goes, nothing was written. */
  function RollBack(s: Sys, tx: Tx, r: Outcome): (Sys, Note) {
    (Finish(s, tx, r), Settles(Entry(tx.pid, tx.op, r)))
  }

  function InPhase(s: Sys, tx: Tx, phase: Phase): (Sys, Note) {
    (s.(tx := Some(tx.(phase := phase))), Silent)
  }

  function Stamped(op: Op, at: int): Op {
    match op
    case Join(user, _) => Join(user, at)
    case JoinByCode(code, user, _) => JoinByCode(code, user, at)
    case _ => op
  }

  predicate RowDeleted(s: Sys, user: Id) {
    && s.tx.Some? && s.tx.value.op == Leave(user)
    && (s.tx.value.phase.DeletedOwn? || s.tx.value.phase.SawRest? || s.tx.value.phase.Wrote?)
  }

  predicate CodeMatches(l: Lobby, op: Op) {
    op.JoinByCode? ==> l.room.joinCode == Some(op.code) && l.room.state == Open
  }

  ghost function FirstStatement(s: Sys, pid: Pid, op: Op): (Sys, Note) {
    if op.SetReady? then
      if RowDeleted(s, op.user) then (s, Silent)
      else
        var (l, r) := Apply(s.lobby, op);
        (s.(lobby := l, procs := s.procs[pid := Done(op, r)]), Settles(Entry(pid, op, r)))
    else if !CodeMatches(s.lobby, op) then
      (s.(procs := s.procs[pid := Done(op, ErrInvalidJoinCode)]), Settles(Entry(pid, op, ErrInvalidJoinCode)))
    else if s.tx.Some? then (s, Silent)
    else (s.(tx := Some(Tx(pid, op, s.lobby.room, Locked)), procs := s.procs[pid := InTx]), Silent)
  }

  function AfterLock(s: Sys, tx: Tx): (Sys, Note) {
    match tx.op
    case Join(_, _) =>
      if tx.row.visibility != Public then RollBack(s, tx, ErrWrongJoinPath)
      else if tx.row.state != Open then RollBack(s, tx, ErrRoomClosed)
      else InPhase(s, tx, SawMembers(s.lobby.members))
    case JoinByCode(_, _, _) =>
      if tx.row.state != Open then RollBack(s, tx, ErrRoomClosed) else InPhase(s, tx, SawMembers(s.lobby.members))
    case Leave(user) =>
      if user !in s.lobby.members then RollBack(s, tx, ErrNotMember) else InPhase(s, tx, DeletedOwn)
    case Start(user, _) =>
      if tx.row.host != user then RollBack(s, tx, ErrNotHost)
      else if tx.row.state != Open then RollBack(s, tx, ErrRoomClosed)
      else (InPhase(s, tx, SawMembers(s.lobby.members)).0, StartRead)
    case SetReady(_, _) => (s, Silent)
  }

  ghost function DecideJoin(s: Sys, tx: Tx, seen: Members): (Sys, Note) {
    if tx.op.user in seen then RollBack(s, tx, ErrAlreadyMember)
    else match FirstFree(tx.row.mode.SeatOrder(), seen)
      case None => RollBack(s, tx, ErrRoomFull)
      case Some(seat) =>
        // The insert meets the primary key and the unique seat index of what others have committed.
        if tx.op.user in s.lobby.members || Taken(s.lobby.members, seat) then
          RollBack(s.(conflict := true), tx, ErrRoomFull)
        else
          InPhase(s.(clock := s.clock + 1), tx.(op := Stamped(tx.op, s.clock)),
                  Wrote(Insert(tx.op.user, Member(seat, false, s.clock))))
  }

  ghost function DecideStart(s: Sys, tx: Tx, seen: Members): (Sys, Note) {
    if tx.op.Start? then
      var (r, input) := StartDecision(tx.row, seen, tx.op.user);
      if input.None? then (Finish(s, tx, r), SettlesWhereRead(Entry(tx.pid, tx.op, r)))
      else InPhase(s, tx, Wrote(Launch(Match(tx.op.matchId, input.value))))
    else (s, Silent)
  }

  ghost function AfterRest(s: Sys, tx: Tx, rest: Members): (Sys, Note) {
    var host := if rest != map[] && tx.row.host == tx.op.user then Heir(rest) else tx.row.host;
    InPhase(s, tx, Wrote(Delete(tx.op.user, rest == map[], host)))
  }

  function Commit(s: Sys, tx: Tx, d: Delta): (Sys, Note) {
    var done := Finish(s, tx, Ok).(lobby := Written(s.lobby, d));
    if d.Launch? then
      (done.(procs := s.procs[tx.pid := Spawning(tx.op, d.m.id)]), SettlesWhereRead(Entry(tx.pid, tx.op, Ok)))
    else
      (done, Settles(Entry(tx.pid, tx.op, Ok)))
  }

  ghost function HolderMoves(s: Sys, tx: Tx): (Sys, Note) {
    match tx.phase
    case Locked => AfterLock(s, tx)
    case SawMembers(seen) => if tx.op.Start? then DecideStart(s, tx, seen) else DecideJoin(s, tx, seen)
    case DeletedOwn => InPhase(s, tx, SawRest(s.lobby.members - {tx.op.user}))
    case SawRest(rest) => AfterRest(s, tx, rest)
    case Wrote(d) => Commit(s, tx, d)
  }

  function Aborting(s: Sys, pid: Pid): Sys
    requires pid in s.procs
  {
    match s.procs[pid]
    case Waiting(_) => s.(procs := s.procs[pid := Aborted])
    case InTx => if s.tx.Some? && s.tx.value.pid == pid then s.(tx := None, procs := s.procs[pid := Aborted]) else s
    case _ => s
  }

  ghost function Move(s: Sys, c: Choice): (Sys, Note) {
    if c.pid !in s.procs then (s, Silent)
    else if c.Abort? then (Aborting(s, c.pid), Silent)
    else match s.procs[c.pid]
      case Waiting(op) => FirstStatement(s, c.pid, op)
      case InTx => if s.tx.Some? && s.tx.value.pid == c.pid then HolderMoves(s, s.tx.value) else (s, Silent)
      case Spawning(op, id) => (s.(actors := s.actors + {id}, procs := s.procs[c.pid := Done(op, Ok)]), Silent)
      case _ => (s, Silent)
  }

  // ---------------------------------------------------------------- the serial order

  /** The order built up along a run: `log`, and where and what the latest Start read. No move depends on it. */
  datatype History = History(log: seq<Entry>, readAt: nat, readMembers: Members)

  function Placed(log: seq<Entry>, at: nat, e: Entry): seq<Entry> {
    if at <= |log| then log[..at] + [e] + log[at..] else log + [e]
  }

  function Record(h: History, n: Note, members: Members): History {
    match n
    case Silent => h
    case StartRead => h.(readAt := |h.log|, readMembers := members)
    case Settles(e) => h.(log := h.log + [e])
    case SettlesWhereRead(e) => h.(log := Placed(h.log, h.readAt, e))
  }

  ghost function Run(s: Sys, h: History, schedule: seq<Choice>): (Sys, History)
    decreases |schedule|
  {
    if schedule == [] then (s, h)
    else
      var (s', note) := Move(s, schedule[0]);
      Run(s', Record(h, note, s.lobby.members), schedule[1..])
  }

  /** Running the logged operations one after another gives the logged answers and ends in `l1`. */
  ghost predicate Replays(l0: Lobby, log: seq<Entry>, l1: Lobby)
    decreases |log|
  {
    if log == [] then l0 == l1
    else Apply(l0, log[0].op).1 == log[0].r && Replays(Apply(l0, log[0].op).0, log[1..], l1)
  }

  lemma {:induction false} ReplaysThen(a: Lobby, x: seq<Entry>, b: Lobby, y: seq<Entry>, c: Lobby)
    requires Replays(a, x, b) && Replays(b, y, c)
    ensures Replays(a, x + y, c)
    decreases |x|
  {
    if x == [] {
      assert x + y == y;
    } else {
      assert (x + y)[1..] == x[1..] + y;
      ReplaysThen(Apply(a, x[0].op).0, x[1..], b, y, c);
    }
  }

  lemma ReplaysOneMore(a: Lobby, log: seq<Entry>, b: Lobby, e: Entry, c: Lobby)
    requires Replays(a, log, b) && Apply(b, e.op) == (c, e.r)
    ensures Replays(a, log + [e], c)
  {
    assert [e][1..] == [];
    assert Replays(b, [e], c);
    ReplaysThen(a, log, b, [e], c);
  }

  // ---------------------------------------------------------------- why a Start may be placed where it read

  /** Operations that neither notice nor disturb a match being launched behind their back. */
  predicate Quiet(r: Room, op: Op) {
    op.SetReady? || (op.JoinByCode? && r.joinCode != Some(op.code))
  }

  ghost predicate AllQuiet(r: Room, log: seq<Entry>) {
    forall i | 0 <= i < |log| :: Quiet(r, log[i].op)
  }

  /** Launching first and then running the quiet operations gives the same answers and the same end. */
  lemma {:induction false} QuietCommutesWithLaunch(a: Lobby, tail: seq<Entry>, b: Lobby, m: Match)
    requires Replays(a, tail, b) && AllQuiet(a.room, tail)
    ensures Replays(Written(a, Launch(m)), tail, Written(b, Launch(m)))
    ensures a.room == b.room && a.matches == b.matches
    decreases |tail|
  {
    if tail != [] {
      var a' := Apply(a, tail[0].op).0;
      assert Quiet(a.room, tail[0].op);
      assert Apply(Written(a, Launch(m)), tail[0].op) == (Written(a', Launch(m)), tail[0].r);
      QuietCommutesWithLaunch(a', tail[1..], b, m);
    }
  }

  // ---------------------------------------------------------------- the invariant

  /** Two readings of the member rows that differ in nothing but ready flags. */
  ghost predicate SameSeats(a: Members, b: Members) {
    a.Keys == b.Keys && forall u :: u in a ==> a[u].seat == b[u].seat && a[u].joinedAt == b[u].joinedAt
  }

  /** The room as the latest Start saw it. */
  function AsRead(l: Lobby, h: History): Lobby { l.(members := h.readMembers) }

  /** Since the member read of the Start in flight, only quiet operations have settled. */
  ghost predicate StartPlaced(l: Lobby, h: History, l0: Lobby) {
    && h.readAt <= |h.log|
    && Replays(l0, h.log[..h.readAt], AsRead(l, h))
    && Replays(AsRead(l, h), h.log[h.readAt..], l)
    && AllQuiet(l.room, h.log[h.readAt..])
  }

  /** What the lock holder knows is still so, and what it wrote is what the operation does alone, now. */
  ghost predicate HolderOk(l: Lobby, clock: int, tx: Tx) {
    && tx.row == l.room && tx.op.user != NIL
    && !tx.op.SetReady? && CodeMatches(l, tx.op)
    && match tx.phase
       case Locked => true
       case SawMembers(seen) =>
         && !tx.op.Leave? && l.room.state == Open
         && (tx.op.Join? ==> tx.row.visibility == Public)
         && (tx.op.Start? ==> tx.row.host == tx.op.user)
         && (!tx.op.Start? ==> SameSeats(seen, l.members))
       case DeletedOwn => tx.op.Leave? && tx.op.user in l.members
       case SawRest(rest) => tx.op.Leave? && tx.op.user in l.members && SameSeats(rest, l.members - {tx.op.user})
       case Wrote(d) => WroteOk(l, clock, tx, d)
  }

  ghost predicate WroteOk(l: Lobby, clock: int, tx: Tx, d: Delta) {
    match d
    case Insert(user, member) =>
      && (tx.op.Join? || tx.op.JoinByCode?) && user == tx.op.user && LobbyOk(l, tx.op.at) && tx.op.at < clock
      && Apply(l, tx.op) == (Written(l, d), Ok)
    case Delete(user, _, _) => tx.op == Leave(user) && Apply(l, tx.op) == (Written(l, d), Ok)
    case Launch(m) => tx.op.Start? && l.room.state == Open
  }

  /** A Start in flight decides, and decided, on the room as it was read. */
  ghost predicate StartOk(l: Lobby, h: History, l0: Lobby, tx: Tx) {
    tx.op.Start? && (tx.phase.SawMembers? || tx.phase.Wrote?) ==>
      && StartPlaced(l, h, l0)
      && (tx.phase.SawMembers? ==> tx.phase.seen == h.readMembers)
      && (tx.phase.Wrote? ==> Apply(AsRead(l, h), tx.op) == (Written(AsRead(l, h), tx.phase.delta), Ok))
  }

  ghost predicate LockOk(s: Sys) {
    && (forall p :: p in s.procs && s.procs[p] == InTx ==> s.tx.Some? && s.tx.value.pid == p)
    && (s.tx.Some? ==> s.tx.value.pid in s.procs && s.procs[s.tx.value.pid] == InTx)
  }

  ghost predicate Settled(procs: map<Pid, Status>, e: Entry) {
    e.pid in procs &&
    match procs[e.pid]
    case Done(op, r) => e.op == op && e.r == r
    case Spawning(op, _) => e.op == op && e.r == Ok
    case _ => false
  }

  ghost predicate Logged(log: seq<Entry>, p: Pid) {
    exists i :: 0 <= i < |log| && log[i].pid == p
  }

  /** The serial order holds every settled operation once, with the answer its caller got, and nothing else. */
  ghost predicate LogOk(procs: map<Pid, Status>, log: seq<Entry>) {
    && (forall i | 0 <= i < |log| :: Settled(procs, log[i]))
    && (forall i, j | 0 <= i < j < |log| :: log[i].pid != log[j].pid)
    && (forall p :: p in procs && (procs[p].Done? || procs[p].Spawning?) ==> Logged(log, p))
  }

  ghost predicate Launched(l: Lobby, id: Id) {
    exists i :: 0 <= i < |l.matches| && l.matches[i].id == id
  }

  /** An actor runs, or is about to be spawned, only for a match whose row is committed. */
  ghost predicate ActorsOk(s: Sys) {
    && (forall id :: id in s.actors ==> Launched(s.lobby, id))
    && (forall p :: p in s.procs && s.procs[p].Spawning? ==> Launched(s.lobby, s.procs[p].id))
  }

  /** What does not concern the serial order. */
  ghost predicate SysOk(s: Sys) {
    && LobbyOk(s.lobby, s.clock) && !s.conflict
    && LockOk(s) && ActorsOk(s)
    && (forall p :: p in s.procs && s.procs[p].Waiting? ==> s.procs[p].op.user != NIL)
    && (s.tx.Some? ==> HolderOk(s.lobby, s.clock, s.tx.value))
  }

  /** What concerns the serial order. */
  ghost predicate OrderOk(s: Sys, h: History, l0: Lobby) {
    && Replays(l0, h.log, s.lobby)
    && LogOk(s.procs, h.log)
    && (s.tx.Some? ==> StartOk(s.lobby, h, l0, s.tx.value))
  }

  ghost predicate Inv(s: Sys, h: History, l0: Lobby) { SysOk(s) && OrderOk(s, h, l0) }

  ghost predicate Initial(s: Sys) {
    && LobbyOk(s.lobby, s.clock) && s.tx == None && s.actors == {} && !s.conflict
    && forall p :: p in s.procs ==> s.procs[p].Waiting? && s.procs[p].op.user != NIL
  }

  const NO_HISTORY := History([], 0, map[])

  // ---------------------------------------------------------------- ready flags do not matter to the others

  lemma {:induction false} FirstFreeSameSeats(order: seq<Seat>, a: Members, b: Members)
    requires SameSeats(a, b)
    ensures FirstFree(order, a) == FirstFree(order, b)
  {
    forall seat ensures Taken(a, seat) <==> Taken(b, seat) {
      if Taken(a, seat) { var u :| u in a && a[u].seat == seat; assert b[u].seat == seat; }
      if Taken(b, seat) { var u :| u in b && b[u].seat == seat; assert a[u].seat == seat; }
    }
    if order != [] { FirstFreeSameSeats(order[1..], a, b); }
  }

  lemma HeirSameSeats(a: Members, b: Members, now: int)
    requires SameSeats(a, b) && DistinctTimes(a, now) && a != map[]
    ensures Heir(a) == Heir(b) && IsHeir(b, Heir(b))
  {
    HeirExists(a, now);
    var h := Heir(a);
    assert IsHeir(a, h);
    assert IsHeir(b, h);
    var h' := Heir(b);
    assert h' != h ==> Earlier(b, h', h);
  }

  /** A Leave decided on rows that differ in ready flags only is the Leave of the current rows. */
  lemma LeaveDecidedOnSameSeats(l: Lobby, user: Id, rest: Members, now: int)
    requires DistinctTimes(l.members, now) && user in l.members && SameSeats(rest, l.members - {user})
    ensures var host := if rest != map[] && l.room.host == user then Heir(rest) else l.room.host;
            Apply(l, Leave(user)) == (Written(l, Delete(user, rest == map[], host)), Ok)
  {
    var left := l.members - {user};
    assert forall v :: v in left ==> v in l.members && left[v] == l.members[v];
    SameSeatsDecide(left, rest, now);
  }

  lemma SameSeatsDecide(a: Members, b: Members, now: int)
    requires SameSeats(b, a) && DistinctTimes(a, now)
    ensures (a == map[] <==> b == map[]) && (a != map[] ==> Heir(a) == Heir(b))
  {
    assert a == map[] <==> a.Keys == {};
    assert b == map[] <==> b.Keys == {};
    if a != map[] { HeirSameSeats(a, b, now); }
  }

  lemma ReadyKeepsSeats(ms: Members, user: Id, ready: bool)
    ensures SameSeats(MarkReady(ms, user, ready), ms)
  {
  }

  lemma ReadyThenInsert(l: Lobby, user: Id, ready: bool, op: Op, d: Delta)
    requires (op.Join? || op.JoinByCode?) && d.Insert? && d.user == op.user && Apply(l, op) == (Written(l, d), Ok)
    ensures var l' := Apply(l, SetReady(user, ready)).0; Apply(l', op) == (Written(l', d), Ok)
  {
    var l' := Apply(l, SetReady(user, ready)).0;
    ReadyKeepsSeats(l.members, user, ready);
    FirstFreeSameSeats(l.room.mode.SeatOrder(), l'.members, l.members);
    assert Written(l, d).members[op.user] == d.member;
  }

  lemma SameDelete(l: Lobby, l': Lobby, d: Delta, d': Delta)
    requires l'.room == l.room && d.Delete? && d'.Delete? && d.user == d'.user && Written(l, d) == Written(l, d')
    ensures Written(l', d) == Written(l', d')
  {
    assert Written(l', d).room == Written(l, d).room;
  }

  lemma ReadyKeepsOthersSeats(ms: Members, user: Id, ready: bool, other: Id, now: int)
    requires DistinctTimes(ms, now)
    ensures var ms' := MarkReady(ms, user, ready);
            DistinctTimes(ms', now) && SameSeats(ms - {other}, ms' - {other}) && (other in ms <==> other in ms')
  {
    ReadyKeepsSeats(ms, user, ready);
  }

  lemma ReadyThenDelete(l: Lobby, user: Id, ready: bool, d: Delta, now: int)
    requires DistinctTimes(l.members, now) && d.Delete? && Apply(l, Leave(d.user)) == (Written(l, d), Ok)
    ensures var l' := l.(members := MarkReady(l.members, user, ready)); Apply(l', Leave(d.user)) == (Written(l', d), Ok)
  {
    var l' := l.(members := MarkReady(l.members, user, ready));
    var rest := l.members - {d.user};
    var host := if rest != map[] && l.room.host == d.user then Heir(rest) else l.room.host;
    ReadyKeepsOthersSeats(l.members, user, ready, d.user, now);
    LeaveDecidedOnSameSeats(l, d.user, rest, now);
    LeaveDecidedOnSameSeats(l', d.user, rest, now);
    SameDelete(l, l', d, Delete(d.user, rest == map[], host));
  }

  lemma SetReadyKeepsHolder(s: Sys, op: Op)
    requires SysOk(s) && s.tx.Some? && op.SetReady? && !RowDeleted(s, op.user) && op.user != NIL
    ensures HolderOk(Apply(s.lobby, op).0, s.clock, s.tx.value)
  {
    var tx, l' := s.tx.value, Apply(s.lobby, op).0;
    ReadyKeepsSeats(s.lobby.members, op.user, op.ready);
    match tx.phase {
      case Locked =>
      case SawMembers(seen) =>
      case DeletedOwn =>
      case SawRest(rest) => assert SameSeats(s.lobby.members - {tx.op.user}, l'.members - {tx.op.user});
      case Wrote(d) =>
        if d.Insert? {
          ApplyKeeps(s.lobby, op, tx.op.at);
          ReadyThenInsert(s.lobby, op.user, op.ready, tx.op, d);
        } else if d.Delete? {
          ReadyThenDelete(s.lobby, op.user, op.ready, d, s.clock);
        }
    }
  }

  // ---------------------------------------------------------------- each move keeps the state in order

  lemma MatchesKept(l: Lobby, l': Lobby)
    requires l.matches <= l'.matches
    ensures forall id :: Launched(l, id) ==> Launched(l', id)
  {
    forall id | Launched(l, id) ensures Launched(l', id) {
      var i :| 0 <= i < |l.matches| && l.matches[i].id == id;
      assert l'.matches[i].id == id;
    }
  }

  lemma SetReadyOk(s: Sys, pid: Pid)
    requires SysOk(s) && pid in s.procs && s.procs[pid].Waiting?
    requires s.procs[pid].op.SetReady? && !RowDeleted(s, s.procs[pid].op.user)
    ensures SysOk(FirstStatement(s, pid, s.procs[pid].op).0)
  {
    var op := s.procs[pid].op;
    ApplyKeeps(s.lobby, op, s.clock);
    if s.tx.Some? { SetReadyKeepsHolder(s, op); }
    MatchesKept(s.lobby, Apply(s.lobby, op).0);
  }

  lemma FirstStatementOk(s: Sys, pid: Pid)
    requires SysOk(s) && pid in s.procs && s.procs[pid].Waiting?
    ensures SysOk(FirstStatement(s, pid, s.procs[pid].op).0)
  {
    var op := s.procs[pid].op;
    if op.SetReady? && !RowDeleted(s, op.user) { SetReadyOk(s, pid); }
  }

  lemma FinishOk(s: Sys, tx: Tx, r: Outcome)
    requires SysOk(s) && s.tx == Some(tx)
    ensures SysOk(Finish(s, tx, r))
  {
  }

  lemma InPhaseOk(s: Sys, tx: Tx, later: int)
    requires SysOk(s) && s.tx.Some? && tx.pid == s.tx.value.pid && s.clock <= later && HolderOk(s.lobby, later, tx)
    ensures SysOk(s.(tx := Some(tx), clock := later))
  {
    LaterOk(s.lobby, s.clock, later);
  }

  lemma AfterLockOk(s: Sys, tx: Tx)
    requires SysOk(s) && s.tx == Some(tx) && tx.phase.Locked?
    ensures SysOk(AfterLock(s, tx).0)
  {
    var (s', note) := AfterLock(s, tx);
    if note.Settles? {
      FinishOk(s, tx, note.e.r);
    } else {
      InPhaseOk(s, s'.tx.value, s.clock);
    }
  }

  /** A Join decided on rows that differ in ready flags only is the Join of the current rows; in particular the seat
      it found free is still free. */
  lemma JoinDecided(l: Lobby, op: Op, seen: Members, at: int)
    requires (op.Join? && l.room.visibility == Public) || op.JoinByCode?
    requires l.room.state == Open && CodeMatches(l, op) && SameSeats(seen, l.members)
    ensures var free := FirstFree(l.room.mode.SeatOrder(), seen);
            if op.user in seen then Apply(l, op) == (l, ErrAlreadyMember)
            else if free.None? then Apply(l, op) == (l, ErrRoomFull)
            else
              && op.user !in l.members && !Taken(l.members, free.value)
              && Apply(l, Stamped(op, at)) == (Written(l, Insert(op.user, Member(free.value, false, at))), Ok)
  {
    FirstFreeSameSeats(l.room.mode.SeatOrder(), seen, l.members);
    FirstFreeIsFree(l.room.mode.SeatOrder(), l.members);
  }

  /** Under the lock the unique index never rejects the insert. */
  lemma DecideJoinOk(s: Sys, tx: Tx, seen: Members)
    requires SysOk(s) && s.tx == Some(tx) && tx.phase == SawMembers(seen) && !tx.op.Start?
    ensures SysOk(DecideJoin(s, tx, seen).0) && !DecideJoin(s, tx, seen).0.conflict
  {
    JoinDecided(s.lobby, tx.op, seen, s.clock);
    var (s', note) := DecideJoin(s, tx, seen);
    if note.Settles? {
      FinishOk(s, tx, note.e.r);
    } else {
      InPhaseOk(s, s'.tx.value, s.clock + 1);
    }
  }

  lemma DecideStartOk(s: Sys, tx: Tx, seen: Members)
    requires SysOk(s) && s.tx == Some(tx) && tx.phase == SawMembers(seen) && tx.op.Start?
    ensures SysOk(DecideStart(s, tx, seen).0)
  {
    var (r, input) := StartDecision(tx.row, seen, tx.op.user);
    if input.None? {
      FinishOk(s, tx, r);
    } else {
      InPhaseOk(s, tx.(phase := Wrote(Launch(Match(tx.op.matchId, input.value)))), s.clock);
    }
  }

  lemma AfterRestOk(s: Sys, tx: Tx, rest: Members)
    requires SysOk(s) && s.tx == Some(tx) && tx.phase == SawRest(rest)
    ensures SysOk(AfterRest(s, tx, rest).0)
  {
    LeaveDecidedOnSameSeats(s.lobby, tx.op.user, rest, s.clock);
    InPhaseOk(s, AfterRest(s, tx, rest).0.tx.value, s.clock);
  }

  lemma LaunchedOk(l: Lobby, m: Match, now: int)
    requires LobbyOk(l, now) && l.room.state == Open
    ensures LobbyOk(Written(l, Launch(m)), now) && Written(l, Launch(m)).matches == [m]
  {
  }

  lemma WrittenOk(s: Sys, tx: Tx, d: Delta)
    requires LobbyOk(s.lobby, s.clock) && tx.op.user != NIL && WroteOk(s.lobby, s.clock, tx, d)
    ensures LobbyOk(Written(s.lobby, d), s.clock) && s.lobby.matches <= Written(s.lobby, d).matches
    ensures s.lobby.room.state == Closed ==> Written(s.lobby, d).room.state == Closed
  {
    if d.Insert? {
      ApplyKeeps(s.lobby, tx.op, tx.op.at);
      LaterOk(Written(s.lobby, d), tx.op.at + 1, s.clock);
    } else if d.Delete? {
      ApplyKeeps(s.lobby, tx.op, s.clock);
      ApplyNeverReopens(s.lobby, tx.op);
    } else {
      LaunchedOk(s.lobby, d.m, s.clock);
    }
  }

  lemma CommitOk(s: Sys, tx: Tx, d: Delta)
    requires SysOk(s) && s.tx == Some(tx) && tx.phase == Wrote(d)
    ensures SysOk(Commit(s, tx, d).0)
  {
    var s' := Commit(s, tx, d).0;
    WrittenOk(s, tx, d);
    MatchesKept(s.lobby, s'.lobby);
    LaunchIsThere(s.lobby, d);
    CommittedActorsOk(s, s', tx);
  }

  lemma LaunchIsThere(l: Lobby, d: Delta)
    ensures d.Launch? ==> Launched(Written(l, d), d.m.id)
  {
    if d.Launch? {
      assert Written(l, d).matches[|l.matches|] == d.m;
    }
  }

  lemma CommittedActorsOk(s: Sys, s': Sys, tx: Tx)
    requires LockOk(s) && ActorsOk(s) && s.tx == Some(tx) && s'.tx == None && s'.actors == s.actors
    requires forall id :: Launched(s.lobby, id) ==> Launched(s'.lobby, id)
    requires tx.pid in s'.procs && s'.procs == s.procs[tx.pid := s'.procs[tx.pid]] && !s'.procs[tx.pid].InTx?
    requires s'.procs[tx.pid].Spawning? ==> Launched(s'.lobby, s'.procs[tx.pid].id)
    ensures LockOk(s') && ActorsOk(s')
  {
  }

  lemma HolderMovesOk(s: Sys, tx: Tx)
    requires SysOk(s) && s.tx == Some(tx)
    ensures SysOk(HolderMoves(s, tx).0)
  {
    match tx.phase {
      case Locked => AfterLockOk(s, tx);
      case SawMembers(seen) => if tx.op.Start? { DecideStartOk(s, tx, seen); } else { DecideJoinOk(s, tx, seen); }
      case DeletedOwn => InPhaseOk(s, tx.(phase := SawRest(s.lobby.members - {tx.op.user})), s.clock);
      case SawRest(rest) => AfterRestOk(s, tx, rest);
      case Wrote(d) => CommitOk(s, tx, d);
    }
  }

  lemma MoveOk(s: Sys, c: Choice)
    requires SysOk(s)
    ensures SysOk(Move(s, c).0)
  {
    if c.pid in s.procs && c.Advance? {
      if s.procs[c.pid].Waiting? { FirstStatementOk(s, c.pid); }
      if s.procs[c.pid].InTx? { HolderMovesOk(s, s.tx.value); }
    }
  }

  // ---------------------------------------------------------------- each move keeps the serial order

  lemma UnsettledKeepsLog(procs: map<Pid, Status>, log: seq<Entry>, pid: Pid, st: Status)
    requires LogOk(procs, log) && pid in procs
    requires !procs[pid].Done? && !procs[pid].Spawning? && !st.Done? && !st.Spawning?
    ensures LogOk(procs[pid := st], log)
  {
    forall i | 0 <= i < |log| ensures Settled(procs[pid := st], log[i]) {
      assert Settled(procs, log[i]);
    }
  }

  lemma SpawnedKeepsLog(procs: map<Pid, Status>, log: seq<Entry>, pid: Pid)
    requires LogOk(procs, log) && pid in procs && procs[pid].Spawning?
    ensures LogOk(procs[pid := Done(procs[pid].op, Ok)], log)
  {
    forall i | 0 <= i < |log| ensures Settled(procs[pid := Done(procs[pid].op, Ok)], log[i]) {
      assert Settled(procs, log[i]);
    }
    assert Logged(log, pid);
  }

  lemma PlacedKeepsLog(procs: map<Pid, Status>, log: seq<Entry>, e: Entry, at: nat, st: Status)
    requires LogOk(procs, log) && e.pid in procs && !procs[e.pid].Done? && !procs[e.pid].Spawning?
    requires at <= |log| && Settled(procs[e.pid := st], e)
    ensures LogOk(procs[e.pid := st], Placed(log, at, e))
  {
    var procs', log' := procs[e.pid := st], Placed(log, at, e);
    assert |log'| == |log| + 1 && log'[at] == e;
    forall i | 0 <= i < |log'| && i != at
      ensures log'[i] == log[if i < at then i else i - 1] && Settled(procs, log'[i])
    {
    }
    forall i, j | 0 <= i < j < |log'| ensures log'[i].pid != log'[j].pid {
      assert i != at ==> Settled(procs, log'[i]);
      assert j != at ==> Settled(procs, log'[j]);
    }
    forall p | p in procs' && (procs'[p].Done? || procs'[p].Spawning?) ensures Logged(log', p) {
      if p == e.pid {
        assert log'[at].pid == p;
      } else {
        assert Logged(log, p);
        var i :| 0 <= i < |log| && log[i].pid == p;
        assert log'[if i < at then i else i + 1].pid == p;
      }
    }
  }

  lemma AppendedKeepsLog(procs: map<Pid, Status>, log: seq<Entry>, e: Entry, st: Status)
    requires LogOk(procs, log) && e.pid in procs && !procs[e.pid].Done? && !procs[e.pid].Spawning?
    requires Settled(procs[e.pid := st], e)
    ensures LogOk(procs[e.pid := st], log + [e])
  {
    assert Placed(log, |log|, e) == log + [e];
    PlacedKeepsLog(procs, log, e, |log|, st);
  }

  /** A quiet operation settling beside the Start in flight leaves the Start where it is. */
  lemma QuietKeepsStartPlaced(l: Lobby, h: History, l0: Lobby, e: Entry, l': Lobby)
    requires StartPlaced(l, h, l0) && Quiet(l.room, e.op) && Apply(l, e.op) == (l', e.r)
    ensures StartPlaced(l', h.(log := h.log + [e]), l0) && AsRead(l', h) == AsRead(l, h)
  {
    var k, log' := h.readAt, h.log + [e];
    assert log'[..k] == h.log[..k] && log'[k..] == h.log[k..] + [e];
    ReplaysOneMore(AsRead(l, h), h.log[k..], l, e, l');
  }

  lemma QuietKeepsStart(l: Lobby, h: History, l0: Lobby, e: Entry, l': Lobby, tx: Tx)
    requires StartOk(l, h, l0, tx) && Quiet(l.room, e.op) && Apply(l, e.op) == (l', e.r)
    ensures StartOk(l', h.(log := h.log + [e]), l0, tx)
  {
    if tx.op.Start? && (tx.phase.SawMembers? || tx.phase.Wrote?) {
      QuietKeepsStartPlaced(l, h, l0, e, l');
      var h' := h.(log := h.log + [e]);
      assert AsRead(l', h') == AsRead(l, h);
    }
  }

  /** An answer given beside the lock holder, at once. */
  lemma SettlesAlone(s: Sys, h: History, l0: Lobby, e: Entry, l': Lobby)
    requires OrderOk(s, h, l0) && e.pid in s.procs && s.procs[e.pid].Waiting? && Apply(s.lobby, e.op) == (l', e.r)
    requires s.tx.Some? && s.tx.value.op.Start? && (s.tx.value.phase.SawMembers? || s.tx.value.phase.Wrote?) ==>
               Quiet(s.lobby.room, e.op)
    ensures OrderOk(s.(lobby := l', procs := s.procs[e.pid := Done(e.op, e.r)]), h.(log := h.log + [e]), l0)
  {
    ReplaysOneMore(l0, h.log, s.lobby, e, l');
    AppendedKeepsLog(s.procs, h.log, e, Done(e.op, e.r));
    if s.tx.Some? && s.tx.value.op.Start? && (s.tx.value.phase.SawMembers? || s.tx.value.phase.Wrote?) {
      QuietKeepsStart(s.lobby, h, l0, e, l', s.tx.value);
    }
  }

  lemma FirstStatementPlaced(s: Sys, h: History, l0: Lobby, pid: Pid)
    requires OrderOk(s, h, l0) && pid in s.procs && s.procs[pid].Waiting?
    requires s.tx.Some? ==> HolderOk(s.lobby, s.clock, s.tx.value)
    ensures var (s', note) := FirstStatement(s, pid, s.procs[pid].op); OrderOk(s', Record(h, note, s.lobby.members), l0)
  {
    var op := s.procs[pid].op;
    var (s', note) := FirstStatement(s, pid, op);
    if note.Settles? {
      SettlesAlone(s, h, l0, note.e, s'.lobby);
    } else if s' != s {
      UnsettledKeepsLog(s.procs, h.log, pid, InTx);
    }
  }

  /** An answer settled by the holder at the end of the order: it is what the operation answers now. */
  lemma HolderSettlesLast(s: Sys, h: History, l0: Lobby, e: Entry, l': Lobby)
    requires OrderOk(s, h, l0) && e.pid in s.procs && s.procs[e.pid] == InTx && Apply(s.lobby, e.op) == (l', e.r)
    ensures Replays(l0, h.log + [e], l') && LogOk(s.procs[e.pid := Done(e.op, e.r)], h.log + [e])
  {
    ReplaysOneMore(l0, h.log, s.lobby, e, l');
    AppendedKeepsLog(s.procs, h.log, e, Done(e.op, e.r));
  }

  /** The state of the lock holder, without what does not concern the serial order. */
  ghost predicate Holds(s: Sys, h: History, l0: Lobby, tx: Tx) {
    && s.tx == Some(tx) && tx.pid in s.procs && s.procs[tx.pid] == InTx
    && HolderOk(s.lobby, s.clock, tx) && OrderOk(s, h, l0)
  }

  lemma StartReadPlaced(l: Lobby, h: History, l0: Lobby)
    requires Replays(l0, h.log, l)
    ensures StartPlaced(l, Record(h, StartRead, l.members), l0)
  {
    assert h.log[..|h.log|] == h.log && h.log[|h.log|..] == [];
    assert AsRead(l, Record(h, StartRead, l.members)) == l;
  }

  lemma AfterLockAnswers(s: Sys, tx: Tx)
    requires HolderOk(s.lobby, s.clock, tx) && AfterLock(s, tx).1.Settles?
    ensures AfterLock(s, tx) == RollBack(s, tx, AfterLock(s, tx).1.e.r)
    ensures Apply(s.lobby, tx.op) == (s.lobby, AfterLock(s, tx).1.e.r)
  {
  }

  lemma AfterLockPlaced(s: Sys, h: History, l0: Lobby, tx: Tx)
    requires Holds(s, h, l0, tx) && tx.phase.Locked?
    ensures var (s', note) := AfterLock(s, tx); OrderOk(s', Record(h, note, s.lobby.members), l0)
  {
    var note := AfterLock(s, tx).1;
    if note.Settles? {
      AfterLockAnswers(s, tx);
      HolderSettlesLast(s, h, l0, Entry(tx.pid, tx.op, note.e.r), s.lobby);
    } else if note.StartRead? {
      StartReadPlaced(s.lobby, h, l0);
    }
  }

  lemma DecideJoinPlaced(s: Sys, h: History, l0: Lobby, tx: Tx, seen: Members)
    requires Holds(s, h, l0, tx) && tx.phase == SawMembers(seen) && !tx.op.Start?
    ensures var (s', note) := DecideJoin(s, tx, seen); OrderOk(s', Record(h, note, s.lobby.members), l0)
  {
    var (s', note) := DecideJoin(s, tx, seen);
    JoinDecided(s.lobby, tx.op, seen, s.clock);
    if note.Settles? {
      HolderSettlesLast(s, h, l0, note.e, s.lobby);
    }
  }

  /** Placing an answer where the Start read, when the room then and now differ from before by `a` and `b`. */
  lemma PlacedReplays(l0: Lobby, h: History, l: Lobby, e: Entry, a: Lobby, b: Lobby)
    requires StartPlaced(l, h, l0) && Apply(AsRead(l, h), e.op) == (a, e.r) && Replays(a, h.log[h.readAt..], b)
    ensures Replays(l0, Placed(h.log, h.readAt, e), b)
  {
    ReplaysOneMore(l0, h.log[..h.readAt], AsRead(l, h), e, a);
    ReplaysThen(l0, h.log[..h.readAt] + [e], a, h.log[h.readAt..], b);
  }

  lemma DecideStartPlaced(s: Sys, h: History, l0: Lobby, tx: Tx, seen: Members)
    requires Holds(s, h, l0, tx) && tx.phase == SawMembers(seen) && tx.op.Start?
    ensures var (s', note) := DecideStart(s, tx, seen); OrderOk(s', Record(h, note, s.lobby.members), l0)
  {
    var (s', note) := DecideStart(s, tx, seen);
    var read := AsRead(s.lobby, h);
    StartDecides(read, tx.op);
    if note.SettlesWhereRead? {
      StartFailsWhereItRead(s, h, l0, note.e);
    }
  }

  lemma StartFailsWhereItRead(s: Sys, h: History, l0: Lobby, e: Entry)
    requires OrderOk(s, h, l0) && StartPlaced(s.lobby, h, l0) && e.pid in s.procs && s.procs[e.pid] == InTx
    requires Apply(AsRead(s.lobby, h), e.op) == (AsRead(s.lobby, h), e.r)
    ensures Replays(l0, Placed(h.log, h.readAt, e), s.lobby)
    ensures LogOk(s.procs[e.pid := Done(e.op, e.r)], Placed(h.log, h.readAt, e))
  {
    PlacedReplays(l0, h, s.lobby, e, AsRead(s.lobby, h), s.lobby);
    PlacedKeepsLog(s.procs, h.log, e, h.readAt, Done(e.op, e.r));
  }

  lemma StartDecides(l: Lobby, op: Op)
    requires op.Start?
    ensures var (r, input) := StartDecision(l.room, l.members, op.user);
            Apply(l, op) == if input.None? then (l, r) else (Written(l, Launch(Match(op.matchId, input.value))), Ok)
  {
  }

  /** A Start that commits settles where it read: the quiet operations since are replayed after it. */
  lemma LaunchSettlesWhereItRead(s: Sys, h: History, l0: Lobby, e: Entry, d: Delta)
    requires OrderOk(s, h, l0) && StartPlaced(s.lobby, h, l0) && e.pid in s.procs && s.procs[e.pid] == InTx && d.Launch?
    requires Apply(AsRead(s.lobby, h), e.op) == (Written(AsRead(s.lobby, h), d), e.r) && e.r == Ok
    ensures Replays(l0, Placed(h.log, h.readAt, e), Written(s.lobby, d))
    ensures LogOk(s.procs[e.pid := Spawning(e.op, d.m.id)], Placed(h.log, h.readAt, e))
  {
    var read := AsRead(s.lobby, h);
    QuietCommutesWithLaunch(read, h.log[h.readAt..], s.lobby, d.m);
    PlacedReplays(l0, h, s.lobby, e, Written(read, d), Written(s.lobby, d));
    PlacedKeepsLog(s.procs, h.log, e, h.readAt, Spawning(e.op, d.m.id));
  }

  lemma LaunchPlaced(s: Sys, h: History, l0: Lobby, tx: Tx, d: Delta)
    requires Holds(s, h, l0, tx) && tx.phase == Wrote(d) && d.Launch?
    ensures var (s', note) := Commit(s, tx, d); OrderOk(s', Record(h, note, s.lobby.members), l0)
  {
    LaunchSettlesWhereItRead(s, h, l0, Entry(tx.pid, tx.op, Ok), d);
  }

  lemma DeltaPlaced(s: Sys, h: History, l0: Lobby, tx: Tx, d: Delta)
    requires Holds(s, h, l0, tx) && tx.phase == Wrote(d) && !d.Launch?
    ensures var (s', note) := Commit(s, tx, d); OrderOk(s', Record(h, note, s.lobby.members), l0)
  {
    assert Apply(s.lobby, tx.op) == (Written(s.lobby, d), Ok);
    HolderSettlesLast(s, h, l0, Entry(tx.pid, tx.op, Ok), Written(s.lobby, d));
  }

  lemma CommitPlaced(s: Sys, h: History, l0: Lobby, tx: Tx, d: Delta)
    requires Holds(s, h, l0, tx) && tx.phase == Wrote(d)
    ensures var (s', note) := Commit(s, tx, d); OrderOk(s', Record(h, note, s.lobby.members), l0)
  {
    if d.Launch? { LaunchPlaced(s, h, l0, tx, d); } else { DeltaPlaced(s, h, l0, tx, d); }
  }

  lemma HolderMovesPlaced(s: Sys, h: History, l0: Lobby, tx: Tx)
    requires Holds(s, h, l0, tx)
    ensures var (s', note) := HolderMoves(s, tx); OrderOk(s', Record(h, note, s.lobby.members), l0)
  {
    match tx.phase {
      case Locked => AfterLockPlaced(s, h, l0, tx);
      case SawMembers(seen) =>
        if tx.op.Start? { DecideStartPlaced(s, h, l0, tx, seen); } else { DecideJoinPlaced(s, h, l0, tx, seen); }
      case DeletedOwn =>
      case SawRest(rest) =>
      case Wrote(d) => CommitPlaced(s, h, l0, tx, d);
    }
  }

  /** Aborting leaves the room, the actors and the serial order as they were. */
  lemma AbortPlaced(s: Sys, h: History, l0: Lobby, pid: Pid)
    requires Inv(s, h, l0) && pid in s.procs
    ensures OrderOk(Aborting(s, pid), h, l0) && Aborting(s, pid).lobby == s.lobby && Aborting(s, pid).actors == s.actors
  {
    if s.procs[pid].Waiting? || s.procs[pid].InTx? {
      UnsettledKeepsLog(s.procs, h.log, pid, Aborted);
    }
  }

  lemma MovePlaced(s: Sys, h: History, l0: Lobby, c: Choice)
    requires Inv(s, h, l0)
    ensures var (s', note) := Move(s, c); OrderOk(s', Record(h, note, s.lobby.members), l0)
  {
    if c.pid in s.procs {
      if c.Abort? {
        AbortPlaced(s, h, l0, c.pid);
      } else if s.procs[c.pid].Spawning? {
        SpawnedKeepsLog(s.procs, h.log, c.pid);
      } else if s.procs[c.pid].Waiting? {
        FirstStatementPlaced(s, h, l0, c.pid);
      } else if s.procs[c.pid].InTx? {
        HolderMovesPlaced(s, h, l0, s.tx.value);
      }
    }
  }

  lemma MoveKeeps(s: Sys, h: History, l0: Lobby, c: Choice)
    requires Inv(s, h, l0)
    ensures var (s', note) := Move(s, c); Inv(s', Record(h, note, s.lobby.members), l0)
  {
    MoveOk(s, c);
    MovePlaced(s, h, l0, c);
  }

  lemma {:induction false} RunKeeps(s: Sys, h: History, schedule: seq<Choice>, l0: Lobby)
    requires Inv(s, h, l0)
    ensures var (t, h') := Run(s, h, schedule); Inv(t, h', l0)
    decreases |schedule|
  {
    if schedule != [] {
      MoveKeeps(s, h, l0, schedule[0]);
      var (s', note) := Move(s, schedule[0]);
      RunKeeps(s', Record(h, note, s.lobby.members), schedule[1..], l0);
    }
  }
}
