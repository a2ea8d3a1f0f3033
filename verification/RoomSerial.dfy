/** What every schedule of a room's transactions guarantees (internal/rooms/service.go): a serial order of the requests
    that were made, rooms that never reopen, and at most one match. */
module RoomSerial {
  import opened Basics
  import opened Rooms
  import opened RoomSchedule
  import opened RoomAnswers

  /** The same caller's same request; only the clock reading of an insert is chosen on the way. */
  predicate SameRequest(a: Op, b: Op) {
    a == b || (a.Join? && b.Join? && a.user == b.user)
    || (a.JoinByCode? && b.JoinByCode? && a.code == b.code && a.user == b.user)
  }

  /** Until it commits, a transaction changes nothing that others can see, and it stays the same caller's request. */
  ghost predicate Private(s: Sys, s': Sys, tx: Tx) {
    && s'.lobby == s.lobby && s'.actors == s.actors
    && (s'.procs == s.procs || exists r :: s'.procs == s.procs[tx.pid := Done(tx.op, r)])
    && (s'.tx.Some? ==> s'.tx == s.tx || (s'.tx.value.pid == tx.pid && SameRequest(s'.tx.value.op, tx.op)))
  }

  lemma UncommittedIsPrivate(s: Sys, tx: Tx)
    requires !tx.phase.Wrote?
    ensures Private(s, HolderMoves(s, tx).0, tx)
  {
    var (s', note) := HolderMoves(s, tx);
    if note.Settles? || note.SettlesWhereRead? {
      assert s'.procs == s.procs[tx.pid := Done(tx.op, note.e.r)];
    }
  }

  /** What a process is working on, or has answered, is what it was asked. */
  ghost predicate Answers(st: Status, op: Op) {
    match st
    case Waiting(o) => o == op
    case Spawning(o, _) => SameRequest(o, op)
    case Done(o, _) => SameRequest(o, op)
    case _ => true
  }

  ghost predicate AsAsked(s: Sys, asked: map<Pid, Op>) {
    && s.procs.Keys == asked.Keys
    && (forall p :: p in asked ==> Answers(s.procs[p], asked[p]))
    && (s.tx.Some? ==> s.tx.value.pid in asked && SameRequest(s.tx.value.op, asked[s.tx.value.pid]))
  }

  lemma HolderStaysAsAsked(s: Sys, tx: Tx, asked: map<Pid, Op>)
    requires AsAsked(s, asked) && s.tx == Some(tx)
    ensures AsAsked(HolderMoves(s, tx).0, asked)
  {
    if !tx.phase.Wrote? { UncommittedIsPrivate(s, tx); }
  }

  lemma FirstStaysAsAsked(s: Sys, pid: Pid, asked: map<Pid, Op>)
    requires AsAsked(s, asked) && pid in s.procs && s.procs[pid].Waiting?
    ensures AsAsked(FirstStatement(s, pid, s.procs[pid].op).0, asked)
  {
  }

  lemma MoveStaysAsAsked(s: Sys, c: Choice, asked: map<Pid, Op>)
    requires AsAsked(s, asked)
    ensures AsAsked(Move(s, c).0, asked)
  {
    if c.pid in s.procs && c.Advance? {
      if s.procs[c.pid].Waiting? {
        FirstStaysAsAsked(s, c.pid, asked);
      } else if s.procs[c.pid].InTx? && s.tx.Some? && s.tx.value.pid == c.pid {
        HolderStaysAsAsked(s, s.tx.value, asked);
      }
    }
  }

  lemma {:induction false} RunStaysAsAsked(s: Sys, h: History, schedule: seq<Choice>, asked: map<Pid, Op>)
    requires AsAsked(s, asked)
    ensures AsAsked(Run(s, h, schedule).0, asked)
    decreases |schedule|
  {
    if schedule != [] {
      MoveStaysAsAsked(s, schedule[0], asked);
      var (s', note) := Move(s, schedule[0]);
      RunStaysAsAsked(s', Record(h, note, s.lobby.members), schedule[1..], asked);
    }
  }

  /** Every logged operation is the one its process was asked for. */
  ghost predicate LogAsAsked(procs: map<Pid, Status>, log: seq<Entry>) {
    forall i | 0 <= i < |log| ::
      && log[i].pid in procs && procs[log[i].pid].Waiting?
      && SameRequest(log[i].op, procs[log[i].pid].op)
  }

  lemma SettledAsAsked(s: Sys, t: Sys, log: seq<Entry>, asked: map<Pid, Op>)
    requires Initial(s) && AsAsked(s, asked) && AsAsked(t, asked) && LogOk(t.procs, log)
    ensures LogAsAsked(s.procs, log)
  {
    forall i | 0 <= i < |log|
      ensures log[i].pid in s.procs && SameRequest(log[i].op, s.procs[log[i].pid].op)
    {
      assert Settled(t.procs, log[i]) && Answers(t.procs[log[i].pid], asked[log[i].pid]);
    }
  }

  /** For every schedule from an initial state: `log` is a serial order of exactly the settled operations, each of them
      what its process was asked for, that gives every answer and the final room; the room is in order; the seat index
      was never hit; actors run only for committed matches. */
  lemma Serializable(s: Sys, schedule: seq<Choice>)
    requires Initial(s)
    ensures var (t, h) := Run(s, NO_HISTORY, schedule);
            && t.procs.Keys == s.procs.Keys
            && Replays(s.lobby, h.log, t.lobby) && LogOk(t.procs, h.log) && LogAsAsked(s.procs, h.log)
            && LobbyOk(t.lobby, t.clock) && !t.conflict && ActorsOk(t)
  {
    RunKeeps(s, NO_HISTORY, schedule, s.lobby);
    var asked := map p | p in s.procs :: s.procs[p].op;
    RunStaysAsAsked(s, NO_HISTORY, schedule, asked);
    var (t, h) := Run(s, NO_HISTORY, schedule);
    SettledAsAsked(s, t, h.log, asked);
  }

  lemma MoveNeverReopens(s: Sys, c: Choice)
    requires SysOk(s)
    ensures var s' := Move(s, c).0;
            && (s.lobby.room.state == Closed ==> s'.lobby.room.state == Closed)
            && s.lobby.matches <= s'.lobby.matches && s.actors <= s'.actors
  {
    if c.pid in s.procs && c.Advance? {
      if s.procs[c.pid].Waiting? {
        ApplyNeverReopens(s.lobby, s.procs[c.pid].op);
      } else if s.procs[c.pid].InTx? {
        var tx := s.tx.value;
        if tx.phase.Wrote? { WrittenOk(s, tx, tx.phase.delta); } else { UncommittedIsPrivate(s, tx); }
      }
    }
  }

  /** A closed room never reopens, a match row never disappears. */
  lemma {:induction false} RunNeverReopens(s: Sys, h: History, schedule: seq<Choice>)
    requires SysOk(s)
    ensures var t := Run(s, h, schedule).0;
            && (s.lobby.room.state == Closed ==> t.lobby.room.state == Closed)
            && s.lobby.matches <= t.lobby.matches && s.actors <= t.actors
    decreases |schedule|
  {
    if schedule != [] {
      MoveOk(s, schedule[0]);
      MoveNeverReopens(s, schedule[0]);
      var (s', note) := Move(s, schedule[0]);
      RunNeverReopens(s', Record(h, note, s.lobby.members), schedule[1..]);
    }
  }

  function StartsWon(log: seq<Entry>): nat {
    if log == [] then 0 else (if log[0].op.Start? && log[0].r == Ok then 1 else 0) + StartsWon(log[1..])
  }

  lemma {:induction false} MatchesCountStarts(l0: Lobby, log: seq<Entry>, l1: Lobby)
    requires Replays(l0, log, l1)
    ensures |l1.matches| == |l0.matches| + StartsWon(log)
    decreases |log|
  {
    if log != [] {
      MatchesCountStarts(Apply(l0, log[0].op).0, log[1..], l1);
    }
  }

  lemma {:induction false} StartsCounted(log: seq<Entry>, i: nat)
    requires i < |log| && log[i].op.Start? && log[i].r == Ok
    ensures StartsWon(log) >= 1
    ensures forall j | i < j < |log| && log[j].op.Start? && log[j].r == Ok :: StartsWon(log) >= 2
    decreases |log|
  {
    if i > 0 {
      StartsCounted(log[1..], i - 1);
      forall j | i < j < |log| && log[j].op.Start? && log[j].r == Ok ensures StartsWon(log) >= 2 {
        assert log[1..][j - 1] == log[j];
      }
    } else {
      forall j | i < j < |log| && log[j].op.Start? && log[j].r == Ok ensures StartsWon(log) >= 2 {
        StartsCounted(log[1..], j - 1);
      }
    }
  }

  predicate WonStart(st: Status) {
    (st.Done? && st.op.Start? && st.r == Ok) || (st.Spawning? && st.op.Start?)
  }

  lemma LoggedStart(procs: map<Pid, Status>, log: seq<Entry>, p: Pid) returns (i: nat)
    requires LogOk(procs, log) && p in procs && WonStart(procs[p])
    ensures i < |log| && log[i].pid == p && log[i].op.Start? && log[i].r == Ok
  {
    assert Logged(log, p);
    i :| 0 <= i < |log| && log[i].pid == p;
    assert Settled(procs, log[i]);
  }

  /** Over every run at most one Start is answered with a match, there is a match row exactly when one is, and then the
      room is closed; Starts that fail or abort leave no row. */
  lemma AtMostOneStartWins(s: Sys, schedule: seq<Choice>)
    requires Initial(s) && s.lobby.matches == []
    ensures var (t, h) := Run(s, NO_HISTORY, schedule);
            && StartsWon(h.log) == |t.lobby.matches| <= 1
            && (t.lobby.matches != [] ==> t.lobby.room.state == Closed)
            && (forall p, q | p in t.procs && q in t.procs && WonStart(t.procs[p]) && WonStart(t.procs[q]) :: p == q)
  {
    RunKeeps(s, NO_HISTORY, schedule, s.lobby);
    var (t, h) := Run(s, NO_HISTORY, schedule);
    MatchesCountStarts(s.lobby, h.log, t.lobby);
    forall p, q | p in t.procs && q in t.procs && WonStart(t.procs[p]) && WonStart(t.procs[q]) ensures p == q {
      var i := LoggedStart(t.procs, h.log, p);
      var j := LoggedStart(t.procs, h.log, q);
      StartsCounted(h.log, i);
      StartsCounted(h.log, j);
    }
  }

  // ---------------------------------------------------------------- what a winning Start had read

  /** The states of a run, the first one included. */
  ghost function States(s: Sys, schedule: seq<Choice>): (r: seq<Sys>)
    ensures |r| == |schedule| + 1 && r[0] == s
    decreases |schedule|
  {
    [s] + if schedule == [] then [] else States(Move(s, schedule[0]).0, schedule[1..])
  }

  ghost predicate Holding(s: Sys, pid: Pid) {
    s.tx.Some? && s.tx.value.pid == pid
  }

  /** At some moment of the past `pid` held the row lock of a room that was open, full and all ready, with `user` as
      its host. */
  ghost predicate HeldReadyRoom(past: seq<Sys>, pid: Pid, user: Id) {
    exists k :: 0 <= k < |past| && Holding(past[k], pid) && MayStart(past[k].lobby, user)
  }

  /** At some moment of the past `pid` held the row lock of a room with this row and these members. */
  ghost predicate ReadThen(past: seq<Sys>, pid: Pid, row: Room, ms: Members) {
    exists k :: 0 <= k < |past| && Holding(past[k], pid) && past[k].lobby.room == row && past[k].lobby.members == ms
  }

  /** A Start knows only what it has read, and went on only from a room that could start. */
  ghost predicate HolderRead(past: seq<Sys>, tx: Tx) {
    tx.op.Start? ==>
      && (tx.phase.SawMembers? ==> ReadThen(past, tx.pid, tx.row, tx.phase.seen))
      && (tx.phase.Wrote? ==> HeldReadyRoom(past, tx.pid, tx.op.user))
  }

  ghost predicate StartsRead(s: Sys, past: seq<Sys>) {
    && (s.tx.Some? ==> HolderRead(past, s.tx.value))
    && (forall p :: p in s.procs && WonStart(s.procs[p]) ==> HeldReadyRoom(past, p, s.procs[p].op.user))
  }

  lemma PastGrows(s: Sys, past: seq<Sys>, more: seq<Sys>)
    requires StartsRead(s, past)
    ensures StartsRead(s, past + more)
  {
    assert forall k | 0 <= k < |past| :: (past + more)[k] == past[k];
  }

  lemma DecideStartRead(s: Sys, tx: Tx, seen: Members, past: seq<Sys>)
    requires s.tx == Some(tx) && tx.op.Start? && tx.phase == SawMembers(seen) && StartsRead(s, past)
    ensures StartsRead(DecideStart(s, tx, seen).0, past)
  {
    StartOkMeans(Lobby(tx.row, seen, []), tx.op.user, tx.op.matchId);
    var k :| && 0 <= k < |past| && Holding(past[k], tx.pid)
             && past[k].lobby.room == tx.row && past[k].lobby.members == seen;
    assert StartDecision(tx.row, seen, tx.op.user).0 == Ok ==> MayStart(past[k].lobby, tx.op.user);
  }

  /** Only the caller's own status changes, and it does not become that of a winner. */
  lemma NobodyWins(s: Sys, s': Sys, pid: Pid, st: Status, past: seq<Sys>)
    requires StartsRead(s, past) && !WonStart(st)
    requires s'.procs == s.procs || s'.procs == s.procs[pid := st]
    requires s'.tx.Some? ==> HolderRead(past, s'.tx.value)
    ensures StartsRead(s', past)
  {
  }

  lemma AfterLockRead(s: Sys, tx: Tx, past: seq<Sys>)
    requires s.tx == Some(tx) && tx.phase == Locked && StartsRead(s, past) && tx.row == s.lobby.room
    requires past != [] && past[|past| - 1] == s
    ensures StartsRead(AfterLock(s, tx).0, past)
  {
    var (s', note) := AfterLock(s, tx);
    assert ReadThen(past, tx.pid, tx.row, s.lobby.members);
    NobodyWins(s, s', tx.pid, if note.Settles? then Done(tx.op, note.e.r) else InTx, past);
  }

  lemma CommitRead(s: Sys, tx: Tx, d: Delta, past: seq<Sys>)
    requires s.tx == Some(tx) && tx.phase == Wrote(d) && StartsRead(s, past)
    ensures StartsRead(Commit(s, tx, d).0, past)
  {
  }

  lemma OthersRead(s: Sys, tx: Tx, past: seq<Sys>)
    requires s.tx == Some(tx) && !tx.op.Start? && !tx.phase.Wrote? && !tx.phase.Locked? && StartsRead(s, past)
    ensures StartsRead(HolderMoves(s, tx).0, past)
  {
    var (s', note) := HolderMoves(s, tx);
    NobodyWins(s, s', tx.pid, if note.Settles? then Done(tx.op, note.e.r) else InTx, past);
  }

  lemma HolderMovesRead(s: Sys, tx: Tx, past: seq<Sys>)
    requires SysOk(s) && s.tx == Some(tx) && StartsRead(s, past) && past != [] && past[|past| - 1] == s
    ensures StartsRead(HolderMoves(s, tx).0, past)
  {
    if tx.phase.Locked? {
      AfterLockRead(s, tx, past);
    } else if tx.phase.Wrote? {
      CommitRead(s, tx, tx.phase.delta, past);
    } else if tx.op.Start? {
      DecideStartRead(s, tx, tx.phase.seen, past);
    } else {
      OthersRead(s, tx, past);
    }
  }

  lemma FirstRead(s: Sys, p: Pid, past: seq<Sys>)
    requires StartsRead(s, past) && p in s.procs && s.procs[p].Waiting?
    ensures StartsRead(FirstStatement(s, p, s.procs[p].op).0, past)
  {
    var s' := FirstStatement(s, p, s.procs[p].op).0;
    NobodyWins(s, s', p, s'.procs[p], past);
  }

  lemma AbortRead(s: Sys, p: Pid, past: seq<Sys>)
    requires StartsRead(s, past) && p in s.procs
    ensures StartsRead(Aborting(s, p), past)
  {
    if s.procs[p].Waiting? || s.procs[p].InTx? { NobodyWins(s, Aborting(s, p), p, Aborted, past); }
  }

  lemma MoveRead(s: Sys, c: Choice, past: seq<Sys>)
    requires SysOk(s) && StartsRead(s, past) && past != [] && past[|past| - 1] == s
    ensures StartsRead(Move(s, c).0, past)
  {
    if c.pid in s.procs {
      if c.Abort? {
        AbortRead(s, c.pid, past);
      } else if s.procs[c.pid].Waiting? {
        FirstRead(s, c.pid, past);
      } else if s.procs[c.pid].InTx? {
        HolderMovesRead(s, s.tx.value, past);
      }
    }
  }

  lemma StepReads(s: Sys, c: Choice, before: seq<Sys>)
    requires SysOk(s) && StartsRead(s, before + [s])
    ensures SysOk(Move(s, c).0) && StartsRead(Move(s, c).0, before + [s] + [Move(s, c).0])
  {
    MoveOk(s, c);
    MoveRead(s, c, before + [s]);
    PastGrows(Move(s, c).0, before + [s], [Move(s, c).0]);
  }

  lemma FirstState(s: Sys, schedule: seq<Choice>, before: seq<Sys>)
    requires schedule != []
    ensures before + States(s, schedule) == before + [s] + States(Move(s, schedule[0]).0, schedule[1..])
  {
  }

  lemma {:induction false} RunReads(s: Sys, h: History, schedule: seq<Choice>, before: seq<Sys>)
    requires SysOk(s) && StartsRead(s, before + [s])
    ensures StartsRead(Run(s, h, schedule).0, before + States(s, schedule))
    decreases |schedule|
  {
    if schedule == [] {
      assert States(s, schedule) == [s];
    } else {
      var (s', note) := Move(s, schedule[0]);
      StepReads(s, schedule[0], before);
      RunReads(s', Record(h, note, s.lobby.members), schedule[1..], before + [s]);
      FirstState(s, schedule, before);
    }
  }

  /** Over every run: a Start that won held, at some moment, the row lock of a room that was open, full and all ready
      and that its caller hosted. */
  lemma WinnersReadReadyRooms(s: Sys, schedule: seq<Choice>, p: Pid)
    requires Initial(s) && p in Run(s, NO_HISTORY, schedule).0.procs
    requires WonStart(Run(s, NO_HISTORY, schedule).0.procs[p])
    ensures HeldReadyRoom(States(s, schedule), p, Run(s, NO_HISTORY, schedule).0.procs[p].op.user)
  {
    RunReads(s, NO_HISTORY, schedule, []);
    assert [] + States(s, schedule) == States(s, schedule);
  }

  // ---------------------------------------------------------------- progress

  /** The process may move now: it holds the lock, or nobody does, or it has only its actor left to spawn. */
  predicate MayMove(s: Sys, p: Pid) {
    && p in s.procs
    && match s.procs[p]
       case Waiting(_) => s.tx == None
       case InTx => s.tx.Some? && s.tx.value.pid == p
       case Spawning(_, _) => true
       case _ => false
  }

  function PhaseRank(phase: Phase): nat {
    match phase
    case Locked => 4
    case SawMembers(_) => 3
    case DeletedOwn => 3
    case SawRest(_) => 2
    case Wrote(d) => if d.Launch? then 2 else 1
  }

  /** How many moves a process has left at most. */
  function MovesLeft(s: Sys, p: Pid): nat
    requires p in s.procs
  {
    match s.procs[p]
    case Waiting(_) => 5
    case Spawning(_, _) => 1
    case InTx => if s.tx == None then 0 else PhaseRank(s.tx.value.phase)
    case _ => 0
  }

  /** A process that is closer to its answer, or has it. */
  ghost predicate Closer(s: Sys, s': Sys, p: Pid) {
    && p in s.procs && p in s'.procs
    && MovesLeft(s', p) < MovesLeft(s, p)
    && (MayMove(s', p) || s'.procs[p].Done?)
  }

  lemma NextPhaseCloser(s: Sys, s': Sys, tx: Tx, op: Op, phase: Phase)
    requires LockOk(s) && s.tx == Some(tx) && s'.procs == s.procs
    requires s'.tx == Some(tx.(op := op, phase := phase))
    requires PhaseRank(phase) < PhaseRank(tx.phase)
    ensures Closer(s, s', tx.pid)
  {
  }

  lemma FinishCloser(s: Sys, s': Sys, tx: Tx, st: Status)
    requires LockOk(s) && s.tx == Some(tx) && s'.procs == s.procs[tx.pid := st]
    requires st.Done? || (st.Spawning? && PhaseRank(tx.phase) > 1)
    ensures Closer(s, s', tx.pid)
  {
  }

  lemma SeenProgresses(s: Sys, tx: Tx, seen: Members)
    requires LockOk(s) && s.tx == Some(tx) && tx.phase == SawMembers(seen)
    ensures Closer(s, HolderMoves(s, tx).0, tx.pid)
  {
    var s' := HolderMoves(s, tx).0;
    if s'.tx.Some? {
      NextPhaseCloser(s, s', tx, s'.tx.value.op, s'.tx.value.phase);
    } else {
      FinishCloser(s, s', tx, s'.procs[tx.pid]);
    }
  }

  lemma LeaveProgresses(s: Sys, tx: Tx)
    requires LockOk(s) && s.tx == Some(tx) && (tx.phase.DeletedOwn? || tx.phase.SawRest?)
    ensures Closer(s, HolderMoves(s, tx).0, tx.pid)
  {
    NextPhaseCloser(s, HolderMoves(s, tx).0, tx, tx.op, HolderMoves(s, tx).0.tx.value.phase);
  }

  lemma CommitProgresses(s: Sys, tx: Tx, d: Delta)
    requires LockOk(s) && s.tx == Some(tx) && tx.phase == Wrote(d)
    ensures Closer(s, Commit(s, tx, d).0, tx.pid)
  {
    FinishCloser(s, Commit(s, tx, d).0, tx, Commit(s, tx, d).0.procs[tx.pid]);
  }

  lemma HolderProgresses(s: Sys, tx: Tx)
    requires SysOk(s) && s.tx == Some(tx)
    ensures Closer(s, HolderMoves(s, tx).0, tx.pid)
  {
    if tx.phase.Locked? {
      LockedProgresses(s, tx);
    } else if tx.phase.SawMembers? {
      SeenProgresses(s, tx, tx.phase.seen);
    } else if tx.phase.Wrote? {
      CommitProgresses(s, tx, tx.phase.delta);
    } else {
      LeaveProgresses(s, tx);
    }
  }

  lemma LockedProgresses(s: Sys, tx: Tx)
    requires SysOk(s) && s.tx == Some(tx) && tx.phase.Locked?
    ensures Closer(s, AfterLock(s, tx).0, tx.pid)
  {
    var (s', note) := AfterLock(s, tx);
    if s'.tx.Some? {
      NextPhaseCloser(s, s', tx, tx.op, s'.tx.value.phase);
    } else {
      FinishCloser(s, s', tx, s'.procs[tx.pid]);
    }
  }

  lemma FirstProgresses(s: Sys, p: Pid)
    requires p in s.procs && s.procs[p].Waiting? && s.tx == None
    ensures Closer(s, FirstStatement(s, p, s.procs[p].op).0, p)
  {
  }

  lemma MoveProgresses(s: Sys, p: Pid)
    requires SysOk(s) && MayMove(s, p)
    ensures Closer(s, Move(s, Advance(p)).0, p)
  {
    if s.procs[p].InTx? {
      HolderProgresses(s, s.tx.value);
    } else if s.procs[p].Waiting? {
      FirstProgresses(s, p);
    }
  }

  function Advances(p: Pid, n: nat): seq<Choice> {
    if n == 0 then [] else [Advance(p)] + Advances(p, n - 1)
  }

  /** After n moves of its own the process has its answer. */
  ghost predicate Finishes(s: Sys, h: History, p: Pid, n: nat) {
    var t := Run(s, h, Advances(p, n)).0;
    p in t.procs && t.procs[p].Done?
  }

  /** One move gives the answer or brings it closer. */
  lemma OneMove(s: Sys, h: History, p: Pid) returns (s': Sys, h': History, done: bool)
    requires SysOk(s) && MayMove(s, p)
    ensures done ==> Finishes(s, h, p, 1)
    ensures !done ==> SysOk(s') && MayMove(s', p) && MovesLeft(s', p) < MovesLeft(s, p)
    ensures forall n: nat :: Finishes(s', h', p, n) ==> Finishes(s, h, p, n + 1)
    ensures MovesLeft(s, p) >= 1
  {
    s' := Move(s, Advance(p)).0;
    h' := Record(h, Move(s, Advance(p)).1, s.lobby.members);
    MoveProgresses(s, p);
    MoveOk(s, Advance(p));
    forall n: nat ensures Run(s, h, Advances(p, n + 1)) == Run(s', h', Advances(p, n)) {
      assert Advances(p, n + 1)[1..] == Advances(p, n);
    }
    done := s'.procs[p].Done?;
    assert done ==> Finishes(s', h', p, 0);
  }

  lemma {:induction false} FinishesInTime(s: Sys, h: History, p: Pid, left: nat) returns (n: nat)
    requires SysOk(s) && MayMove(s, p) && MovesLeft(s, p) <= left
    ensures n <= left && Finishes(s, h, p, n)
    decreases left
  {
    var s', h', done := OneMove(s, h, p);
    if done { return 1; }
    n := FinishesInTime(s', h', p, left - 1);
    n := n + 1;
  }

  /** Left to itself, a process that may move has its answer within five moves. */
  lemma FinishesInFive(s: Sys, h: History, p: Pid) returns (n: nat)
    requires SysOk(s) && MayMove(s, p)
    ensures n <= 5 && Finishes(s, h, p, n)
  {
    n := FinishesInTime(s, h, p, 5);
  }
}
