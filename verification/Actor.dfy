/** The match actor (internal/matches/actor.go): its goroutine body over every schedule of shot-timer expiries, stop
    commands and cancellation, with database writes that may each fail and be ignored. */
module Actors {
  import opened Basics
  import opened Matches
  import opened Turns

  const INBOX_CAPACITY: nat := 32

  /** The part of a match the actor changes, and the sides it reads. */
  datatype Match = Match(state: State, sides: Sides, turn: Option<TurnRef>, turnStartedAt: Option<int>,
                         startedAt: Option<int>, completedAt: Option<int>)

  /** The same columns in the database; updateMatchState writes the first three, updateMatchTurn the last two. */
  datatype Row = Row(state: State, startedAt: Option<int>, completedAt: Option<int>,
                     turn: Option<TurnRef>, turnStartedAt: Option<int>)

  datatype Kind = MatchStarting | MatchStarted | TurnStarted | MatchEnded

  /** An emitted event, with whether the write that precedes it reached the database. */
  datatype Event = Event(kind: Kind, m: Match, ok: bool)

  /** A clock reading, and whether the write made with it reaches the database. */
  datatype Io = Io(now: int, ok: bool)

  /** What the select statement of the loop picks, or a Stop posted meanwhile. */
  datatype Wake = Cancelled(io: Io) | Command(io: Io) | TimerFired(io: Io) | StopPosted

  /** Everything the actor touches. */
  datatype World = World(m: Match, row: Row, events: seq<Event>, inbox: nat, illegal: bool)

  // ---------------------------------------------------------------- one write at a time

  function Stamped(m: Match, to: State, now: int): Match {
    var m := m.(state := to);
    if to == InProgress then m.(startedAt := if m.startedAt == None then Some(now) else m.startedAt)
    else if to.Terminal() then m.(completedAt := Some(now))
    else m
  }

  function Turned(m: Match, turn: TurnRef, now: int): Match {
    m.(turn := Some(turn), turnStartedAt := Some(now))
  }

  function KindOf(to: State): Kind {
    if to == Starting then MatchStarting else if to == InProgress then MatchStarted else MatchEnded
  }

  /** What a state write stores: completed_at is null unless the state is terminal. */
  function StateStored(row: Row, m: Match): Row {
    row.(state := m.state, startedAt := m.startedAt, completedAt := if m.state.Terminal() then m.completedAt else None)
  }

  function TurnStored(row: Row, m: Match): Row {
    row.(turn := m.turn, turnStartedAt := m.turnStartedAt)
  }

  function Emit(w: World, m: Match, kind: Kind, io: Io): World {
    var stored := if kind == TurnStarted then TurnStored(w.row, m) else StateStored(w.row, m);
    w.(m := m, row := if io.ok then stored else w.row, events := w.events + [Event(kind, m, io.ok)])
  }

  function Goto(w: World, to: State, io: Io): World {
    if !Transition(w.m.state, to) then w.(illegal := true)
    else Emit(w, Stamped(w.m, to, io.now), KindOf(to), io)
  }

  function TakeTurn(w: World, turn: TurnRef, io: Io): World {
    Emit(w, Turned(w.m, turn, io.now), TurnStarted, io)
  }

  function Post(w: World): World {
    if w.inbox < INBOX_CAPACITY then w.(inbox := w.inbox + 1) else w
  }

  // ---------------------------------------------------------------- the goroutine body

  function Boot(w: World, a: Io, b: Io, c: Io): World {
    Goto(TakeTurn(Goto(w, Starting, a), FirstTurn(), b), InProgress, c)
  }

  /** The loop can take its timer branch: there is a turn to advance and a side to advance it to. */
  predicate Playing(w: World) {
    w.m.turn.Some? && BothSidesPlay(w.m.sides)
  }

  /** One round of the loop, and whether the goroutine returns. */
  function Round(w: World, wake: Wake): (r: (World, bool))
    requires Playing(w)
    ensures Playing(r.0)
  {
    match wake
    case Cancelled(io) => (Goto(w, Abandoned, io), true)
    case Command(io) => if w.inbox == 0 then (w, false) else (Goto(w.(inbox := w.inbox - 1), State.Cancelled, io), true)
    case TimerFired(io) => (TakeTurn(w, NextTurn(w.m.sides, w.m.turn.value), io), false)
    case StopPosted => (Post(w), false)
  }

  function Rounds(w: World, wakes: seq<Wake>): (r: (World, bool))
    requires Playing(w)
    ensures Playing(r.0)
    decreases |wakes|
  {
    if wakes == [] then (w, false)
    else
      var (w', ended) := Round(w, wakes[0]);
      if ended then (w', true) else Rounds(w', wakes[1..])
  }

  /** The actor as an object: its fields are its own, and every change goes through transition or setTurn. */
  class Actor {
    var m: Match
    var row: Row
    var events: seq<Event>
    var inbox: nat
    var illegal: bool

    function Whole(): World reads this { World(m, row, events, inbox, illegal) }

    constructor (m: Match, row: Row)
      ensures Whole() == World(m, row, [], 0, false)
    {
      this.m, this.row, events, inbox, illegal := m, row, [], 0, false;
    }

    /** Stop: a non-blocking send on the bounded inbox. */
    method Stop()
      modifies this
      ensures Whole() == Post(old(Whole()))
      ensures inbox == if old(inbox) < 32 then old(inbox) + 1 else old(inbox)
    {
      if inbox < INBOX_CAPACITY { inbox := inbox + 1; }
    }

    method GotoState(to: State, io: Io)
      modifies this
      ensures Whole() == Goto(old(Whole()), to, io)
    {
      if !Transition(m.state, to) {
        illegal := true;
        return;
      }
      m := m.(state := to);
      var startedAt, completedAt := m.startedAt, None;
      if to == InProgress {
        if m.startedAt == None { m := m.(startedAt := Some(io.now)); }
        startedAt := m.startedAt;
      } else if to.Terminal() {
        m := m.(completedAt := Some(io.now));
        completedAt := m.completedAt;
      }
      if io.ok { row := row.(state := to, startedAt := startedAt, completedAt := completedAt); }
      events := events + [Event(KindOf(to), m, io.ok)];
    }

    method SetTurn(turn: TurnRef, io: Io)
      modifies this
      ensures Whole() == TakeTurn(old(Whole()), turn, io)
    {
      m := m.(turn := Some(turn), turnStartedAt := Some(io.now));
      if io.ok { row := row.(turn := m.turn, turnStartedAt := m.turnStartedAt); }
      events := events + [Event(TurnStarted, m, io.ok)];
    }

    /** One turn of run's select. */
    method React(wake: Wake) returns (ended: bool)
      requires Playing(Whole())
      modifies this
      ensures (Whole(), ended) == Round(old(Whole()), wake)
    {
      ended := false;
      match wake {
        case Cancelled(io) =>
          GotoState(Abandoned, io);
          ended := true;
        case Command(io) =>
          if inbox > 0 {
            inbox := inbox - 1;
            GotoState(State.Cancelled, io);
            ended := true;
          }
        case TimerFired(io) =>
          var next := NextTurn(m.sides, m.turn.value);
          SetTurn(next, io);
        case StopPosted =>
          Stop();
      }
    }

    /** run, against the environment's choices `wakes`; it has not returned when they run out. */
    method Run(a: Io, b: Io, c: Io, wakes: seq<Wake>) returns (ended: bool)
      requires BothSidesPlay(m.sides)
      modifies this
      ensures (Whole(), ended) == Rounds(Boot(old(Whole()), a, b, c), wakes)
    {
      GotoState(Starting, a);
      SetTurn(FirstTurn(), b);
      GotoState(InProgress, c);
      ended := false;
      var i := 0;
      ghost var booted := Whole();
      while i < |wakes| && !ended
        invariant 0 <= i <= |wakes| && Playing(booted) && Playing(Whole())
        invariant Rounds(booted, wakes) == if ended then (Whole(), true) else Rounds(Whole(), wakes[i..])
      {
        assert wakes[i..][0] == wakes[i] && wakes[i..][1..] == wakes[i + 1..];
        ended := React(wakes[i]);
        i := i + 1;
      }
    }
  }

  // ---------------------------------------------------------------- what every run keeps

  /** How far a run is; `turns` counts the shot timers that have fired. */
  datatype Stage = Fresh | Announced | Armed | InPlay(turns: nat) | Over(turns: nat) {
    function Turns(): nat { if InPlay? || Over? then turns else 0 }
  }

  /** The kinds of the events emitted so far: starting, turn, started, turn*, ended. */
  function Script(stage: Stage): seq<Kind> {
    match stage
    case Fresh => []
    case Announced => [MatchStarting]
    case Armed => [MatchStarting, TurnStarted]
    case InPlay(n) => [MatchStarting, TurnStarted, MatchStarted] + seq(n, _ => TurnStarted)
    case Over(n) => [MatchStarting, TurnStarted, MatchStarted] + seq(n, _ => TurnStarted) + [MatchEnded]
  }

  predicate StateAt(stage: Stage, s: State) {
    match stage
    case Fresh => s == Waiting
    case Announced => s == Starting
    case Armed => s == Starting
    case InPlay(_) => s == InProgress
    case Over(_) => s == State.Cancelled || s == Abandoned
  }

  /** The stage at which event j was emitted. */
  function StageOf(j: nat, stage: Stage): Stage {
    if j == 0 then Announced else if j == 1 then Armed else if stage.Over? && j == stage.turns + 3 then stage
    else InPlay(j - 2)
  }

  /** A match in memory as it must look at a stage; whose turn it is follows below. */
  predicate MatchAt(m: Match, stage: Stage) {
    && StateAt(stage, m.state)
    && (m.turn.Some? <==> !stage.Fresh? && !stage.Announced?)
    && (m.startedAt.Some? <==> stage.InPlay? || stage.Over?)
    && (m.completedAt.Some? <==> stage.Over?)
  }

  /** What has been emitted by a stage: the right kinds in order, each reporting the memory of its own stage. */
  ghost predicate LogAt(events: seq<Event>, stage: Stage) {
    && |events| == |Script(stage)|
    && (forall j | 0 <= j < |events| :: events[j].kind == Script(stage)[j] && MatchAt(events[j].m, StageOf(j, stage)))
  }

  /** Event i is the last successful write of the state columns (or of the turn columns); -1 when there is none. */
  ghost predicate LastWrite(events: seq<Event>, ofTurn: bool, i: int) {
    && -1 <= i < |events|
    && (i >= 0 ==> events[i].ok && (events[i].kind == TurnStarted) == ofTurn)
    && (forall j :: i < j < |events| && (events[j].kind == TurnStarted) == ofTurn ==> !events[j].ok)
  }

  ghost predicate SameState(a: Row, b: Row) {
    a.state == b.state && a.startedAt == b.startedAt && a.completedAt == b.completedAt
  }

  ghost predicate SameTurn(a: Row, b: Row) {
    a.turn == b.turn && a.turnStartedAt == b.turnStartedAt
  }

  function RowOf(m: Match): Row {
    Row(m.state, m.startedAt, m.completedAt, m.turn, m.turnStartedAt)
  }

  /** The row a write left behind: the memory its event reports, or the row the run began with. */
  ghost function Written(events: seq<Event>, start: Row, i: int): Row
    requires i < |events|
  {
    if i < 0 then start else RowOf(events[i].m)
  }

  /** Each group of columns holds the actor's memory at that group's last successful write. */
  ghost predicate RowIsLastWritten(row: Row, events: seq<Event>, start: Row) {
    && (exists i :: LastWrite(events, false, i) && SameState(row, Written(events, start, i)))
    && (exists i :: LastWrite(events, true, i) && SameTurn(row, Written(events, start, i)))
  }

  ghost predicate NoFailures(events: seq<Event>) {
    forall j | 0 <= j < |events| :: events[j].ok
  }

  ghost predicate RowAt(w: World, start: Row) {
    && RowIsLastWritten(w.row, w.events, start)
    && (NoFailures(w.events) ==> w.row == RowOf(w.m))
  }

  /** A run not yet begun: a waiting match as it was inserted; Stop may already have been called. */
  ghost predicate FreshStart(w: World) {
    && BothSidesPlay(w.m.sides) && MatchAt(w.m, Fresh)
    && w.row == RowOf(w.m) && w.events == [] && w.inbox <= INBOX_CAPACITY && !w.illegal
  }

  ghost predicate Kept(w: World, start: World, stage: Stage) {
    && !w.illegal && w.inbox <= INBOX_CAPACITY
    && MatchAt(w.m, stage) && w.m.sides == start.m.sides
    && LogAt(w.events, stage)
    && (w.events != [] ==> w.events[|w.events| - 1].m == w.m)
    && RowAt(w, start.row)
  }

  lemma FreshIsKept(start: World)
    requires FreshStart(start)
    ensures Kept(start, start, Fresh)
  {
    assert LastWrite([], false, -1) && LastWrite([], true, -1);
  }

  /** One write carries one group of columns forward and leaves the other alone. */
  lemma WriteKeepsGroup(events: seq<Event>, e: Event, ofTurn: bool, i: int)
    requires LastWrite(events, ofTurn, i)
    ensures LastWrite(events + [e], ofTurn,
                      if e.ok && (e.kind == TurnStarted) == ofTurn then |events| else i)
  {
  }

  lemma EmitKeepsRow(w: World, start: Row, m: Match, kind: Kind, io: Io)
    requires RowAt(w, start)
    requires !m.state.Terminal() ==> m.completedAt == None
    requires if kind == TurnStarted then SameState(RowOf(m), RowOf(w.m)) else SameTurn(RowOf(m), RowOf(w.m))
    ensures RowAt(Emit(w, m, kind, io), start)
  {
    var w' := Emit(w, m, kind, io);
    var n := |w.events|;
    var i :| LastWrite(w.events, false, i) && SameState(w.row, Written(w.events, start, i));
    var j :| LastWrite(w.events, true, j) && SameTurn(w.row, Written(w.events, start, j));
    WriteKeepsGroup(w.events, Event(kind, m, io.ok), false, i);
    WriteKeepsGroup(w.events, Event(kind, m, io.ok), true, j);
    var i' := if io.ok && kind != TurnStarted then n else i;
    var j' := if io.ok && kind == TurnStarted then n else j;
    assert SameState(w'.row, Written(w'.events, start, i'));
    assert SameTurn(w'.row, Written(w'.events, start, j'));
    if NoFailures(w'.events) {
      assert w'.events[n].ok == io.ok;
      assert forall k | 0 <= k < n :: w'.events[k] == w.events[k];
    }
  }

  /** The log grows by one event at a time. */
  lemma EmitKeepsLog(events: seq<Event>, from: Stage, to: Stage, e: Event)
    requires LogAt(events, from) && !from.Over? && MatchAt(e.m, to)
    requires Script(to) == Script(from) + [e.kind] && StageOf(|events|, to) == to
    ensures LogAt(events + [e], to)
  {
    forall j | 0 <= j < |events| ensures StageOf(j, to) == StageOf(j, from) {
    }
  }

  lemma EmitKeeps(w: World, start: World, from: Stage, to: Stage, m: Match, kind: Kind, io: Io)
    requires Kept(w, start, from) && !from.Over? && MatchAt(m, to) && m.sides == w.m.sides
    requires Script(to) == Script(from) + [kind] && StageOf(|w.events|, to) == to
    requires if kind == TurnStarted then SameState(RowOf(m), RowOf(w.m)) else SameTurn(RowOf(m), RowOf(w.m))
    ensures Kept(Emit(w, m, kind, io), start, to)
  {
    EmitKeepsRow(w, start.row, m, kind, io);
    EmitKeepsLog(w.events, from, to, Event(kind, m, io.ok));
  }

  lemma AnnounceKeeps(start: World, io: Io)
    requires FreshStart(start)
    ensures Kept(Goto(start, Starting, io), start, Announced)
  {
    FreshIsKept(start);
    EmitKeeps(start, start, Fresh, Announced, Stamped(start.m, Starting, io.now), MatchStarting, io);
  }

  lemma ArmKeeps(w: World, start: World, io: Io)
    requires Kept(w, start, Announced)
    ensures Kept(TakeTurn(w, FirstTurn(), io), start, Armed)
  {
    EmitKeeps(w, start, Announced, Armed, Turned(w.m, FirstTurn(), io.now), TurnStarted, io);
  }

  lemma BeginKeeps(w: World, start: World, io: Io)
    requires Kept(w, start, Armed)
    ensures Kept(Goto(w, InProgress, io), start, InPlay(0))
  {
    EmitKeeps(w, start, Armed, InPlay(0), Stamped(w.m, InProgress, io.now), MatchStarted, io);
  }

  lemma BootKeeps(start: World, a: Io, b: Io, c: Io)
    requires FreshStart(start)
    ensures var w1 := Goto(start, Starting, a); var w2 := TakeTurn(w1, FirstTurn(), b);
            && Kept(w1, start, Announced) && Kept(w2, start, Armed) && Kept(Boot(start, a, b, c), start, InPlay(0))
  {
    AnnounceKeeps(start, a);
    ArmKeeps(Goto(start, Starting, a), start, b);
    BeginKeeps(TakeTurn(Goto(start, Starting, a), FirstTurn(), b), start, c);
  }

  lemma BootPlays(start: World, a: Io, b: Io, c: Io)
    requires FreshStart(start)
    ensures Playing(Boot(start, a, b, c))
  {
    BootKeeps(start, a, b, c);
  }

  function NextStage(stage: Stage, w: World, wake: Wake): Stage
    requires stage.InPlay?
  {
    match wake
    case Cancelled(_) => Over(stage.turns)
    case Command(_) => if w.inbox > 0 then Over(stage.turns) else stage
    case TimerFired(_) => InPlay(stage.turns + 1)
    case StopPosted => stage
  }

  lemma EndKeeps(w: World, start: World, stage: Stage, to: State, io: Io)
    requires Kept(w, start, stage) && stage.InPlay? && to in {State.Cancelled, Abandoned}
    ensures Kept(Goto(w, to, io), start, Over(stage.turns))
  {
    EmitKeeps(w, start, stage, Over(stage.turns), Stamped(w.m, to, io.now), MatchEnded, io);
  }

  lemma TurnKeeps(w: World, start: World, stage: Stage, turn: TurnRef, io: Io)
    requires Kept(w, start, stage) && stage.InPlay?
    ensures Kept(TakeTurn(w, turn, io), start, InPlay(stage.turns + 1))
  {
    EmitKeeps(w, start, stage, InPlay(stage.turns + 1), Turned(w.m, turn, io.now), TurnStarted, io);
  }

  lemma RoundKeeps(w: World, start: World, stage: Stage, wake: Wake)
    requires Kept(w, start, stage) && stage.InPlay? && Playing(w)
    ensures Kept(Round(w, wake).0, start, NextStage(stage, w, wake))
    ensures Round(w, wake).1 <==> NextStage(stage, w, wake).Over?
  {
    match wake {
      case Cancelled(io) => EndKeeps(w, start, stage, Abandoned, io);
      case Command(io) => if w.inbox > 0 { EndKeeps(w.(inbox := w.inbox - 1), start, stage, State.Cancelled, io); }
      case TimerFired(io) => TurnKeeps(w, start, stage, NextTurn(w.m.sides, w.m.turn.value), io);
      case StopPosted =>
    }
  }

  /** The stage a run has reached. */
  function StageAfter(stage: Stage, w: World, wakes: seq<Wake>): Stage
    requires Playing(w) && stage.InPlay?
    decreases |wakes|
  {
    if wakes == [] then stage
    else
      var next := NextStage(stage, w, wakes[0]);
      if next.InPlay? then StageAfter(next, Round(w, wakes[0]).0, wakes[1..]) else next
  }

  lemma {:induction false} RoundsKeep(w: World, start: World, stage: Stage, wakes: seq<Wake>)
    requires Kept(w, start, stage) && stage.InPlay? && Playing(w)
    ensures var to := StageAfter(stage, w, wakes);
            Kept(Rounds(w, wakes).0, start, to) && (Rounds(w, wakes).1 <==> to.Over?) && (to.InPlay? || to.Over?)
    decreases |wakes|
  {
    if wakes != [] {
      RoundKeeps(w, start, stage, wakes[0]);
      if !Round(w, wakes[0]).1 {
        RoundsKeep(Round(w, wakes[0]).0, start, NextStage(stage, w, wakes[0]), wakes[1..]);
      }
    }
  }

  /** The turn in memory is the rotation applied n times, in a match that started at the given time. */
  predicate TurnIs(m: Match, sides: Sides, n: nat, started: Option<int>)
    requires BothSidesPlay(sides)
  {
    m.sides == sides && m.turn == Some(TurnAfter(sides, n)) && m.startedAt == started
  }

  lemma RoundRotates(w: World, sides: Sides, stage: Stage, wake: Wake)
    requires stage.InPlay? && BothSidesPlay(sides) && TurnIs(w.m, sides, stage.turns, w.m.startedAt)
    ensures Playing(w) && TurnIs(Round(w, wake).0.m, sides, NextStage(stage, w, wake).Turns(), w.m.startedAt)
  {
  }

  lemma {:induction false} RoundsRotate(w: World, stage: Stage, wakes: seq<Wake>)
    requires stage.InPlay? && Playing(w) && TurnIs(w.m, w.m.sides, stage.turns, w.m.startedAt)
    ensures TurnIs(Rounds(w, wakes).0.m, w.m.sides, StageAfter(stage, w, wakes).Turns(), w.m.startedAt)
    decreases |wakes|
  {
    if wakes != [] {
      RoundRotates(w, w.m.sides, stage, wakes[0]);
      if NextStage(stage, w, wakes[0]).InPlay? {
        RoundsRotate(Round(w, wakes[0]).0, NextStage(stage, w, wakes[0]), wakes[1..]);
      }
    }
  }

  // ---------------------------------------------------------------- main theorems

  /** starting, turn, started, turn*, and then ended if the run is over. */
  ghost predicate IsTrace(events: seq<Event>, turns: nat, ended: bool) {
    && |events| == 3 + turns + (if ended then 1 else 0)
    && (forall j | 0 <= j < |events| :: events[j].kind ==
         if j == 0 then MatchStarting else if j == 2 then MatchStarted
         else if j == turns + 3 then MatchEnded else TurnStarted)
  }

  lemma LogIsTrace(events: seq<Event>, stage: Stage)
    requires LogAt(events, stage) && (stage.InPlay? || stage.Over?)
    ensures IsTrace(events, stage.turns, stage.Over?)
  {
  }

  /** Every run from Waiting, under every schedule and every pattern of failed writes: the events are starting, turn,
      started, turn*, and ended exactly when the goroutine has returned; no transition was illegal; the state is
      InProgress until the end and then exactly one of Cancelled and Abandoned. */
  lemma EveryRun(start: World, a: Io, b: Io, c: Io, wakes: seq<Wake>) returns (turns: nat)
    requires FreshStart(start)
    ensures Playing(Boot(start, a, b, c))
    ensures var (w, ended) := Rounds(Boot(start, a, b, c), wakes);
            && IsTrace(w.events, turns, ended) && !w.illegal
            && (if ended then w.m.state in {State.Cancelled, Abandoned} else w.m.state == InProgress)
            && w.m.startedAt == Some(c.now) && (w.m.completedAt.Some? <==> ended)
            && w.m.turn == Some(TurnAfter(start.m.sides, turns))
            && w.inbox <= 32
  {
    BootKeeps(start, a, b, c);
    var booted := Boot(start, a, b, c);
    RoundsKeep(booted, start, InPlay(0), wakes);
    RoundsRotate(booted, InPlay(0), wakes);
    var stage := StageAfter(InPlay(0), booted, wakes);
    LogIsTrace(Rounds(booted, wakes).0.events, stage);
    turns := stage.turns;
  }

  /** The latest event reports the match as it now is. */
  lemma LastEventReports(start: World, a: Io, b: Io, c: Io, wakes: seq<Wake>)
    requires FreshStart(start)
    ensures Playing(Boot(start, a, b, c))
    ensures var w := Rounds(Boot(start, a, b, c), wakes).0;
            w.events != [] && w.events[|w.events| - 1].m == w.m
  {
    BootKeeps(start, a, b, c);
    RoundsKeep(Boot(start, a, b, c), start, InPlay(0), wakes);
  }

  // ---------------------------------------------------------------- how a run ends

  /** Wake k is one that ends the run if none before it did: a cancellation, or a command when a stop has been posted,
      before the run or during it. */
  ghost predicate Ends(posted: bool, wakes: seq<Wake>, k: int) {
    && 0 <= k < |wakes|
    && (wakes[k].Cancelled? ||
        (wakes[k].Command? && (posted || exists j | 0 <= j < k :: wakes[j].StopPosted?)))
  }

  ghost predicate NoneEnds(posted: bool, wakes: seq<Wake>) {
    forall k :: !Ends(posted, wakes, k)
  }

  ghost predicate FirstToEnd(posted: bool, wakes: seq<Wake>, k: int) {
    Ends(posted, wakes, k) && forall j | 0 <= j < k :: !Ends(posted, wakes, j)
  }

  /** How many shot timers have fired, and when the last one did. */
  function TimersFired(wakes: seq<Wake>): nat {
    if wakes == [] then 0 else (if wakes[0].TimerFired? then 1 else 0) + TimersFired(wakes[1..])
  }

  function LastFired(wakes: seq<Wake>, since: int): int {
    if wakes == [] then since
    else LastFired(wakes[1..], if wakes[0].TimerFired? then wakes[0].io.now else since)
  }

  /** A match in play whose n-th turn began at `since`. */
  ghost predicate AtTurn(m: Match, sides: Sides, n: nat, since: int)
    requires BothSidesPlay(sides)
  {
    m.sides == sides && m.turn == Some(TurnAfter(sides, n)) && m.turnStartedAt == Some(since)
  }

  lemma EndsLater(posted: bool, wakes: seq<Wake>, k: int)
    requires wakes != [] && k > 0
    ensures Ends(posted, wakes, k) <==> Ends(posted || wakes[0].StopPosted?, wakes[1..], k - 1)
  {
    if 0 < k < |wakes| {
      assert wakes[1..][k - 1] == wakes[k];
      if j :| 0 <= j < k && wakes[j].StopPosted? {
        assert j == 0 || wakes[1..][j - 1] == wakes[j];
      }
      if j :| 0 <= j < k - 1 && wakes[1..][j].StopPosted? {
        assert wakes[j + 1].StopPosted?;
      }
    }
  }

  /** A round that does not end the run. */
  lemma QuietRound(w: World, posted: bool, wakes: seq<Wake>, n: nat, since: int)
    requires wakes != [] && !Ends(posted, wakes, 0) && (w.inbox > 0 <==> posted)
    requires BothSidesPlay(w.m.sides) && AtTurn(w.m, w.m.sides, n, since)
    ensures var (w', ended) := Round(w, wakes[0]);
            && !ended && w'.m.state == w.m.state && w'.m.completedAt == w.m.completedAt
            && (w'.inbox > 0 <==> posted || wakes[0].StopPosted?)
            && AtTurn(w'.m, w.m.sides, if wakes[0].TimerFired? then n + 1 else n,
                      if wakes[0].TimerFired? then wakes[0].io.now else since)
  {
  }

  lemma {:induction false} RunsOn(w: World, posted: bool, wakes: seq<Wake>, n: nat, since: int)
    requires NoneEnds(posted, wakes) && (w.inbox > 0 <==> posted)
    requires BothSidesPlay(w.m.sides) && AtTurn(w.m, w.m.sides, n, since)
    ensures var (w', ended) := Rounds(w, wakes);
            && !ended && w'.m.state == w.m.state && w'.m.completedAt == w.m.completedAt
            && AtTurn(w'.m, w.m.sides, n + TimersFired(wakes), LastFired(wakes, since))
    decreases |wakes|
  {
    if wakes != [] {
      QuietRound(w, posted, wakes, n, since);
      var posted' := posted || wakes[0].StopPosted?;
      forall k ensures !Ends(posted', wakes[1..], k) {
        if k >= 0 { EndsLater(posted, wakes, k + 1); }
      }
      RunsOn(Round(w, wakes[0]).0, posted', wakes[1..], if wakes[0].TimerFired? then n + 1 else n,
             if wakes[0].TimerFired? then wakes[0].io.now else since);
    }
  }

  /** What the wake that ends a run makes of the match. */
  predicate EndedBy(m: Match, wake: Wake) {
    match wake
    case Cancelled(io) => m.state == Abandoned && m.completedAt == Some(io.now)
    case Command(io) => m.state == State.Cancelled && m.completedAt == Some(io.now)
    case _ => false
  }

  lemma LastRound(w: World, posted: bool, wakes: seq<Wake>, n: nat, since: int)
    requires Ends(posted, wakes, 0) && (w.inbox > 0 <==> posted) && w.m.state == InProgress
    requires BothSidesPlay(w.m.sides) && AtTurn(w.m, w.m.sides, n, since)
    ensures var (w', ended) := Rounds(w, wakes);
            ended && EndedBy(w'.m, wakes[0]) && AtTurn(w'.m, w.m.sides, n, since)
  {
  }

  lemma {:induction false} RunsUntil(w: World, posted: bool, wakes: seq<Wake>, k: nat, n: nat, since: int)
    requires FirstToEnd(posted, wakes, k) && (w.inbox > 0 <==> posted) && w.m.state == InProgress
    requires BothSidesPlay(w.m.sides) && AtTurn(w.m, w.m.sides, n, since)
    ensures var (w', ended) := Rounds(w, wakes);
            && ended && EndedBy(w'.m, wakes[k])
            && AtTurn(w'.m, w.m.sides, n + TimersFired(wakes[..k]), LastFired(wakes[..k], since))
    decreases k
  {
    if k == 0 {
      LastRound(w, posted, wakes, n, since);
    } else {
      QuietRound(w, posted, wakes, n, since);
      FirstLater(posted, wakes, k);
      RunsUntil(Round(w, wakes[0]).0, posted || wakes[0].StopPosted?, wakes[1..], k - 1,
                if wakes[0].TimerFired? then n + 1 else n, if wakes[0].TimerFired? then wakes[0].io.now else since);
      assert wakes[..k][1..] == wakes[1..][..k - 1];
    }
  }

  lemma FirstLater(posted: bool, wakes: seq<Wake>, k: nat)
    requires k > 0 && FirstToEnd(posted, wakes, k)
    ensures FirstToEnd(posted || wakes[0].StopPosted?, wakes[1..], k - 1)
  {
    EndsLater(posted, wakes, k);
    var posted', rest := posted || wakes[0].StopPosted?, wakes[1..];
    forall j | 0 <= j < k - 1 ensures !Ends(posted', rest, j) {
      EndsLater(posted, wakes, j + 1);
    }
  }

  lemma {:induction false} FirstExists(posted: bool, wakes: seq<Wake>, k: int) returns (first: nat)
    requires Ends(posted, wakes, k)
    ensures FirstToEnd(posted, wakes, first)
    decreases k
  {
    if j :| 0 <= j < k && Ends(posted, wakes, j) {
      first := FirstExists(posted, wakes, j);
    } else {
      first := k;
    }
  }

  /** A run goes on as long as no wake ends it: the match stays in progress, in the turn that the timers fired so far
      have brought it to, which began when the last of them fired. */
  lemma RunGoesOn(start: World, a: Io, b: Io, c: Io, wakes: seq<Wake>)
    requires FreshStart(start) && NoneEnds(start.inbox > 0, wakes)
    ensures Playing(Boot(start, a, b, c))
    ensures var (w, ended) := Rounds(Boot(start, a, b, c), wakes);
            && !ended && w.m.state == InProgress && w.m.completedAt == None
            && AtTurn(w.m, start.m.sides, TimersFired(wakes), LastFired(wakes, b.now))
  {
    Booted(start, a, b, c);
    RunsOn(Boot(start, a, b, c), start.inbox > 0, wakes, 0, b.now);
  }

  lemma Booted(start: World, a: Io, b: Io, c: Io)
    requires FreshStart(start)
    ensures var w := Boot(start, a, b, c);
            && Playing(w) && w.m.state == InProgress && w.m.completedAt == None && w.inbox == start.inbox
            && AtTurn(w.m, start.m.sides, 0, b.now)
  {
  }

  /** The first wake that can end a run ends it: a cancellation leaves the match Abandoned, a stop command Cancelled,
      completed at that wake's time and in the turn it was in. */
  lemma RunEnds(start: World, a: Io, b: Io, c: Io, wakes: seq<Wake>, k: nat)
    requires FreshStart(start) && FirstToEnd(start.inbox > 0, wakes, k)
    ensures Playing(Boot(start, a, b, c))
    ensures var (w, ended) := Rounds(Boot(start, a, b, c), wakes);
            && ended
            && (wakes[k].Cancelled? ==> w.m.state == Abandoned)
            && (wakes[k].Command? ==> w.m.state == State.Cancelled)
            && (wakes[k].Cancelled? || wakes[k].Command?) && w.m.completedAt == Some(wakes[k].io.now)
            && AtTurn(w.m, start.m.sides, TimersFired(wakes[..k]), LastFired(wakes[..k], b.now))
  {
    Booted(start, a, b, c);
    RunsUntil(Boot(start, a, b, c), start.inbox > 0, wakes, k, 0, b.now);
  }

  /** A run has ended exactly when some wake was one that ends it. */
  lemma RunEndsIff(start: World, a: Io, b: Io, c: Io, wakes: seq<Wake>)
    requires FreshStart(start)
    ensures Playing(Boot(start, a, b, c))
    ensures Rounds(Boot(start, a, b, c), wakes).1 <==> !NoneEnds(start.inbox > 0, wakes)
  {
    if NoneEnds(start.inbox > 0, wakes) {
      RunGoesOn(start, a, b, c, wakes);
    } else {
      var posted := start.inbox > 0;
      var k :| Ends(posted, wakes, k);
      var first := FirstExists(posted, wakes, k);
      RunEnds(start, a, b, c, wakes, first);
    }
  }

  // ---------------------------------------------------------------- the moments of a run

  /** The world at the m-th moment of a run: before it, after each of the three steps of the boot, and then after each
      round of the loop. Between two moments at most one write reaches the row. */
  ghost function Moment(start: World, a: Io, b: Io, c: Io, wakes: seq<Wake>, m: nat): World
    requires FreshStart(start) && m <= |wakes| + 3
  {
    BootPlays(start, a, b, c);
    if m == 0 then start
    else if m == 1 then Goto(start, Starting, a)
    else if m == 2 then TakeTurn(Goto(start, Starting, a), FirstTurn(), b)
    else Rounds(Boot(start, a, b, c), wakes[..m - 3]).0
  }

  lemma MomentKept(start: World, a: Io, b: Io, c: Io, wakes: seq<Wake>, m: nat) returns (stage: Stage)
    requires FreshStart(start) && m <= |wakes| + 3
    ensures Kept(Moment(start, a, b, c, wakes, m), start, stage)
  {
    BootKeeps(start, a, b, c);
    if m == 0 {
      FreshIsKept(start);
      stage := Fresh;
    } else if m == 1 {
      stage := Announced;
    } else if m == 2 {
      stage := Armed;
    } else {
      RoundsKeep(Boot(start, a, b, c), start, InPlay(0), wakes[..m - 3]);
      stage := StageAfter(InPlay(0), Boot(start, a, b, c), wakes[..m - 3]);
    }
  }

  lemma {:induction false} RoundsParts(w: World, x: seq<Wake>, y: seq<Wake>)
    requires Playing(w)
    ensures Rounds(w, x + y) == if Rounds(w, x).1 then Rounds(w, x) else Rounds(Rounds(w, x).0, y)
    decreases |x|
  {
    if x == [] {
      assert x + y == y;
    } else {
      assert (x + y)[0] == x[0] && (x + y)[1..] == x[1..] + y;
      if !Round(w, x[0]).1 {
        RoundsParts(Round(w, x[0]).0, x[1..], y);
      }
    }
  }

  lemma {:induction false} RoundsExtendLog(w: World, wakes: seq<Wake>)
    requires Playing(w)
    ensures w.events <= Rounds(w, wakes).0.events
    decreases |wakes|
  {
    if wakes != [] && !Round(w, wakes[0]).1 {
      RoundsExtendLog(Round(w, wakes[0]).0, wakes[1..]);
    }
  }

  lemma LaterRoundsExtendLog(w: World, wakes: seq<Wake>, i: nat, j: nat)
    requires Playing(w) && i <= j <= |wakes|
    ensures Rounds(w, wakes[..i]).0.events <= Rounds(w, wakes[..j]).0.events
  {
    assert wakes[..j] == wakes[..i] + wakes[i..j];
    RoundsParts(w, wakes[..i], wakes[i..j]);
    RoundsExtendLog(Rounds(w, wakes[..i]).0, wakes[i..j]);
  }

  lemma BootLog(start: World, a: Io, b: Io, c: Io, wakes: seq<Wake>, i: nat, j: nat)
    requires FreshStart(start) && i <= j <= 3
    ensures Moment(start, a, b, c, wakes, i).events <= Moment(start, a, b, c, wakes, j).events
  {
    assert wakes[..0] == [];
  }

  lemma MomentsExtendLog(start: World, a: Io, b: Io, c: Io, wakes: seq<Wake>, i: nat, j: nat)
    requires FreshStart(start) && i <= j <= |wakes| + 3
    ensures Moment(start, a, b, c, wakes, i).events <= Moment(start, a, b, c, wakes, j).events
  {
    var middle := if i > 3 then i else if j > 3 then 3 else j;
    if i < middle { BootLog(start, a, b, c, wakes, i, middle); }
    if middle < j { LoopLog(start, a, b, c, wakes, middle, j); }
  }

  lemma LoopLog(start: World, a: Io, b: Io, c: Io, wakes: seq<Wake>, i: nat, j: nat)
    requires FreshStart(start) && 3 <= i <= j <= |wakes| + 3
    ensures Moment(start, a, b, c, wakes, i).events <= Moment(start, a, b, c, wakes, j).events
  {
    BootPlays(start, a, b, c);
    LaterRoundsExtendLog(Boot(start, a, b, c), wakes, i - 3, j - 3);
  }

  // ---------------------------------------------------------------- what the row shows

  /** At every moment of every run, with arbitrary write failures, each stored group is the actor's memory at that
      group's last successful write, and without failures so far the row is the memory. */
  lemma StoredIsLastWritten(start: World, a: Io, b: Io, c: Io, wakes: seq<Wake>, m: nat)
    requires FreshStart(start) && m <= |wakes| + 3
    ensures var w := Moment(start, a, b, c, wakes, m);
            && RowIsLastWritten(w.row, w.events, start.row)
            && (NoFailures(w.events) ==> w.row == RowOf(w.m))
  {
    var _ := MomentKept(start, a, b, c, wakes, m);
  }

  /** The state a row shows, exactly. */
  function StateShown(events: seq<Event>): State {
    var n := |events|;
    if n > 0 && events[n - 1].kind == MatchEnded && events[n - 1].ok then events[n - 1].m.state
    else if n > 2 && events[2].ok then InProgress
    else if n > 0 && events[0].ok then Starting
    else Waiting
  }

  lemma StateIsShown(events: seq<Event>, stage: Stage, row: Row, start: Row)
    requires LogAt(events, stage) && start.state == Waiting && RowIsLastWritten(row, events, start)
    ensures row.state == StateShown(events)
  {
    var i :| LastWrite(events, false, i) && SameState(row, Written(events, start, i));
  }

  lemma TurnIsShown(events: seq<Event>, stage: Stage, row: Row, start: Row)
    requires LogAt(events, stage) && start.turn == None && RowIsLastWritten(row, events, start)
    ensures row.turn.Some? <==> exists j | 0 <= j < |events| :: events[j].kind == TurnStarted && events[j].ok
  {
    var t :| LastWrite(events, true, t) && SameTurn(row, Written(events, start, t));
  }

  /** What a reader of the row sees, exactly, at every moment of every run; only a failed turn write can show a match in
      progress without a turn. */
  lemma ReaderSees(start: World, a: Io, b: Io, c: Io, wakes: seq<Wake>, m: nat)
    requires FreshStart(start) && m <= |wakes| + 3
    ensures var w := Moment(start, a, b, c, wakes, m);
            && w.row.state == StateShown(w.events)
            && (w.row.turn.Some? <==>
                  exists j | 0 <= j < |w.events| :: w.events[j].kind == TurnStarted && w.events[j].ok)
            && (NoFailures(w.events) && w.row.state == InProgress ==> w.row.turn.Some?)
  {
    var stage := MomentKept(start, a, b, c, wakes, m);
    var w := Moment(start, a, b, c, wakes, m);
    StateIsShown(w.events, stage, w.row, start.row);
    TurnIsShown(w.events, stage, w.row, start.row);
    if NoFailures(w.events) && w.row.state == InProgress {
      assert w.events[1].kind == TurnStarted && w.events[1].ok;
    }
  }

  lemma ActorPaths()
    ensures forall from | from in {Waiting, Starting, InProgress} :: Reachable(from, InProgress, 3)
    ensures forall from | from in {Waiting, Starting} :: Reachable(from, Starting, 3)
    ensures forall from, to | from in {Waiting, Starting, InProgress} && to in {State.Cancelled, Abandoned} ::
              Reachable(from, to, 3)
  {
    forall to | to in {InProgress, State.Cancelled, Abandoned}
      ensures Reachable(Starting, to, 1) && Reachable(Starting, to, 2) && Reachable(Starting, to, 3)
      ensures Reachable(Waiting, to, 3)
    {
      assert Transition(Starting, to) && Reachable(to, to, 0) && Reachable(to, to, 1) && Reachable(to, to, 2);
      assert Transition(Waiting, Starting);
    }
    assert Transition(Waiting, Starting) && Reachable(Starting, Starting, 2);
    forall to | to in {State.Cancelled, Abandoned} ensures Reachable(InProgress, to, 3) {
      assert Transition(InProgress, to) && Reachable(to, to, 2);
    }
  }

  lemma ShownMovesForward(early: seq<Event>, late: seq<Event>, from: Stage, to: Stage)
    requires LogAt(early, from) && LogAt(late, to) && early <= late
    ensures Reachable(StateShown(early), StateShown(late), 3)
  {
    ActorPaths();
    var n := |early|;
    if from.Over? {
      assert Script(to)[n - 1] == late[n - 1].kind == MatchEnded;
      assert late == early;
    }
  }

  /** Of two moments of a run, the row at the later one shows a state that a legal path leads to from the earlier one's,
      whatever writes failed between. */
  lemma StoredStateMovesForward(start: World, a: Io, b: Io, c: Io, wakes: seq<Wake>, i: nat, j: nat)
    requires FreshStart(start) && i <= j <= |wakes| + 3
    ensures Reachable(Moment(start, a, b, c, wakes, i).row.state, Moment(start, a, b, c, wakes, j).row.state, 3)
  {
    var early, late := Moment(start, a, b, c, wakes, i), Moment(start, a, b, c, wakes, j);
    var from := MomentKept(start, a, b, c, wakes, i);
    var to := MomentKept(start, a, b, c, wakes, j);
    MomentsExtendLog(start, a, b, c, wakes, i, j);
    StateIsShown(early.events, from, early.row, start.row);
    StateIsShown(late.events, to, late.row, start.row);
    ShownMovesForward(early.events, late.events, from, to);
  }
}
