/** The registry of running match actors (internal/matches/registry.go): the actors map under its mutex, and the wait
    group that shutdown waits on. Every goroutine's progress is stepped separately. */
module Registries {
  import opened Basics

  /** How far one actor has got, from Start's map insert to its goroutine's last deferred call. */
  datatype Phase = Registered | Counted | Running | Returned | Removed | Finished {
    /** The wait group counts it. */
    predicate Waited() { Counted? || Running? || Returned? || Removed? }
    /** Its deferred remove has not run. */
    predicate Unremoved() { Registered? || Counted? || Running? || Returned? }
  }

  datatype Actor = Actor(matchId: Id, phase: Phase)

  datatype Step =
    | Register(actor: nat, matchId: Id)   // actors[match.ID] = a, under the lock
    | Add(actor: nat)                     // wg.Add(1)
    | Spawn(actor: nat)                   // go func
    | Return(actor: nat)                  // run has returned
    | Remove(actor: nat)                  // deferred: delete(actors, id)
    | Done(actor: nat)                    // deferred: wg.Done()

  datatype World = World(actors: map<Id, nat>, counter: int, all: map<nat, Actor>)

  function Empty(): World { World(map[], 0, map[]) }

  predicate At(w: World, a: nat, phase: Phase) {
    a in w.all && w.all[a].phase == phase
  }

  function Moved(w: World, a: nat, phase: Phase): World
    requires a in w.all
  {
    w.(all := w.all[a := w.all[a].(phase := phase)])
  }

  /** A step that cannot be taken changes nothing. */
  function Next(w: World, step: Step): World {
    match step
    case Register(a, id) =>
      if a in w.all then w else w.(actors := w.actors[id := a], all := w.all[a := Actor(id, Registered)])
    case Add(a) => if At(w, a, Registered) then Moved(w, a, Counted).(counter := w.counter + 1) else w
    case Spawn(a) => if At(w, a, Counted) then Moved(w, a, Running) else w
    case Return(a) => if At(w, a, Running) then Moved(w, a, Returned) else w
    case Remove(a) =>
      if At(w, a, Returned) then Moved(w, a, Removed).(actors := w.actors - {w.all[a].matchId}) else w
    case Done(a) => if At(w, a, Removed) then Moved(w, a, Finished).(counter := w.counter - 1) else w
  }

  function Run(steps: seq<Step>): World {
    if steps == [] then Empty() else Next(Run(steps[..|steps| - 1]), steps[|steps| - 1])
  }

  ghost function WaitedFor(w: World): set<nat> {
    set a | a in w.all && w.all[a].phase.Waited()
  }

  ghost predicate RegistryOk(w: World) {
    && w.counter == |WaitedFor(w)|
    && forall id :: id in w.actors ==>
         w.actors[id] in w.all && w.all[w.actors[id]].matchId == id && w.all[w.actors[id]].phase.Unremoved()
  }

  lemma MovedCounts(w: World, a: nat, phase: Phase)
    requires a in w.all
    ensures |WaitedFor(Moved(w, a, phase))| ==
            |WaitedFor(w)| + (if phase.Waited() then 1 else 0) - (if w.all[a].phase.Waited() then 1 else 0)
  {
    var others := WaitedFor(w) - {a};
    assert w.all[a].phase.Waited() ==> WaitedFor(w) == others + {a};
    assert !w.all[a].phase.Waited() ==> WaitedFor(w) == others;
    assert WaitedFor(Moved(w, a, phase)) == if phase.Waited() then others + {a} else others;
  }

  lemma StepCounts(w: World, step: Step)
    requires w.counter == |WaitedFor(w)|
    ensures Next(w, step).counter == |WaitedFor(Next(w, step))|
  {
    match step
    case Register(a, id) => RegisterCounts(w, a, id);
    case Add(a) => if At(w, a, Registered) { MovedCounts(w, a, Counted); }
    case Spawn(a) => if At(w, a, Counted) { MovedCounts(w, a, Running); }
    case Return(a) => if At(w, a, Running) { MovedCounts(w, a, Returned); }
    case Remove(a) => if At(w, a, Returned) { MovedCounts(w, a, Removed); }
    case Done(a) => if At(w, a, Removed) { MovedCounts(w, a, Finished); }
  }

  lemma RegisterCounts(w: World, a: nat, id: Id)
    ensures WaitedFor(Next(w, Register(a, id))) == WaitedFor(w)
  {
  }

  lemma StepKeeps(w: World, step: Step)
    requires RegistryOk(w)
    ensures RegistryOk(Next(w, step))
  {
    StepCounts(w, step);
  }

  lemma {:induction false} RunKeeps(steps: seq<Step>)
    ensures RegistryOk(Run(steps))
  {
    if steps != [] {
      RunKeeps(steps[..|steps| - 1]);
      StepKeeps(Run(steps[..|steps| - 1]), steps[|steps| - 1]);
    } else {
      assert WaitedFor(Empty()) == {};
    }
  }

  /** Get and Len never see an actor whose goroutine has removed it, even if two actors share a match; and when Wait's
      counter is at zero no counted goroutine is left, at whatever point of its exit. */
  lemma NoStaleEntries(steps: seq<Step>)
    ensures var w := Run(steps);
            && (forall id :: id in w.actors ==> w.actors[id] in w.all && w.all[w.actors[id]].phase.Unremoved())
            && (w.counter == 0 <==> forall a :: a in w.all ==> !w.all[a].phase.Waited())
  {
    RunKeeps(steps);
    var w := Run(steps);
    assert w.counter == 0 ==> forall a :: a in w.all ==> a !in WaitedFor(w);
    if forall a :: a in w.all ==> !w.all[a].phase.Waited() {
      assert WaitedFor(w) == {};
    }
  }

  /** Every actor not yet removed is the one the registry holds for its match. */
  ghost predicate AllFound(w: World) {
    forall a :: a in w.all && w.all[a].phase.Unremoved() ==>
      w.all[a].matchId in w.actors && w.actors[w.all[a].matchId] == a
  }

  /** Some actor of the match has not been removed. */
  ghost predicate Busy(w: World, id: Id) {
    exists a :: a in w.all && w.all[a].phase.Unremoved() && w.all[a].matchId == id
  }

  /** The step registers a new actor for a match that still has one. */
  ghost predicate Overlaps(w: World, step: Step) {
    step.Register? && step.actor !in w.all && Busy(w, step.matchId)
  }

  lemma StepFindsIff(w: World, step: Step)
    requires AllFound(w)
    ensures AllFound(Next(w, step)) <==> !Overlaps(w, step)
  {
    var w' := Next(w, step);
    if Overlaps(w, step) {
      var b :| b in w.all && w.all[b].phase.Unremoved() && w.all[b].matchId == step.matchId;
      assert w'.all[b] == w.all[b] && w'.actors[step.matchId] == step.actor;
    }
  }

  ghost predicate AlwaysFound(steps: seq<Step>) {
    forall i | 0 <= i <= |steps| :: AllFound(Run(steps[..i]))
  }

  ghost predicate NeverOverlaps(steps: seq<Step>) {
    forall i | 0 <= i < |steps| :: !Overlaps(Run(steps[..i]), steps[i])
  }

  lemma AlwaysFoundSplits(before: seq<Step>, last: Step)
    ensures AlwaysFound(before + [last]) <==> AlwaysFound(before) && AllFound(Run(before + [last]))
  {
    var steps := before + [last];
    assert steps[..|steps|] == steps;
    assert forall i | 0 <= i <= |before| :: steps[..i] == before[..i];
  }

  lemma NeverOverlapsSplits(before: seq<Step>, last: Step)
    ensures NeverOverlaps(before + [last]) <==> NeverOverlaps(before) && !Overlaps(Run(before), last)
  {
    var steps := before + [last];
    assert steps[..|before|] == before;
    assert forall i | 0 <= i < |before| :: steps[..i] == before[..i] && steps[i] == before[i];
  }

  lemma AlwaysFoundNow(steps: seq<Step>)
    requires AlwaysFound(steps)
    ensures AllFound(Run(steps))
  {
    assert steps[..|steps|] == steps;
  }

  /** At every moment of a run every actor not yet removed is found under its match, if and only if no actor is ever
      registered for a match that still has one. Restarting a match after its actor was removed is harmless. */
  lemma {:induction false} AlwaysFoundIff(steps: seq<Step>)
    ensures AlwaysFound(steps) <==> NeverOverlaps(steps)
  {
    if steps == [] {
      assert steps[..0] == [];
    } else {
      var before, last := steps[..|steps| - 1], steps[|steps| - 1];
      assert steps == before + [last];
      AlwaysFoundIff(before);
      AlwaysFoundSplits(before, last);
      NeverOverlapsSplits(before, last);
      RunOne(before, last);
      if AlwaysFound(before) {
        AlwaysFoundNow(before);
        StepFindsIff(Run(before), last);
      }
    }
  }

  /** No match is started twice: what the service does, whose every match has a fresh id. */
  ghost predicate StartedOnce(steps: seq<Step>) {
    forall i, j | 0 <= i < j < |steps| && steps[i].Register? && steps[j].Register? ::
      steps[i].matchId != steps[j].matchId
  }

  lemma {:induction false} StartedBefore(steps: seq<Step>, a: nat)
    requires a in Run(steps).all
    ensures exists i | 0 <= i < |steps| :: steps[i].Register? && steps[i].matchId == Run(steps).all[a].matchId
  {
    if steps != [] {
      var before, last := steps[..|steps| - 1], steps[|steps| - 1];
      if a in Run(before).all {
        StartedBefore(before, a);
        var i :| 0 <= i < |before| && before[i].Register? && before[i].matchId == Run(before).all[a].matchId;
        assert steps[i] == before[i];
      } else {
        assert steps[|steps| - 1] == last;
      }
    }
  }

  /** So in the program every running actor is found. */
  lemma StartedOnceAllFound(steps: seq<Step>)
    requires StartedOnce(steps)
    ensures AlwaysFound(steps)
  {
    forall i | 0 <= i < |steps| ensures !Overlaps(Run(steps[..i]), steps[i]) {
      forall a | steps[i].Register? && a in Run(steps[..i]).all
        ensures Run(steps[..i]).all[a].matchId != steps[i].matchId
      {
        StartedBefore(steps[..i], a);
      }
    }
    AlwaysFoundIff(steps);
  }

  lemma RunOne(steps: seq<Step>, step: Step)
    ensures Run(steps + [step]) == Next(Run(steps), step)
  {
    assert (steps + [step])[..|steps|] == steps;
  }

  /** A fresh actor started on a match: the three steps of Start. */
  lemma AfterStart(steps: seq<Step>, a: nat, id: Id)
    requires a !in Run(steps).all
    ensures var w := Run(steps);
            Run(steps + [Register(a, id)] + [Add(a)] + [Spawn(a)]) ==
            World(w.actors[id := a], w.counter + 1, w.all[a := Actor(id, Running)])
  {
    RunOne(steps, Register(a, id));
    RunOne(steps + [Register(a, id)], Add(a));
    RunOne(steps + [Register(a, id)] + [Add(a)], Spawn(a));
  }

  /** If two overlap, the first actor's exit takes the second's entry with it: the second is running but not found. */
  lemma StartedTwiceLost(a: nat, b: nat, id: Id) returns (steps: seq<Step>)
    requires a != b
    ensures At(Run(steps), b, Running) && Run(steps).all[b].matchId == id && id !in Run(steps).actors
  {
    AfterStart([], a, id);
    steps := [] + [Register(a, id)] + [Add(a)] + [Spawn(a)];
    AfterStart(steps, b, id);
    steps := steps + [Register(b, id)] + [Add(b)] + [Spawn(b)];
    RunOne(steps, Return(a));
    RunOne(steps + [Return(a)], Remove(a));
    steps := steps + [Return(a)] + [Remove(a)];
  }

  /** The registry as an object. */
  class Registry {
    var actors: map<Id, nat>
    var counter: int
    ghost var all: map<nat, Actor>

    ghost function View(): World reads this { World(actors, counter, all) }

    constructor ()
      ensures View() == Empty()
    {
      actors, counter, all := map[], 0, map[];
    }

    /** Start, from the caller's side; the goroutine's own steps follow later. */
    method Start(a: nat, matchId: Id)
      requires a !in all
      modifies this
      ensures View() == Next(Next(Next(old(View()), Register(a, matchId)), Add(a)), Spawn(a))
      ensures Get(matchId) == Some(a)
    {
      actors := actors[matchId := a];
      counter := counter + 1;
      all := all[a := Actor(matchId, Running)];
    }

    /** The deferred calls of an actor's goroutine, in the order they run. */
    method Exit(a: nat, matchId: Id)
      requires a in all && all[a] == Actor(matchId, Returned)
      modifies this
      ensures View() == Next(Next(old(View()), Remove(a)), Done(a))
      ensures Get(matchId) == None
    {
      actors := actors - {matchId};
      all := all[a := Actor(matchId, Finished)];
      counter := counter - 1;
    }

    function Get(matchId: Id): Option<nat> reads this {
      if matchId in actors then Some(actors[matchId]) else None
    }
  }
}
