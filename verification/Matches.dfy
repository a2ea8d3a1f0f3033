/** The match feature's model (internal/matches/model.go): modes, states and their legal transitions, the sides of a
    match, and the validation that every new match must pass. */
module Matches {
  import opened Basics

  /** A string in the source; everything but the two known modes is rejected by `Normalize`. */
  datatype Mode = Mode1v1 | Mode2v2 | OtherMode(text: string) {
    predicate Valid() { Mode1v1? || Mode2v2? }
    function PlayersPerSide(): nat { if Mode2v2? then 2 else 1 }
  }

  datatype Ruleset = Unset | EightBall | OtherRuleset(text: string)

  datatype State = Waiting | Starting | InProgress | Paused | Completed | Cancelled | Abandoned {
    predicate Terminal() { Completed? || Cancelled? || Abandoned? }
  }

  const LEGAL: map<State, set<State>> := map[
    Waiting := {Starting},
    Starting := {InProgress, Cancelled, Abandoned},
    InProgress := {Completed, State.Paused, Cancelled, Abandoned},
    State.Paused := {InProgress, Cancelled, Abandoned}]

  predicate Transition(from: State, to: State) {
    from in LEGAL && to in LEGAL[from]
  }

  /** Some chain of legal transitions leads from one state to the other. */
  ghost predicate Reachable(from: State, to: State, steps: nat)
    decreases steps
  {
    from == to || (steps > 0 && exists mid :: Transition(from, mid) && Reachable(mid, to, steps - 1))
  }

  /** `Terminal` and the transition table agree: no transition leaves exactly the terminal states. */
  lemma TerminalIffNoWayOut(s: State)
    ensures s.Terminal() <==> forall to :: !Transition(s, to)
  {
    if s.Waiting? { assert Transition(s, Starting); }
    if s.Starting? { assert Transition(s, InProgress); }
    if s.InProgress? { assert Transition(s, Completed); }
    if s.Paused? { assert Transition(s, InProgress); }
  }

  /** Every legal transition. */
  lemma TransitionIff(from: State, to: State)
    ensures Transition(from, to) <==>
            || (from == Waiting && to == Starting)
            || (from == Starting && (to == InProgress || to == Cancelled || to == Abandoned))
            || (from == InProgress && (to == Completed || to == Paused || to == Cancelled || to == Abandoned))
            || (from == Paused && (to == InProgress || to == Cancelled || to == Abandoned))
  {
  }

  datatype Side = Side(id: int, players: seq<Id>)
  type Sides = s: seq<Side> | |s| == 2 witness [Side(0, []), Side(1, [])]

  datatype CreateInput = CreateInput(roomId: Id, mode: Mode, ranked: bool, ruleset: Ruleset, shotTimer: int,
                                     sides: Sides)

  datatype Error = ErrInvalidMode | ErrInvalidRuleset | ErrInvalidShotTime | ErrInvalidSides
  datatype Result<+T> = Ok(value: T) | Err(error: Error)

  /** Everyone in the match: side A's players, then side B's. */
  function Roster(sides: Sides): seq<Id> {
    sides[0].players + sides[1].players
  }

  /** The sides of a match with `want` players a side: identified by position, full, without a nil player, and nobody
      sits twice. */
  ghost predicate WellSeated(sides: Sides, want: nat) {
    && (forall i | 0 <= i < 2 :: sides[i].id == i && |sides[i].players| == want)
    && NIL !in Roster(sides)
    && NoDuplicates(Roster(sides))
  }

  /** What validation must answer, in the order the source checks. */
  ghost function Normalized(input: CreateInput): Result<CreateInput> {
    if !input.mode.Valid() then Err(ErrInvalidMode)
    else if input.ruleset.OtherRuleset? then Err(ErrInvalidRuleset)
    else if input.shotTimer <= 0 then Err(ErrInvalidShotTime)
    else if !WellSeated(input.sides, input.mode.PlayersPerSide()) then Err(ErrInvalidSides)
    else Ok(input.(ruleset := EightBall))
  }

  /** Each refusal, exactly. */
  lemma RefusedIff(input: CreateInput)
    ensures var r := Normalized(input);
            var mode, rules, timer := !input.mode.OtherMode?, !input.ruleset.OtherRuleset?, input.shotTimer >= 1;
            var seated := WellSeated(input.sides, if input.mode == Mode2v2 then 2 else 1);
            && (r == Err(ErrInvalidMode) <==> !mode)
            && (r == Err(ErrInvalidRuleset) <==> mode && !rules)
            && (r == Err(ErrInvalidShotTime) <==> mode && rules && !timer)
            && (r == Err(ErrInvalidSides) <==> mode && rules && timer && !seated)
            && (r.Ok? <==> mode && rules && timer && seated)
            && (r.Ok? ==> r.value == input.(ruleset := EightBall))
  {
  }

  /** The `seen` set of the validation loop after `n` players, all of them non-nil and distinct. */
  ghost predicate SeenSoFar(seen: set<Id>, roster: seq<Id>, n: nat) {
    n <= |roster| && seen == Elements(roster[..n]) && NoDuplicates(roster[..n]) && NIL !in roster[..n]
  }

  lemma SeeNext(seen: set<Id>, roster: seq<Id>, n: nat)
    requires SeenSoFar(seen, roster, n) && n < |roster|
    ensures roster[n] != NIL && roster[n] !in seen ==> SeenSoFar(seen + {roster[n]}, roster, n + 1)
    ensures roster[n] == NIL || roster[n] in seen ==> NIL in roster || !NoDuplicates(roster)
  {
    assert roster[..n + 1] == roster[..n] + [roster[n]];
    if roster[n] in seen {
      var j :| 0 <= j < n && roster[j] == roster[n];
    }
  }

  /** The loop over one side's players, continuing with what has been seen so far. */
  method SeePlayers(players: seq<Id>, seen: set<Id>, ghost roster: seq<Id>, ghost n: nat)
    returns (ok: bool, seen': set<Id>)
    requires SeenSoFar(seen, roster, n) && n + |players| <= |roster| && roster[n..n + |players|] == players
    ensures ok ==> SeenSoFar(seen', roster, n + |players|)
    ensures !ok ==> NIL in roster || !NoDuplicates(roster)
  {
    seen' := seen;
    for k := 0 to |players|
      invariant SeenSoFar(seen', roster, n + k)
    {
      var p := players[k];
      assert p == roster[n..n + |players|][k] == roster[n + k];
      SeeNext(seen', roster, n + k);
      if p == NIL || p in seen' { return false, seen'; }
      seen' := seen' + {p};
    }
    ok := true;
  }

  /** CreateInput.normalize: walks both sides with a `seen` set and fills in the default ruleset. */
  method Normalize(input: CreateInput) returns (r: Result<CreateInput>)
    ensures r == Normalized(input)
  {
    if !input.mode.Valid() { return Err(ErrInvalidMode); }
    var normal := input;
    if normal.ruleset == Unset {
      normal := normal.(ruleset := EightBall);
    } else if normal.ruleset != EightBall {
      return Err(ErrInvalidRuleset);
    }
    if input.shotTimer <= 0 { return Err(ErrInvalidShotTime); }

    var seen: set<Id> := {};
    var want := input.mode.PlayersPerSide();
    ghost var roster := Roster(input.sides);
    ghost var n := 0;
    for i := 0 to 2
      invariant n == if i == 0 then 0 else if i == 1 then want else 2 * want
      invariant forall j | 0 <= j < i :: input.sides[j].id == j && |input.sides[j].players| == want
      invariant SeenSoFar(seen, roster, n)
    {
      var side := input.sides[i];
      if side.id != i { return Err(ErrInvalidSides); }
      if |side.players| != want { return Err(ErrInvalidSides); }
      assert roster[n..n + want] == side.players;
      var ok: bool;
      ok, seen := SeePlayers(side.players, seen, roster, n);
      if !ok { return Err(ErrInvalidSides); }
      n := n + want;
    }
    assert roster[..n] == roster;
    return Ok(normal);
  }
}
