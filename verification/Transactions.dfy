/** Transactions nested by savepoints (platform/postgres/postgres.go) and the signup that relies on them
    (internal/auth/service.go, internal/users/service.go). */
module Transactions {
  import opened Basics

  datatype Table = Users | Profiles | Credentials | Other
  datatype Key = Key(table: Table, id: Id)
  type Data = map<Key, int>

  /** What a function passed to InTx does. A statement may be refused by the database or fail on the way (`ok`); the
      function may carry on after an error (`swallow`), of a statement or of a nested InTx, or give up. */
  datatype Body =
    | Return
    | Fail
    | Panic
    | Put(key: Key, value: int, insert: bool, ok: bool, swallow: bool, rest: Body)
    | Nested(block: Block, swallow: bool, rest: Body)

  /** One call of InTx; `commits` says whether a commit of a healthy transaction gets through. */
  datatype Block = Block(body: Body, commits: bool)

  datatype End = Done | Errored | Panicked

  /** A failed statement leaves the transaction aborted until a rollback; a commit that does not get through leaves the
      connection broken. */
  datatype Health = Healthy | Aborted | Broken

  /** A write as it was made: inside which calls of InTx, by number. */
  datatype Entry = Entry(key: Key, value: int, chain: set<nat>)

  /** The data as the current transaction sees it, and the history: every write made, and every call that committed. */
  datatype World = World(data: Data, health: Health, log: seq<Entry>, committed: set<nat>, calls: nat)

  // ---------------------------------------------------------------- the code

  predicate Accepts(w: World, key: Key, insert: bool, ok: bool) {
    w.health == Healthy && ok && (insert ==> key !in w.data)
  }

  function Wrote(w: World, key: Key, value: int, open: set<nat>): World {
    w.(data := w.data[key := value], log := w.log + [Entry(key, value, open)])
  }

  function Refused(w: World): World {
    w.(health := if w.health == Healthy then Aborted else w.health)
  }

  /** Rollback: of a transaction, or to a savepoint of one whose connection still works. */
  function RolledBack(w: World, snapshot: Data, top: bool): World {
    if top || w.health != Broken then w.(data := snapshot, health := Healthy) else w
  }

  /** The end of InTx. A savepoint that cannot be released is not rolled back either; the enclosing transaction is left
      as it is, aborted or broken. */
  function Closed(w: World, end: End, snapshot: Data, id: nat, top: bool, commits: bool): (World, End) {
    match end
    case Done =>
      if w.health == Healthy && commits then (w.(committed := w.committed + {id}), Done)
      else if top then (RolledBack(w, snapshot, true), Errored)
      else (w.(health := if commits then w.health else Broken), Errored)
    case Errored => (RolledBack(w, snapshot, top), Errored)
    case Panicked => (RolledBack(w, snapshot, top), Panicked)
  }

  function InTx(w: World, block: Block, open: set<nat>): (World, End)
    decreases block
  {
    if w.health != Healthy then (w, Errored)
    else
      var (w', end) := Exec(w.(calls := w.calls + 1), block.body, open + {w.calls});
      Closed(w', end, w.data, w.calls, open == {}, block.commits)
  }

  function Exec(w: World, body: Body, open: set<nat>): (World, End)
    decreases body
  {
    match body
    case Return => (w, Done)
    case Fail => (w, Errored)
    case Panic => (w, Panicked)
    case Put(key, value, insert, ok, swallow, rest) =>
      if Accepts(w, key, insert, ok) then Exec(Wrote(w, key, value, open), rest, open)
      else if swallow then Exec(Refused(w), rest, open)
      else (Refused(w), Errored)
    case Nested(block, swallow, rest) =>
      var (w', end) := InTx(w, block, open);
      if end == Done || (end == Errored && swallow) then Exec(w', rest, open) else (w', end)
  }

  /** The same as a stateful object: Begin takes a snapshot, and the deferred handler decides between commit and
      rollback. */
  class Database {
    var data: Data
    var health: Health
    ghost var log: seq<Entry>
    ghost var committed: set<nat>
    ghost var calls: nat

    ghost function View(): World reads this { World(data, health, log, committed, calls) }

    constructor (data: Data)
      ensures View() == World(data, Healthy, [], {}, 0)
    {
      this.data, health, log, committed, calls := data, Healthy, [], {}, 0;
    }

    method RunInTx(block: Block, top: bool, ghost open: set<nat>) returns (end: End)
      requires top <==> open == {}
      modifies this
      ensures (View(), end) == InTx(old(View()), block, open)
      decreases block
    {
      if health != Healthy { return Errored; }
      ghost var id := calls;
      calls := calls + 1;
      var snapshot := data;
      end := RunBody(block.body, open + {id});
      if end == Done {
        if health == Healthy && block.commits {
          committed := committed + {id};
        } else {
          end := Errored;
          if top {
            data, health := snapshot, Healthy;
          } else if !block.commits {
            health := Broken;
          }
        }
      } else if top || health != Broken {
        data, health := snapshot, Healthy;
      }
    }

    method RunBody(body: Body, ghost open: set<nat>) returns (end: End)
      requires open != {}
      modifies this
      ensures (View(), end) == Exec(old(View()), body, open)
      decreases body
    {
      match body {
        case Return => end := Done;
        case Fail => end := Errored;
        case Panic => end := Panicked;
        case Put(key, value, insert, ok, swallow, rest) =>
          if health == Healthy && ok && (insert ==> key !in data) {
            data := data[key := value];
            log := log + [Entry(key, value, open)];
            end := RunBody(rest, open);
          } else {
            if health == Healthy { health := Aborted; }
            if swallow { end := RunBody(rest, open); } else { end := Errored; }
          }
        case Nested(block, swallow, rest) =>
          end := RunInTx(block, false, open);
          if end == Done || (end == Errored && swallow) { end := RunBody(rest, open); }
      }
    }
  }

  // ---------------------------------------------------------------- what survives

  /** The log, applied to the data it began with, counting only the writes whose enclosing calls are all in `kept`. */
  function Replay(base: Data, log: seq<Entry>, kept: set<nat>): Data {
    if log == [] then base
    else
      var e, before := log[|log| - 1], Replay(base, log[..|log| - 1], kept);
      if e.chain <= kept then before[e.key := e.value] else before
  }

  /** The current view is the replay of what has committed or is still open; every number is a call already made. */
  ghost predicate Consistent(w: World, base: Data, open: set<nat>) {
    && (w.health == Healthy ==> w.data == Replay(base, w.log, w.committed + open))
    && (forall n :: n in w.committed + open ==> n < w.calls)
    && (forall i, n | 0 <= i < |w.log| && n in w.log[i].chain :: n < w.calls)
    && w.committed !! open
  }

  /** How a stretch of execution extends the history: every new write lies inside `open` and every call that committed
      is new. */
  ghost predicate Extends(w: World, w': World, open: set<nat>) {
    && w.log <= w'.log && w.committed <= w'.committed && w.calls <= w'.calls
    && (forall i | |w.log| <= i < |w'.log| :: open <= w'.log[i].chain)
    && (forall n :: n in w'.committed && n < w.calls ==> n in w.committed)
  }

  lemma {:induction false} ReplayDropped(base: Data, log: seq<Entry>, more: seq<Entry>, kept: set<nat>, kept': set<nat>)
    requires forall i | 0 <= i < |log| :: log[i].chain <= kept <==> log[i].chain <= kept'
    requires forall i | 0 <= i < |more| :: !(more[i].chain <= kept')
    ensures Replay(base, log + more, kept') == Replay(base, log, kept)
    decreases |log| + |more|
  {
    if more != [] {
      assert (log + more)[..|log + more| - 1] == log + more[..|more| - 1];
      ReplayDropped(base, log, more[..|more| - 1], kept, kept');
    } else if log != [] {
      assert log + [] == log;
      assert log[..|log| - 1] + [] == log[..|log| - 1];
      ReplayDropped(base, log[..|log| - 1], [], kept, kept');
    }
  }

  lemma ReplayNext(base: Data, log: seq<Entry>, e: Entry, kept: set<nat>)
    ensures var before := Replay(base, log, kept);
            Replay(base, log + [e], kept) == if e.chain <= kept then before[e.key := e.value] else before
  {
    assert (log + [e])[..|log|] == log;
  }

  /** A rollback undoes exactly the writes made since the call began. */
  lemma RollbackRestores(w: World, w': World, base: Data, open: set<nat>, id: nat)
    requires Consistent(w, base, open) && w.health == Healthy && id == w.calls
    requires Extends(w.(calls := w.calls + 1), w', open + {id}) && id !in w'.committed
    ensures w.data == Replay(base, w'.log, w'.committed + open)
  {
    var more := w'.log[|w.log|..];
    assert w'.log == w.log + more;
    forall i | 0 <= i < |more| ensures !(more[i].chain <= w'.committed + open) {
      assert more[i] == w'.log[|w.log| + i];
      assert id in more[i].chain;
    }
    ReplayDropped(base, w.log, more, w.committed + open, w'.committed + open);
  }

  lemma ExtendsTrans(a: World, b: World, c: World, open: set<nat>)
    requires Extends(a, b, open) && Extends(b, c, open)
    ensures Extends(a, c, open)
  {
    forall i | |a.log| <= i < |c.log| ensures open <= c.log[i].chain {
      if i < |b.log| { assert c.log[i] == b.log[i]; }
    }
  }

  /** A nested call's history, seen from the call around it. */
  lemma ExtendsOuter(w: World, w': World, open: set<nat>)
    requires Extends(w.(calls := w.calls + 1), w', open + {w.calls}) && w.calls !in w'.committed
    ensures forall c | c == w'.committed || c == w'.committed + {w.calls} :: Extends(w, w'.(committed := c), open)
  {
    forall i | |w.log| <= i < |w'.log| ensures open <= w'.log[i].chain {
      assert open + {w.calls} <= w'.log[i].chain;
    }
  }

  lemma WriteConsistent(w: World, base: Data, open: set<nat>, key: Key, value: int)
    requires Consistent(w, base, open) && w.health == Healthy
    ensures Consistent(Wrote(w, key, value, open), base, open) && Extends(w, Wrote(w, key, value, open), open)
  {
    ReplayNext(base, w.log, Entry(key, value, open), w.committed + open);
  }

  lemma BeginConsistent(w: World, base: Data, open: set<nat>)
    requires Consistent(w, base, open)
    ensures Consistent(w.(calls := w.calls + 1), base, open + {w.calls})
  {
    forall i | 0 <= i < |w.log|
      ensures w.log[i].chain <= w.committed + open <==> w.log[i].chain <= w.committed + (open + {w.calls})
    {
    }
    ReplayDropped(base, w.log, [], w.committed + open, w.committed + (open + {w.calls}));
    assert w.log + [] == w.log;
  }

  lemma CloseConsistent(w: World, w': World, end: End, base: Data, open: set<nat>, commits: bool)
    requires Consistent(w, base, open) && w.health == Healthy
    requires Consistent(w', base, open + {w.calls}) && Extends(w.(calls := w.calls + 1), w', open + {w.calls})
    ensures var r := Closed(w', end, w.data, w.calls, open == {}, commits);
            && Consistent(r.0, base, open) && Extends(w, r.0, open)
            && (r.1 == Done <==> w.calls in r.0.committed)
            && (open == {} ==> r.0.health == Healthy && (r.1 != Done ==> r.0.data == w.data))
  {
    var id := w.calls;
    ExtendsOuter(w, w', open);
    RollbackRestores(w, w', base, open, id);
    assert w'.committed + (open + {id}) == (w'.committed + {id}) + open;
  }

  /** Every nesting keeps the view consistent with its history. */
  lemma {:induction false} InTxConsistent(w: World, block: Block, base: Data, open: set<nat>)
    requires Consistent(w, base, open)
    ensures var (w', end) := InTx(w, block, open);
            && Consistent(w', base, open) && Extends(w, w', open)
            && (w.health == Healthy ==> (end == Done <==> w.calls in w'.committed))
            && (open == {} && w.health == Healthy ==> w'.health == Healthy && (end != Done ==> w'.data == w.data))
    decreases block
  {
    if w.health == Healthy {
      var begun := w.(calls := w.calls + 1);
      BeginConsistent(w, base, open);
      ExecConsistent(begun, block.body, base, open + {w.calls});
      var (w', end) := Exec(begun, block.body, open + {w.calls});
      CloseConsistent(w, w', end, base, open, block.commits);
    }
  }

  lemma {:induction false} ExecConsistent(w: World, body: Body, base: Data, open: set<nat>)
    requires Consistent(w, base, open)
    ensures var w' := Exec(w, body, open).0; Consistent(w', base, open) && Extends(w, w', open)
    decreases body
  {
    match body {
      case Put(key, value, insert, ok, swallow, rest) =>
        if Accepts(w, key, insert, ok) {
          WriteConsistent(w, base, open, key, value);
          var next := Wrote(w, key, value, open);
          ExecConsistent(next, rest, base, open);
          ExtendsTrans(w, next, Exec(next, rest, open).0, open);
        } else if swallow {
          ExecConsistent(Refused(w), rest, base, open);
        }
      case Nested(block, swallow, rest) =>
        InTxConsistent(w, block, base, open);
        var (next, end) := InTx(w, block, open);
        if end == Done || (end == Errored && swallow) {
          ExecConsistent(next, rest, base, open);
          ExtendsTrans(w, next, Exec(next, rest, open).0, open);
        }
      case _ =>
    }
  }

  // ---------------------------------------------------------------- main theorem

  /** Calls of InTx on the pool, one after another. */
  function RunAll(w: World, blocks: seq<Block>): World {
    if blocks == [] then w else InTx(RunAll(w, blocks[..|blocks| - 1]), blocks[|blocks| - 1], {}).0
  }

  /** However calls are nested and whatever fails, is swallowed or panics, the database ends with exactly the writes
      whose whole chain of enclosing calls committed. */
  lemma {:induction false} OnlyCommittedChainsSurvive(base: Data, blocks: seq<Block>)
    ensures var w := RunAll(World(base, Healthy, [], {}, 0), blocks);
            w.data == Replay(base, w.log, w.committed) && w.health == Healthy && Consistent(w, base, {})
  {
    if blocks != [] {
      OnlyCommittedChainsSurvive(base, blocks[..|blocks| - 1]);
      var w := RunAll(World(base, Healthy, [], {}, 0), blocks[..|blocks| - 1]);
      InTxConsistent(w, blocks[|blocks| - 1], base, {});
    }
    var w := RunAll(World(base, Healthy, [], {}, 0), blocks);
    assert w.committed + {} == w.committed;
  }

  /** A call that does not return nil leaves no trace. */
  lemma FailedCallChangesNothing(base: Data, blocks: seq<Block>, block: Block)
    ensures var w := RunAll(World(base, Healthy, [], {}, 0), blocks);
            var (w', end) := InTx(w, block, {});
            && (end == Done <==> w.calls in w'.committed)
            && (end != Done ==> w'.data == w.data)
  {
    OnlyCommittedChainsSurvive(base, blocks);
    InTxConsistent(RunAll(World(base, Healthy, [], {}, 0), blocks), block, base, {});
  }

  // ---------------------------------------------------------------- panics and aborted transactions

  /** A panic was raised somewhere while the call, or the body, was running. */
  predicate RaisedIn(w: World, block: Block, open: set<nat>)
    decreases block
  {
    w.health == Healthy && Raised(w.(calls := w.calls + 1), block.body, open + {w.calls})
  }

  predicate Raised(w: World, body: Body, open: set<nat>)
    decreases body
  {
    match body
    case Panic => true
    case Put(key, value, insert, ok, swallow, rest) =>
      if Accepts(w, key, insert, ok) then Raised(Wrote(w, key, value, open), rest, open)
      else swallow && Raised(Refused(w), rest, open)
    case Nested(block, swallow, rest) =>
      var (w', end) := InTx(w, block, open);
      RaisedIn(w, block, open) || ((end == Done || (end == Errored && swallow)) && Raised(w', rest, open))
    case _ => false
  }

  /** A panic raised at any depth leaves every enclosing call as a panic, never as an error that a caller could swallow;
      and no call panics otherwise. */
  lemma {:induction false} PanicsLeaveIff(w: World, block: Block, open: set<nat>)
    ensures InTx(w, block, open).1 == Panicked <==> RaisedIn(w, block, open)
    decreases block
  {
    if w.health == Healthy {
      BodyPanicsIff(w.(calls := w.calls + 1), block.body, open + {w.calls});
    }
  }

  lemma {:induction false} BodyPanicsIff(w: World, body: Body, open: set<nat>)
    ensures Exec(w, body, open).1 == Panicked <==> Raised(w, body, open)
    decreases body
  {
    match body {
      case Put(key, value, insert, ok, swallow, rest) =>
        if Accepts(w, key, insert, ok) {
          BodyPanicsIff(Wrote(w, key, value, open), rest, open);
        } else if swallow {
          BodyPanicsIff(Refused(w), rest, open);
        }
      case Nested(block, swallow, rest) =>
        PanicsLeaveIff(w, block, open);
        BodyPanicsIff(InTx(w, block, open).0, rest, open);
      case _ =>
    }
  }

  /** After a statement has failed, nothing a body goes on to do changes anything, until a rollback. */
  lemma {:induction false} AbortedIsStuck(w: World, body: Body, open: set<nat>)
    requires w.health != Healthy
    ensures Exec(w, body, open).0 == w
    decreases body
  {
    match body {
      case Put(_, _, _, _, swallow, rest) => if swallow { AbortedIsStuck(w, rest, open); }
      case Nested(_, swallow, rest) => if swallow { AbortedIsStuck(w, rest, open); }
      case _ =>
    }
  }

  // ---------------------------------------------------------------- signup

  /** The statements of one signup that the database accepts, and the commits that get through. */
  datatype Luck = Luck(valid: bool, user: bool, profile: bool, release: bool, credential: bool, commit: bool,
                       panics: bool)

  /** users.Service.Create: the account and its profile, in an InTx of their own. */
  function CreateUser(id: Id, email: int, luck: Luck): Block {
    Block(Put(Key(Users, id), email, true, luck.user, false,
          Put(Key(Profiles, id), 0, true, luck.profile, false,
          if luck.panics then Panic else Return)), luck.release)
  }

  /** Signup's transaction; an invalid address or handle is refused before any statement. */
  function Signup(id: Id, email: int, hash: int, luck: Luck): Block {
    Block(if !luck.valid then Fail
          else Nested(CreateUser(id, email, luck), false,
               Put(Key(Credentials, id), hash, true, luck.credential, false, Return)), luck.commit)
  }

  ghost predicate SameKeys(d: Data) {
    forall id ::
      (Key(Users, id) in d <==> Key(Profiles, id) in d) && (Key(Users, id) in d <==> Key(Credentials, id) in d)
  }

  /** An insert whose failure ends the body: if the body is done, the row is there. */
  lemma PutDone(w: World, key: Key, value: int, ok: bool, rest: Body, open: set<nat>)
    requires Exec(w, Put(key, value, true, ok, false, rest), open).1 == Done
    ensures w.health == Healthy && ok && key !in w.data
    ensures Exec(w, Put(key, value, true, ok, false, rest), open) == Exec(Wrote(w, key, value, open), rest, open)
  {
  }

  lemma CreateUserDone(w: World, id: Id, email: int, luck: Luck, open: set<nat>)
    requires w.health == Healthy && InTx(w, CreateUser(id, email, luck), open).1 == Done
    ensures var w' := InTx(w, CreateUser(id, email, luck), open).0;
            w'.data == w.data[Key(Users, id) := email][Key(Profiles, id) := 0] && w'.health == Healthy
    ensures Key(Users, id) !in w.data && Key(Profiles, id) !in w.data
    ensures luck.user && luck.profile && luck.release && !luck.panics
  {
    var begun, inside := w.(calls := w.calls + 1), open + {w.calls};
    var last := if luck.panics then Panic else Return;
    var profile := Put(Key(Profiles, id), 0, true, luck.profile, false, last);
    PutDone(begun, Key(Users, id), email, luck.user, profile, inside);
    var withUser := Wrote(begun, Key(Users, id), email, inside);
    PutDone(withUser, Key(Profiles, id), 0, luck.profile, last, inside);
  }

  /** Everything a signup meets is in order. */
  predicate AllGoesWell(luck: Luck) {
    && luck.valid && luck.user && luck.profile && luck.release && luck.credential && luck.commit && !luck.panics
  }

  lemma CreateUserSucceeds(w: World, id: Id, email: int, luck: Luck, open: set<nat>)
    requires w.health == Healthy && AllGoesWell(luck)
    requires Key(Users, id) !in w.data && Key(Profiles, id) !in w.data
    ensures InTx(w, CreateUser(id, email, luck), open).1 == Done
  {
    var begun, inside := w.(calls := w.calls + 1), open + {w.calls};
    var profile := Put(Key(Profiles, id), 0, true, true, false, Return);
    var withUser := Wrote(begun, Key(Users, id), email, inside);
    assert Exec(begun, Put(Key(Users, id), email, true, true, false, profile), inside) ==
           Exec(withUser, profile, inside);
  }

  lemma NestedPutSucceeds(w: World, block: Block, key: Key, value: int, open: set<nat>)
    requires InTx(w, block, open).1 == Done
    requires InTx(w, block, open).0.health == Healthy && key !in InTx(w, block, open).0.data
    ensures var (w', end) := Exec(w, Nested(block, false, Put(key, value, true, true, false, Return)), open);
            end == Done && w'.health == Healthy
  {
    var put, next := Put(key, value, true, true, false, Return), InTx(w, block, open).0;
    assert Exec(w, Nested(block, false, put), open) == Exec(next, put, open);
    assert Exec(next, put, open) == Exec(Wrote(next, key, value, open), Return, open);
  }

  lemma SignupSucceeds(w: World, id: Id, email: int, hash: int, luck: Luck)
    requires w.health == Healthy && AllGoesWell(luck)
    requires Key(Users, id) !in w.data && Key(Profiles, id) !in w.data && Key(Credentials, id) !in w.data
    ensures InTx(w, Signup(id, email, hash, luck), {}).1 == Done
  {
    var begun, inside := w.(calls := w.calls + 1), {w.calls};
    assert {} + inside == inside;
    CreateUserSucceeds(begun, id, email, luck, inside);
    CreateUserDone(begun, id, email, luck, inside);
    NestedPutSucceeds(begun, CreateUser(id, email, luck), Key(Credentials, id), hash, inside);
  }

  /** A signup succeeds exactly when everything it meets is in order and none of its rows was there. */
  lemma SignupDoneIff(w: World, id: Id, email: int, hash: int, luck: Luck)
    requires w.health == Healthy
    ensures InTx(w, Signup(id, email, hash, luck), {}).1 == Done <==>
            AllGoesWell(luck)
            && Key(Users, id) !in w.data && Key(Profiles, id) !in w.data && Key(Credentials, id) !in w.data
  {
    if InTx(w, Signup(id, email, hash, luck), {}).1 == Done {
      SignupDone(w, id, email, hash, luck);
    } else if AllGoesWell(luck) && Key(Users, id) !in w.data && Key(Profiles, id) !in w.data {
      if Key(Credentials, id) !in w.data { SignupSucceeds(w, id, email, hash, luck); }
    }
  }

  /** A signup that succeeds has made all three rows, none of which was there. */
  lemma SignupDone(w: World, id: Id, email: int, hash: int, luck: Luck)
    requires w.health == Healthy && InTx(w, Signup(id, email, hash, luck), {}).1 == Done
    ensures InTx(w, Signup(id, email, hash, luck), {}).0.data ==
            w.data[Key(Users, id) := email][Key(Profiles, id) := 0][Key(Credentials, id) := hash]
    ensures Key(Users, id) !in w.data && Key(Profiles, id) !in w.data && Key(Credentials, id) !in w.data
    ensures AllGoesWell(luck)
  {
    assert luck.valid;
    OuterDone(w, CreateUser(id, email, luck), Key(Credentials, id), hash, luck.credential, luck.commit);
    CreateUserDone(w.(calls := w.calls + 1), id, email, luck, {w.calls});
  }

  /** A call that returned nil ran its body to the end. */
  lemma DoneInside(w: World, block: Block, open: set<nat>)
    requires w.health == Healthy && InTx(w, block, open).1 == Done
    ensures var (inner, end) := Exec(w.(calls := w.calls + 1), block.body, open + {w.calls});
            end == Done && InTx(w, block, open).0.data == inner.data && block.commits
  {
  }

  lemma OuterDone(w: World, block: Block, key: Key, value: int, ok: bool, commits: bool)
    requires w.health == Healthy
    requires InTx(w, Block(Nested(block, false, Put(key, value, true, ok, false, Return)), commits), {}).1 == Done
    ensures var (inner, end) := InTx(w.(calls := w.calls + 1), block, {w.calls});
            && end == Done && key !in inner.data && ok && commits
            && InTx(w, Block(Nested(block, false, Put(key, value, true, ok, false, Return)), commits), {}).0.data ==
               inner.data[key := value]
  {
    var put := Put(key, value, true, ok, false, Return);
    var begun, inside := w.(calls := w.calls + 1), {w.calls};
    assert {} + inside == inside;
    DoneInside(w, Block(Nested(block, false, put), commits), {});
    NestedThenPut(begun, block, key, value, ok, inside);
  }

  lemma NestedThenPut(w: World, block: Block, key: Key, value: int, ok: bool, open: set<nat>)
    requires Exec(w, Nested(block, false, Put(key, value, true, ok, false, Return)), open).1 == Done
    ensures InTx(w, block, open).1 == Done && key !in InTx(w, block, open).0.data && ok
    ensures Exec(w, Nested(block, false, Put(key, value, true, ok, false, Return)), open).0.data ==
            InTx(w, block, open).0.data[key := value]
  {
    NestedDone(w, block, Put(key, value, true, ok, false, Return), open);
    PutDone(InTx(w, block, open).0, key, value, ok, Return, open);
  }

  lemma NestedDone(w: World, block: Block, rest: Body, open: set<nat>)
    requires Exec(w, Nested(block, false, rest), open).1 == Done
    ensures InTx(w, block, open).1 == Done
    ensures Exec(w, Nested(block, false, rest), open) == Exec(InTx(w, block, open).0, rest, open)
  {
  }

  datatype Request = Request(id: Id, email: int, hash: int, luck: Luck)

  function SignupBlocks(requests: seq<Request>): seq<Block> {
    seq(|requests|, i requires 0 <= i < |requests| =>
      Signup(requests[i].id, requests[i].email, requests[i].hash, requests[i].luck))
  }

  /** Along every run of signups, whatever fails, users, profiles and credentials have the same keys. */
  lemma {:induction false} SignupsKeepKeys(base: Data, requests: seq<Request>)
    requires SameKeys(base)
    ensures SameKeys(RunAll(World(base, Healthy, [], {}, 0), SignupBlocks(requests)).data)
  {
    if requests != [] {
      var n, start := |requests| - 1, World(base, Healthy, [], {}, 0);
      SignupsKeepKeys(base, requests[..n]);
      assert SignupBlocks(requests)[..n] == SignupBlocks(requests[..n]);
      var w := RunAll(start, SignupBlocks(requests[..n]));
      var r := requests[n];
      OnlyCommittedChainsSurvive(base, SignupBlocks(requests[..n]));
      FailedCallChangesNothing(base, SignupBlocks(requests[..n]), Signup(r.id, r.email, r.hash, r.luck));
      if InTx(w, Signup(r.id, r.email, r.hash, r.luck), {}).1 == Done {
        SignupDone(w, r.id, r.email, r.hash, r.luck);
      }
    }
  }
}
