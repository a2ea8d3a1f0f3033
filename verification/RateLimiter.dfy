/** The token-bucket limiter of platform/security/ratelimit.go.

    Time and tokens are reals. The limiter keeps, for each key, only the level of its bucket and the
    time it was last touched; it refills lazily, creates buckets lazily and lets a sweeper discard
    buckets that would be full. The reference it is measured against, `Declare`, keeps the complete
    list of admitted requests and looks at every window of time: it knows nothing of buckets. */
module RateLimiter {

  datatype Bucket = Bucket(tokens: real, last: real)
  type Table = map<string, Bucket>

  /** `rate` in tokens per second; `burst` is an int in the source, converted to a float. */
  datatype Params = Params(rate: real, burst: nat) {
    function Cap(): real { burst as real }
    ghost predicate Sane() { rate > 0.0 && burst >= 1 }
  }

  datatype Event = Allow(key: string, now: real) | Reset(key: string) | Sweep(tick: real)

  // ---------------------------------------------------------------- the limiter, step by step

  /** Tokens the rate produces between two clock readings. */
  function Earned(p: Params, since: real, now: real): real {
    (now - since) * p.rate
  }

  function Refilled(p: Params, b: Bucket, now: real): real {
    var level := b.tokens + Earned(p, b.last, now);
    if level > p.Cap() then p.Cap() else level
  }

  function AllowStep(p: Params, t: Table, key: string, now: real): (Table, bool) {
    if key !in t then
      (t[key := Bucket(p.Cap() - 1.0, now)], true)
    else
      var level := Refilled(p, t[key], now);
      if level < 1.0 then (t[key := Bucket(level, now)], false) else (t[key := Bucket(level - 1.0, now)], true)
  }

  /** The sweeper's test: the computed refill reaches the cap. */
  predicate Expendable(p: Params, b: Bucket, tick: real) {
    b.tokens + Earned(p, b.last, tick) >= p.Cap()
  }

  function SweepStep(p: Params, t: Table, tick: real): Table {
    map k | k in t && !Expendable(p, t[k], tick) :: t[k]
  }

  function Step(p: Params, t: Table, e: Event): (Table, seq<bool>) {
    match e
    case Allow(key, now) => var (t', ok) := AllowStep(p, t, key, now); (t', [ok])
    case Reset(key) => (t - {key}, [])
    case Sweep(tick) => (SweepStep(p, t, tick), [])
  }

  function Run(p: Params, t: Table, es: seq<Event>): (Table, seq<bool>)
    decreases |es|
  {
    if es == [] then (t, [])
    else
      var (t', a) := Step(p, t, es[0]);
      var (t'', b) := Run(p, t', es[1..]);
      (t'', a + b)
  }

  /** No request carries a clock reading older than a sweep already served; `swept` is the latest tick so far.
      Nothing else is asked of the clock: `Allow` reads it before taking the lock, so readings may reach the
      limiter out of order, and a tick may be arbitrarily stale when it is served. */
  ghost predicate Timed(es: seq<Event>, swept: real) {
    es == [] || (AfterSweeps(es[0], swept) && Timed(es[1..], Latest(es[0], swept)))
  }

  ghost predicate AfterSweeps(e: Event, swept: real) {
    e.Allow? ==> swept <= e.now
  }

  ghost function Latest(e: Event, swept: real): real {
    if e.Sweep? && e.tick > swept then e.tick else swept
  }

  // ---------------------------------------------------------------- the declarative limiter

  /** Times of the requests admitted for each key since that key's last reset; nothing is forgotten. */
  type History = map<string, seq<real>>

  function Admitted(h: History, key: string): seq<real> {
    if key in h then h[key] else []
  }

  /** What the limit lets through between two moments: a burst, and what the rate adds. */
  function Allowance(p: Params, since: real, until: real): real {
    p.burst as real + (until - since) * p.rate
  }

  /** Counting one more request at `now`, the window opened by the i-th admitted request is too full. */
  ghost predicate Overruns(p: Params, a: seq<real>, i: nat, now: real)
    requires i < |a|
  {
    (|a| - i + 1) as real > Allowance(p, a[i], now)
  }

  ghost predicate Denied(p: Params, a: seq<real>, now: real) {
    exists i: nat | i < |a| :: Overruns(p, a, i, now)
  }

  ghost function Declare(p: Params, h: History, e: Event): (History, seq<bool>) {
    match e
    case Allow(key, now) =>
      var a := Admitted(h, key);
      if Denied(p, a, now) then (h, [false]) else (h[key := a + [now]], [true])
    case Reset(key) => (h - {key}, [])
    case Sweep(_) => (h, [])
  }

  ghost function DeclareRun(p: Params, h: History, es: seq<Event>): (History, seq<bool>)
    decreases |es|
  {
    if es == [] then (h, [])
    else
      var (h', a) := Declare(p, h, es[0]);
      var (h'', b) := DeclareRun(p, h', es[1..]);
      (h'', a + b)
  }

  // ---------------------------------------------------------------- the level is a minimum over windows

  /** What the window opened by the i-th admitted request leaves available at `now`. */
  ghost function Headroom(p: Params, a: seq<real>, i: nat, now: real): real
    requires i < |a|
  {
    Left(p, a[i], |a| - i, now)
  }

  /** What is left at `now` of a window opened at `since` in which `n` requests were admitted. */
  ghost function Left(p: Params, since: real, n: nat, now: real): real {
    p.Cap() + Earned(p, since, now) - n as real
  }

  /** `x` is the least headroom over all windows, or the cap if every window leaves more. */
  ghost predicate IsLevel(p: Params, a: seq<real>, now: real, x: real) {
    && x <= p.Cap()
    && (forall i: nat | i < |a| :: x <= Headroom(p, a, i, now))
    && (x == p.Cap() || exists i: nat | i < |a| :: x == Headroom(p, a, i, now))
  }

  /** A stored bucket holds the level of its key's windows and is never full; a key without a bucket has had only
      full windows since the latest sweep. */
  ghost predicate Agrees(p: Params, t: Table, h: History, swept: real) {
    forall key: string ::
      && (key in t ==> IsLevel(p, Admitted(h, key), t[key].last, t[key].tokens) && t[key].tokens < p.Cap())
      && (key !in t ==> IsLevel(p, Admitted(h, key), swept, p.Cap()))
  }

  lemma EarnedIs(p: Params, since: real, now: real)
    ensures Earned(p, since, now) == (now - since) * p.rate
  {
  }

  lemma EarnedAdds(p: Params, r: real, s: real, t: real)
    ensures Earned(p, r, t) == Earned(p, r, s) + Earned(p, s, t)
    ensures Earned(p, t, t) == 0.0
  {
  }

  lemma ProductSign(x: real, y: real)
    requires x >= 0.0 && y > 0.0
    ensures x * y >= 0.0
  {
  }

  lemma EarnedSign(p: Params, s: real, t: real)
    requires p.Sane() && s <= t
    ensures Earned(p, s, t) >= 0.0 && Earned(p, t, s) <= 0.0
  {
    ProductSign(t - s, p.rate);
    EarnedAdds(p, s, t, s);
  }

  lemma FullStaysFull(p: Params, a: seq<real>, s: real, t: real)
    requires p.Sane() && s <= t && IsLevel(p, a, s, p.Cap())
    ensures IsLevel(p, a, t, p.Cap())
  {
    forall i: nat | i < |a| ensures p.Cap() <= Headroom(p, a, i, t) {
      assert p.Cap() <= Headroom(p, a, i, s);
      EarnedAdds(p, a[i], s, t);
      EarnedSign(p, s, t);
    }
  }

  /** Refilling a bucket that is not full keeps it the minimum over all windows, forwards or backwards in time. */
  lemma RefillIsLevel(p: Params, a: seq<real>, b: Bucket, now: real)
    requires p.Sane() && IsLevel(p, a, b.last, b.tokens) && b.tokens < p.Cap()
    ensures IsLevel(p, a, now, Refilled(p, b, now))
  {
    forall i: nat | i < |a| ensures Headroom(p, a, i, now) == Headroom(p, a, i, b.last) + Earned(p, b.last, now) {
      EarnedAdds(p, a[i], b.last, now);
    }
    var i: nat :| i < |a| && b.tokens == Headroom(p, a, i, b.last);
    assert Refilled(p, b, now) == p.Cap() || Refilled(p, b, now) == Headroom(p, a, i, now);
  }

  lemma HeadroomAfterAdmitting(p: Params, a: seq<real>, i: nat, now: real)
    requires i <= |a|
    ensures Headroom(p, a + [now], i, now) == (if i < |a| then Headroom(p, a, i, now) else p.Cap()) - 1.0
  {
    if i == |a| {
      EarnedAdds(p, now, now, now);
    } else {
      assert (a + [now])[i] == a[i];
      assert Left(p, a[i], |a| - i + 1, now) == Left(p, a[i], |a| - i, now) - 1.0;
    }
  }

  lemma AdmitIsLevel(p: Params, a: seq<real>, now: real, x: real)
    requires p.Sane() && IsLevel(p, a, now, x)
    ensures IsLevel(p, a + [now], now, x - 1.0)
  {
    var a' := a + [now];
    forall i: nat | i < |a'|
      ensures Headroom(p, a', i, now) == (if i < |a| then Headroom(p, a, i, now) else p.Cap()) - 1.0
    {
      HeadroomAfterAdmitting(p, a, i, now);
    }
    if x == p.Cap() {
      assert x - 1.0 == Headroom(p, a', |a|, now);
    } else {
      var i: nat :| i < |a| && x == Headroom(p, a, i, now);
      assert x - 1.0 == Headroom(p, a', i, now);
    }
  }

  /** A request finds less than one token exactly when some window would overrun. */
  lemma DeniedBelowOne(p: Params, a: seq<real>, now: real, x: real)
    requires p.Sane() && IsLevel(p, a, now, x)
    ensures x < 1.0 <==> Denied(p, a, now)
  {
    forall i: nat | i < |a| ensures Overruns(p, a, i, now) <==> Headroom(p, a, i, now) < 1.0 {
    }
    if x < 1.0 {
      var i: nat :| i < |a| && x == Headroom(p, a, i, now);
      assert Overruns(p, a, i, now);
    }
  }

  /** One event keeps stored levels and history in agreement and is answered the same way by both. */
  lemma StepAgrees(p: Params, t: Table, h: History, swept: real, e: Event)
    requires p.Sane() && Agrees(p, t, h, swept) && AfterSweeps(e, swept)
    ensures Agrees(p, Step(p, t, e).0, Declare(p, h, e).0, Latest(e, swept))
    ensures Step(p, t, e).1 == Declare(p, h, e).1
  {
    var t', h', swept' := Step(p, t, e).0, Declare(p, h, e).0, Latest(e, swept);
    match e {
      case Allow(key, now) =>
        var a := Admitted(h, key);
        var x := if key in t then Refilled(p, t[key], now) else p.Cap();
        if key in t { RefillIsLevel(p, a, t[key], now); } else { FullStaysFull(p, a, swept, now); }
        DeniedBelowOne(p, a, now, x);
        AdmitIsLevel(p, a, now, x);
      case Reset(key) =>
      case Sweep(tick) =>
        forall k: string | k !in t' ensures IsLevel(p, Admitted(h', k), swept', p.Cap()) {
          if k in t {
            RefillIsLevel(p, Admitted(h, k), t[k], tick);
            FullStaysFull(p, Admitted(h, k), tick, swept');
          } else {
            FullStaysFull(p, Admitted(h, k), swept, swept');
          }
        }
    }
  }

  // ---------------------------------------------------------------- the limiter as an object

  class Limiter {
    const p: Params
    var buckets: Table

    // What the declarative limiter would remember, and the latest tick served; kept for the contracts only.
    ghost var history: History
    ghost var swept: real

    ghost predicate Valid() reads this {
      p.Sane() && Agrees(p, buckets, history, swept)
    }

    constructor (rate: real, burst: nat)
      ensures p == Params(rate, burst) && buckets == map[] && history == map[]
      ensures p.Sane() ==> Valid()
    {
      p := Params(rate, burst);
      buckets := map[];
      history, swept := map[], 0.0;
    }

    method AllowAt(key: string, now: real) returns (ok: bool)
      modifies this
      ensures (buckets, [ok]) == Step(p, old(buckets), Allow(key, now))
      ensures old(Valid()) && old(swept) <= now ==>
                (history, [ok]) == Declare(p, old(history), Allow(key, now)) && Valid() && swept == old(swept)
    {
      ghost var e := Allow(key, now);
      if Valid() && swept <= now {
        StepAgrees(p, buckets, history, swept, e);
      }
      history := Declare(p, history, e).0;
      if key !in buckets {
        buckets := buckets[key := Bucket(p.Cap() - 1.0, now)];
        return true;
      }
      var b := buckets[key];
      b := b.(tokens := b.tokens + Earned(p, b.last, now));
      if b.tokens > p.Cap() {
        b := b.(tokens := p.Cap());
      }
      b := b.(last := now);
      if b.tokens < 1.0 {
        buckets := buckets[key := b];
        assert b == Bucket(Refilled(p, old(buckets)[key], now), now);
        return false;
      }
      buckets := buckets[key := b.(tokens := b.tokens - 1.0)];
      return true;
    }

    method ResetKey(key: string)
      modifies this
      ensures buckets == Step(p, old(buckets), Reset(key)).0
      ensures history == Declare(p, old(history), Reset(key)).0 && swept == old(swept)
      ensures old(Valid()) ==> Valid()
    {
      history := history - {key};
      buckets := buckets - {key};
    }

    /** One tick of the sweeper: visits the keys in no particular order, deleting as it goes. */
    method SweepTick(tick: real)
      modifies this
      ensures buckets == Step(p, old(buckets), Sweep(tick)).0
      ensures history == old(history) && swept == Latest(Sweep(tick), old(swept))
      ensures old(Valid()) ==> Valid()
    {
      if Valid() {
        StepAgrees(p, buckets, history, swept, Sweep(tick));
      }
      swept := Latest(Sweep(tick), swept);
      var todo := buckets.Keys;
      while todo != {}
        invariant history == old(history) && swept == Latest(Sweep(tick), old(swept))
        invariant todo <= buckets.Keys <= old(buckets).Keys
        invariant forall k :: k in buckets ==> buckets[k] == old(buckets)[k]
        invariant forall k :: k in old(buckets) && k !in todo ==>
                                (k in buckets <==> !Expendable(p, old(buckets)[k], tick))
        decreases |todo|
      {
        var key :| key in todo;
        todo := todo - {key};
        if Expendable(p, buckets[key], tick) {
          buckets := buckets - {key};
        }
      }
      assert buckets == SweepStep(p, old(buckets), tick);
    }
  }

  // ---------------------------------------------------------------- main results

  /** Over any sequence of requests, resets and sweeps on any keys, every answer is the one the declarative limiter
      gives, and every stored level is the minimum over all windows. */
  lemma {:induction false} RunAgrees(p: Params, t: Table, h: History, swept: real, es: seq<Event>)
    requires p.Sane() && Agrees(p, t, h, swept) && Timed(es, swept)
    ensures Run(p, t, es).1 == DeclareRun(p, h, es).1
    ensures exists swept' :: swept' >= swept && Agrees(p, Run(p, t, es).0, DeclareRun(p, h, es).0, swept')
    decreases |es|
  {
    if es == [] {
      assert Agrees(p, Run(p, t, es).0, DeclareRun(p, h, es).0, swept);
    } else {
      StepAgrees(p, t, h, swept, es[0]);
      RunAgrees(p, Step(p, t, es[0]).0, Declare(p, h, es[0]).0, Latest(es[0], swept), es[1..]);
    }
  }

  /** The promise behind the limit: no window of time holds more of these requests than its allowance. */
  ghost predicate Within(p: Params, a: seq<real>) {
    forall i: nat, j: nat | i <= j < |a| :: (j - i + 1) as real <= Allowance(p, a[i], a[j])
  }

  lemma AdmittedStaysWithin(p: Params, a: seq<real>, now: real)
    requires p.Sane() && Within(p, a) && !Denied(p, a, now)
    ensures Within(p, a + [now])
  {
    var a' := a + [now];
    forall i: nat, j: nat | i <= j < |a'| ensures (j - i + 1) as real <= Allowance(p, a'[i], a'[j]) {
      if j == |a| && i < |a| {
        assert !Overruns(p, a, i, now);
      } else if j == |a| {
        AllowanceAtOnce(p, now);
      }
    }
  }

  lemma AllowanceAtOnce(p: Params, now: real)
    ensures Allowance(p, now, now) == p.burst as real
  {
  }

  lemma AllowanceIs(p: Params, since: real, until: real)
    ensures Allowance(p, since, until) == p.burst as real + (until - since) * p.rate
    ensures Allowance(p, since, until) == p.Cap() + Earned(p, since, until)
  {
  }

  lemma {:induction false} DeclaredStaysWithin(p: Params, h: History, es: seq<Event>)
    requires p.Sane() && forall k :: k in h ==> Within(p, h[k])
    ensures forall k :: k in DeclareRun(p, h, es).0 ==> Within(p, DeclareRun(p, h, es).0[k])
    decreases |es|
  {
    if es != [] {
      if es[0].Allow? && !Denied(p, Admitted(h, es[0].key), es[0].now) {
        AdmittedStaysWithin(p, Admitted(h, es[0].key), es[0].now);
      }
      DeclaredStaysWithin(p, Declare(p, h, es[0]).0, es[1..]);
    }
  }

  /** The times of the requests that the limiter itself allowed, by its own answers, since each key's last reset. */
  function Granted(p: Params, t: Table, g: History, es: seq<Event>): History
    decreases |es|
  {
    if es == [] then g
    else
      var g' := match es[0]
        case Allow(key, now) => if AllowStep(p, t, key, now).1 then g[key := Admitted(g, key) + [now]] else g
        case Reset(key) => g - {key}
        case Sweep(_) => g;
      Granted(p, Step(p, t, es[0]).0, g', es[1..])
  }

  lemma {:induction false} GrantedIsDeclared(p: Params, t: Table, h: History, swept: real, es: seq<Event>)
    requires p.Sane() && Agrees(p, t, h, swept) && Timed(es, swept)
    ensures Granted(p, t, h, es) == DeclareRun(p, h, es).0
    decreases |es|
  {
    if es != [] {
      StepAgrees(p, t, h, swept, es[0]);
      assert es[0].Allow? ==> [AllowStep(p, t, es[0].key, es[0].now).1] == Step(p, t, es[0]).1;
      GrantedIsDeclared(p, Step(p, t, es[0]).0, Declare(p, h, es[0]).0, Latest(es[0], swept), es[1..]);
    }
  }

  /** Over every run, the requests the limiter allows in any window of time number at most the burst plus what the rate
      earns over that window. */
  lemma EveryWindowIsBounded(p: Params, es: seq<Event>, swept: real, key: string, i: nat, j: nat)
    requires p.Sane() && Timed(es, swept) && i <= j < |Admitted(Granted(p, map[], map[], es), key)|
    ensures var a := Admitted(Granted(p, map[], map[], es), key);
            (j - i + 1) as real <= p.burst as real + (a[j] - a[i]) * p.rate
  {
    GrantedStaysWithin(p, es, swept, key);
    var a := Admitted(Granted(p, map[], map[], es), key);
    AllowanceIs(p, a[i], a[j]);
  }

  lemma GrantedStaysWithin(p: Params, es: seq<Event>, swept: real, key: string)
    requires p.Sane() && Timed(es, swept)
    ensures Within(p, Admitted(Granted(p, map[], map[], es), key))
  {
    assert Agrees(p, map[], map[], swept);
    GrantedIsDeclared(p, map[], map[], swept, es);
    DeclaredStaysWithin(p, map[], es);
  }

  lemma {:induction false} TimedThen(es: seq<Event>, e: Event, swept: real)
    requires Timed(es + [e], swept)
    ensures Timed(es, swept) && AfterSweeps(e, LatestOf(es, swept))
    decreases |es|
  {
    if es == [] {
      assert es + [e] == [e];
    } else {
      assert (es + [e])[0] == es[0] && (es + [e])[1..] == es[1..] + [e];
      TimedThen(es[1..], e, Latest(es[0], swept));
    }
  }

  /** The latest tick served by the end of a run. */
  ghost function LatestOf(es: seq<Event>, swept: real): real
    decreases |es|
  {
    if es == [] then swept else LatestOf(es[1..], Latest(es[0], swept))
  }

  lemma {:induction false} RunStaysInAgreement(p: Params, t: Table, h: History, swept: real, es: seq<Event>)
    requires p.Sane() && Agrees(p, t, h, swept) && Timed(es, swept)
    ensures Agrees(p, Run(p, t, es).0, Granted(p, t, h, es), LatestOf(es, swept))
    decreases |es|
  {
    if es != [] {
      StepAgrees(p, t, h, swept, es[0]);
      assert es[0].Allow? ==> [AllowStep(p, t, es[0].key, es[0].now).1] == Step(p, t, es[0]).1;
      RunStaysInAgreement(p, Step(p, t, es[0]).0, Declare(p, h, es[0]).0, Latest(es[0], swept), es[1..]);
    }
  }

  /** For every request allowed earlier, those allowed since it and one more at `now` number no more than the burst plus
      what the rate earns in between. */
  ghost predicate FitsEveryWindow(p: Params, a: seq<real>, now: real) {
    forall i: nat | i < |a| :: (|a| - i + 1) as real <= p.burst as real + (now - a[i]) * p.rate
  }

  /** The limiter is exact. After any run a request is denied if and only if, for some request allowed earlier on its
      key since the last reset, the requests allowed since then and this one would number more than the burst plus what
      the rate earns in between. */
  lemma LimiterIsExact(p: Params, es: seq<Event>, swept: real, key: string, now: real)
    requires p.Sane() && Timed(es + [Allow(key, now)], swept)
    ensures var a := Admitted(Granted(p, map[], map[], es), key);
            AllowStep(p, Run(p, map[], es).0, key, now).1 <==> FitsEveryWindow(p, a, now)
  {
    TimedThen(es, Allow(key, now), swept);
    assert Agrees(p, map[], map[], swept);
    RunStaysInAgreement(p, map[], map[], swept, es);
    AllowedUnlessDenied(p, Run(p, map[], es).0, Granted(p, map[], map[], es), LatestOf(es, swept), key, now);
    DeniedWrittenOut(p, Admitted(Granted(p, map[], map[], es), key), now);
  }

  lemma AllowedUnlessDenied(p: Params, t: Table, h: History, swept: real, key: string, now: real)
    requires p.Sane() && Agrees(p, t, h, swept) && swept <= now
    ensures AllowStep(p, t, key, now).1 <==> !Denied(p, Admitted(h, key), now)
  {
    var e := Allow(key, now);
    StepAgrees(p, t, h, swept, e);
    assert [AllowStep(p, t, key, now).1] == Step(p, t, e).1;
  }

  lemma DeniedWrittenOut(p: Params, a: seq<real>, now: real)
    ensures !Denied(p, a, now) <==> FitsEveryWindow(p, a, now)
  {
    forall i: nat | i < |a|
      ensures Overruns(p, a, i, now) <==> !((|a| - i + 1) as real <= p.burst as real + (now - a[i]) * p.rate)
    {
      AllowanceIs(p, a[i], now);
    }
  }

  function Unswept(es: seq<Event>): seq<Event> {
    if es == [] then [] else (if es[0].Sweep? then [] else [es[0]]) + Unswept(es[1..])
  }

  lemma {:induction false} DeclareIgnoresSweeps(p: Params, h: History, es: seq<Event>)
    ensures DeclareRun(p, h, Unswept(es)) == DeclareRun(p, h, es)
    decreases |es|
  {
    if es != [] {
      var h' := Declare(p, h, es[0]).0;
      DeclareIgnoresSweeps(p, h', es[1..]);
      if es[0].Sweep? {
        assert Unswept(es) == Unswept(es[1..]);
        assert [] + DeclareRun(p, h', es[1..]).1 == DeclareRun(p, h', es[1..]).1;
      } else {
        assert Unswept(es)[0] == es[0] && Unswept(es)[1..] == Unswept(es[1..]);
      }
    }
  }

  lemma {:induction false} UnsweptTimed(es: seq<Event>, swept: real, swept': real)
    requires Timed(es, swept) && swept' <= swept
    ensures Timed(Unswept(es), swept')
    decreases |es|
  {
    if es != [] {
      UnsweptTimed(es[1..], Latest(es[0], swept), swept');
      if es[0].Sweep? {
        assert Unswept(es) == Unswept(es[1..]);
      } else {
        assert Unswept(es)[0] == es[0] && Unswept(es)[1..] == Unswept(es[1..]);
      }
    }
  }

  /** Sweeping is invisible: taking every sweep out of a run changes no answer. */
  lemma SweepIsInvisible(p: Params, es: seq<Event>, swept: real)
    requires p.Sane() && Timed(es, swept)
    ensures Run(p, map[], es).1 == Run(p, map[], Unswept(es)).1
  {
    assert Agrees(p, map[], map[], swept);
    RunAgrees(p, map[], map[], swept, es);
    UnsweptTimed(es, swept, swept);
    RunAgrees(p, map[], map[], swept, Unswept(es));
    DeclareIgnoresSweeps(p, map[], es);
  }

  // ---------------------------------------------------------------- requests older than a sweep

  /** What may follow: any resets, any further sweeps, and requests whose clock readings are not before `c`. */
  ghost predicate From(es: seq<Event>, c: real) {
    forall i | 0 <= i < |es| :: es[i].Allow? ==> c <= es[i].now
  }

  /** No such continuation can tell whether the sweep took place. */
  ghost predicate Unnoticed(p: Params, t: Table, tick: real, c: real) {
    forall es :: From(es, c) ==> Run(p, SweepStep(p, t, tick), es).1 == Run(p, t, es).1
  }

  /** `small` lacks only buckets that are full at `c`. */
  ghost predicate LacksOnlyFull(p: Params, small: Table, big: Table, c: real) {
    && (forall k :: k in small ==> k in big && small[k] == big[k])
    && (forall k :: k in big && k !in small ==> Expendable(p, big[k], c))
  }

  lemma ExpendableLater(p: Params, b: Bucket, s: real, t: real)
    requires p.Sane() && s <= t && Expendable(p, b, s)
    ensures Expendable(p, b, t)
  {
    EarnedSign(p, s, t);
    EarnedAdds(p, b.last, s, t);
  }

  /** A full bucket and no bucket answer alike, and are alike afterwards. */
  lemma StepIgnoresFull(p: Params, small: Table, big: Table, c: real, e: Event)
    requires p.Sane() && LacksOnlyFull(p, small, big, c) && (e.Allow? ==> c <= e.now)
    ensures Step(p, small, e).1 == Step(p, big, e).1
    ensures LacksOnlyFull(p, Step(p, small, e).0, Step(p, big, e).0, c)
  {
    if e.Allow? && e.key in big && e.key !in small {
      ExpendableLater(p, big[e.key], c, e.now);
    }
  }

  lemma {:induction false} RunIgnoresFull(p: Params, small: Table, big: Table, c: real, es: seq<Event>)
    requires p.Sane() && LacksOnlyFull(p, small, big, c) && From(es, c)
    ensures Run(p, small, es).1 == Run(p, big, es).1
    decreases |es|
  {
    if es != [] {
      StepIgnoresFull(p, small, big, c, es[0]);
      RunIgnoresFull(p, Step(p, small, es[0]).0, Step(p, big, es[0]).0, c, es[1..]);
    }
  }

  function Burst(key: string, at: real, n: nat): seq<Event> {
    seq(n, _ => Allow(key, at))
  }

  function AllTrue(n: nat): seq<bool> {
    seq(n, _ => true)
  }

  lemma BurstNext(key: string, at: real, n: nat)
    requires n > 0
    ensures Burst(key, at, n) != [] && Burst(key, at, n)[0] == Allow(key, at)
    ensures Burst(key, at, n)[1..] == Burst(key, at, n - 1)
  {
  }

  lemma OneAllowed(p: Params, t: Table, key: string, at: real, n: nat, t': Table, ok: bool)
    requires n > 0 && AllowStep(p, t, key, at) == (t', ok)
    ensures Run(p, t, Burst(key, at, n)).1 == [ok] + Run(p, t', Burst(key, at, n - 1)).1
    ensures Run(p, t, Burst(key, at, n)).0 == Run(p, t', Burst(key, at, n - 1)).0
  {
    BurstNext(key, at, n);
  }

  /** From a bucket of x tokens exactly the first x requests made at once are allowed. */
  lemma {:induction false} BurstAllowedIff(p: Params, t: Table, key: string, at: real, x: real, n: nat)
    requires key in t && Refilled(p, t[key], at) == x && x <= p.Cap()
    ensures Run(p, t, Burst(key, at, n)).1 == AllTrue(n) <==> n == 0 || n as real <= x
    decreases n
  {
    if n > 0 {
      var (t', ok) := AllowStep(p, t, key, at);
      OneAllowed(p, t, key, at, n, t', ok);
      if ok {
        EarnedAdds(p, at, at, at);
        BurstAllowedIff(p, t', key, at, x - 1.0, n - 1);
        assert AllTrue(n) == [true] + AllTrue(n - 1);
        var rest := Run(p, t', Burst(key, at, n - 1)).1;
        assert ([true] + rest)[1..] == rest && ([true] + AllTrue(n - 1))[1..] == AllTrue(n - 1);
      } else {
        assert Run(p, t, Burst(key, at, n)).1[0] == false;
      }
    }
  }

  lemma NewKeyAllowsBurst(p: Params, t: Table, key: string, at: real)
    requires p.Sane() && key !in t
    ensures Run(p, t, Burst(key, at, p.burst)).1 == AllTrue(p.burst)
  {
    var t' := t[key := Bucket(p.Cap() - 1.0, at)];
    OneAllowed(p, t, key, at, p.burst, t', true);
    EarnedAdds(p, at, at, at);
    BurstAllowedIff(p, t', key, at, p.Cap() - 1.0, p.burst - 1);
    assert AllTrue(p.burst) == [true] + AllTrue(p.burst - 1);
  }

  lemma {:induction false} BurstDrains(p: Params, t: Table, key: string, at: real, n: nat)
    requires p.Sane() && n <= p.burst && key in t && t[key] == Bucket(n as real, at)
    ensures Run(p, t, Burst(key, at, n)).0 == t[key := Bucket(0.0, at)]
    decreases n
  {
    if n == 0 {
      assert t[key := Bucket(0.0, at)] == t;
    } else {
      BurstNext(key, at, n);
      var t' := t[key := Bucket((n - 1) as real, at)];
      EarnedAdds(p, at, at, at);
      assert AllowStep(p, t, key, at).0 == t' && AllowStep(p, t, key, at).1;
      BurstDrains(p, t', key, at, n - 1);
      OneAllowed(p, t, key, at, n, t', true);
    }
  }

  lemma NewKeyDrains(p: Params, t: Table, key: string, at: real)
    requires p.Sane() && key !in t
    ensures Run(p, t, Burst(key, at, p.burst)).0 == t[key := Bucket(0.0, at)]
  {
    var t' := t[key := Bucket((p.burst - 1) as real, at)];
    assert AllowStep(p, t, key, at) == (t', true);
    OneAllowed(p, t, key, at, p.burst, t', true);
    BurstDrains(p, t', key, at, p.burst - 1);
  }

  /** When a new key has used up its burst at one moment, the next request is allowed if and only if the rate has earned
      a whole token since. */
  lemma AfterBurstAllowedIff(p: Params, t: Table, key: string, at: real, now: real)
    requires p.Sane() && key !in t && at <= now
    ensures var (t', answers) := Run(p, t, Burst(key, at, p.burst));
            && (forall i | 0 <= i < |answers| :: answers[i]) && |answers| == p.burst
            && (AllowStep(p, t', key, now).1 <==> (now - at) * p.rate >= 1.0)
  {
    NewKeyAllowsBurst(p, t, key, at);
    NewKeyDrains(p, t, key, at);
    EmptyRefilled(p, at, now);
    assert t[key := Bucket(0.0, at)][key] == Bucket(0.0, at);
  }

  lemma EmptyRefilled(p: Params, at: real, now: real)
    requires p.Sane()
    ensures Refilled(p, Bucket(0.0, at), now) < 1.0 <==> (now - at) * p.rate < 1.0
  {
    EarnedIs(p, at, now);
  }

  /** A sweep goes unnoticed by every continuation with requests from `c` on if and only if every bucket it drops would
      have been full at `c` too; in particular when no request is older than its tick. Otherwise a burst at `c` is
      allowed whole that should have been cut short. */
  lemma SweepUnnoticedIff(p: Params, t: Table, tick: real, c: real)
    requires p.Sane()
    ensures Unnoticed(p, t, tick, c) <==> forall k :: k in t && Expendable(p, t[k], tick) ==> Expendable(p, t[k], c)
    ensures tick <= c ==> Unnoticed(p, t, tick, c)
  {
    var swept := SweepStep(p, t, tick);
    if tick <= c {
      forall k | k in t && Expendable(p, t[k], tick) ensures Expendable(p, t[k], c) {
        ExpendableLater(p, t[k], tick, c);
      }
    }
    if forall k :: k in t && Expendable(p, t[k], tick) ==> Expendable(p, t[k], c) {
      forall es | From(es, c) ensures Run(p, swept, es).1 == Run(p, t, es).1 {
        RunIgnoresFull(p, swept, t, c, es);
      }
    } else {
      var k :| k in t && Expendable(p, t[k], tick) && !Expendable(p, t[k], c);
      assert From(Burst(k, c, p.burst), c);
      NewKeyAllowsBurst(p, swept, k, c);
      BurstAllowedIff(p, t, k, c, Refilled(p, t[k], c), p.burst);
    }
  }

  /** The one request right after the sweep is answered differently exactly when the sweep dropped the bucket and the
      bucket, at that request's older reading, was short of a token. */
  lemma NextRequestNoticesIff(p: Params, t: Table, key: string, tick: real, now: real)
    requires p.Sane()
    ensures AllowStep(p, SweepStep(p, t, tick), key, now).1 != AllowStep(p, t, key, now).1 <==>
            key in t && Expendable(p, t[key], tick) && Refilled(p, t[key], now) < 1.0
    ensures key in t && Expendable(p, t[key], tick) && Refilled(p, t[key], now) < 1.0 ==> now < tick
  {
    if key in t && Expendable(p, t[key], tick) && tick <= now {
      ExpendableLater(p, t[key], tick, now);
    }
  }

  lemma LateRequestExample()
    ensures var p, es := Params(1.0, 1), [Allow("ip", 0.0), Sweep(1.0), Allow("ip", 0.5)];
            Run(p, map[], es).1 == [true, true] && Run(p, map[], Unswept(es)).1 == [true, false]
  {
    var p := Params(1.0, 1);
    var e0, e1, e2 := Allow("ip", 0.0), Sweep(1.0), Allow("ip", 0.5);
    var es := [e0, e1, e2];
    assert es[1..] == [e1, e2] && [e1, e2][1..] == [e2] && [e2][1..] == [];
    assert Step(p, map[], e0).0 == map["ip" := Bucket(0.0, 0.0)];
    assert SweepStep(p, map["ip" := Bucket(0.0, 0.0)], 1.0) == map[];
    assert Run(p, map[], [e2]).1 == [true];
    assert Run(p, map["ip" := Bucket(0.0, 0.0)], [e1, e2]).1 == [true];
    assert Unswept([e2]) == [e2] && Unswept([e1, e2]) == [e2];
    assert Unswept(es) == [e0, e2] && [e0, e2][1..] == [e2];
    assert Run(p, map["ip" := Bucket(0.0, 0.0)], [e2]).1 == [false];
  }

  ghost predicate NoneFull(p: Params, t: Table) {
    forall k :: k in t ==> t[k].tokens < p.Cap()
  }

  lemma {:induction false} RunLeavesNoneFull(p: Params, t: Table, es: seq<Event>)
    requires p.Sane() && NoneFull(p, t)
    ensures NoneFull(p, Run(p, t, es).0)
    decreases |es|
  {
    if es != [] {
      RunLeavesNoneFull(p, Step(p, t, es[0]).0, es[1..]);
    }
  }

  /** Whatever happened before and whatever else the table holds, a sweep whose tick is no later than a bucket's last
      use leaves that bucket alone. */
  lemma StaleSweepSparesBucket(p: Params, es: seq<Event>, key: string, tick: real)
    requires p.Sane() && key in Run(p, map[], es).0 && tick <= Run(p, map[], es).0[key].last
    ensures var t := Run(p, map[], es).0; key in SweepStep(p, t, tick) && SweepStep(p, t, tick)[key] == t[key]
  {
    RunLeavesNoneFull(p, map[], es);
    EarnedSign(p, tick, Run(p, map[], es).0[key].last);
  }

  // ---------------------------------------------------------------- "idle for longer than ttl"

  /** Clock readings that never go back, the ordinary case. */
  ghost predicate Monotone(es: seq<Event>, clock: real) {
    es == [] || match es[0]
      case Allow(_, now) => clock <= now && Monotone(es[1..], now)
      case Reset(_) => Monotone(es[1..], clock)
      case Sweep(_) => Monotone(es[1..], clock)
  }

  ghost predicate Stocked(t: Table, clock: real) {
    forall k :: k in t ==> t[k].tokens >= 0.0 && t[k].last <= clock
  }

  lemma {:induction false} RunStocked(p: Params, t: Table, es: seq<Event>, clock: real)
    requires p.Sane() && Stocked(t, clock) && Monotone(es, clock)
    ensures forall k :: k in Run(p, t, es).0 ==> Run(p, t, es).0[k].tokens >= 0.0
    decreases |es|
  {
    if es != [] {
      var clock' := if es[0].Allow? then es[0].now else clock;
      if es[0].Allow? && es[0].key in t {
        EarnedSign(p, t[es[0].key].last, es[0].now);
      }
      RunStocked(p, Step(p, t, es[0]).0, es[1..], clock');
    }
  }

  /** The source says that buckets idle for longer than `ttl` are discarded. */
  ghost predicate DiscardsIdle(p: Params, ttl: real) {
    forall es: seq<Event>, key: string, tick: real |
      Monotone(es, 0.0) && key in Run(p, map[], es).0 && tick - Run(p, map[], es).0[key].last > ttl ::
      key !in SweepStep(p, Run(p, map[], es).0, tick)
  }

  lemma DrainedBucketKept(p: Params, ttl: real)
    requires p.Sane() && p.Cap() > Earned(p, 0.0, ttl)
    ensures !DiscardsIdle(p, ttl)
  {
    var es := Burst("k", 0.0, p.burst);
    BurstMonotone("k", 0.0, p.burst);
    NewKeyDrains(p, map[], "k", 0.0);
    assert Run(p, map[], es).0 == map["k" := Bucket(0.0, 0.0)];
    var tick := JustBeforeFull(p, ttl);
    assert "k" in SweepStep(p, Run(p, map[], es).0, tick);
  }

  lemma {:induction false} BurstMonotone(key: string, at: real, n: nat)
    ensures Monotone(Burst(key, at, n), at)
  {
    if n > 0 {
      BurstNext(key, at, n);
      BurstMonotone(key, at, n - 1);
    }
  }

  lemma JustBeforeFull(p: Params, ttl: real) returns (tick: real)
    requires p.Sane() && p.Cap() > Earned(p, 0.0, ttl)
    ensures tick > ttl && Earned(p, 0.0, tick) < p.Cap()
  {
    var refill := p.Cap() / p.rate;
    assert Earned(p, 0.0, refill) == refill * p.rate == p.Cap();
    if refill <= ttl {
      EarnedSign(p, refill, ttl);
      EarnedAdds(p, 0.0, refill, ttl);
      assert false;
    }
    tick := (ttl + refill) / 2.0;
    EarnedSign(p, ttl, refill);
    assert Earned(p, 0.0, tick) == (Earned(p, 0.0, ttl) + Earned(p, 0.0, refill)) / 2.0;
  }

  lemma IdleEarnsMore(p: Params, ttl: real, last: real, tick: real)
    requires p.Sane() && tick - last > ttl
    ensures Earned(p, last, tick) >= Earned(p, 0.0, ttl)
  {
    var idle := tick - last;
    assert Earned(p, last, tick) == Earned(p, 0.0, idle);
    EarnedSign(p, ttl, idle);
    EarnedAdds(p, 0.0, ttl, idle);
  }

  /** That holds exactly when a whole burst can refill within `ttl`. */
  lemma IdleBucketsAreDiscardedIff(p: Params, ttl: real)
    requires p.Sane() && ttl > 0.0
    ensures DiscardsIdle(p, ttl) <==> p.burst as real <= ttl * p.rate
  {
    if p.Cap() <= Earned(p, 0.0, ttl) {
      forall es: seq<Event>, key: string, tick: real |
        Monotone(es, 0.0) && key in Run(p, map[], es).0 && tick - Run(p, map[], es).0[key].last > ttl
        ensures key !in SweepStep(p, Run(p, map[], es).0, tick)
      {
        RunStocked(p, map[], es, 0.0);
        IdleEarnsMore(p, ttl, Run(p, map[], es).0[key].last, tick);
      }
    } else {
      DrainedBucketKept(p, ttl);
    }
  }
}
