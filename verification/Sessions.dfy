/** Sessions (internal/auth/service.go, internal/auth/repository.go): sliding renewal, revocation and purging, with
    requests interleaved statement by statement. Time is one nondecreasing clock. */
module Sessions {
  import opened Basics

  const DAY: int := 86_400
  const TTL: int := 14 * DAY
  const RENEW_THRESHOLD: int := 7 * DAY
  const RETENTION: int := 30 * DAY

  /** A row of the sessions table, keyed by session id; the token is stored hashed. */
  datatype Row = Row(user: Id, token: Id, expires: int, revoked: bool)
  type Store = map<Id, Row>

  /** A request inside Authenticate: what it read and when, and the expiry it is about to write. */
  datatype Pending = Pending(session: Id, expires: int, readAt: int, renewed: Option<int>)

  datatype Answer = Denied(req: Id) | Granted(req: Id, session: Id, expires: int)

  datatype Step =
    | Issue(id: Id, user: Id, token: Id, computed: int)
    | Read(req: Id, token: Id)
    | Decide(req: Id)
    | Touch(req: Id, ok: bool)
    | Revoke(id: Id)
    | RevokeAll(user: Id)
    | Purge

  datatype Event = Event(at: int, step: Step)

  /** The table and the requests in flight, with history: every answer, every token ever issued, and for each session
      the last time a request computed an expiry for it. */
  datatype World = World(store: Store, pending: map<Id, Pending>, answers: seq<Answer>, tokens: set<Id>,
                         lastUse: map<Id, int>)

  function Empty(): World {
    World(map[], map[], [], {}, map[])
  }

  // ---------------------------------------------------------------- the statements

  predicate Live(r: Row, token: Id, now: int) {
    r.token == token && !r.revoked && r.expires > now
  }

  /** qLiveSessionByToken; the token hash is unique, so there is at most one. */
  ghost function FindLive(s: Store, token: Id, now: int): Option<Id> {
    if exists id: Id :: id in s && Live(s[id], token, now) then
      var id: Id :| id in s && Live(s[id], token, now); Some(id)
    else None
  }

  function Touched(s: Store, id: Id, expires: int): Store {
    if id in s then s[id := s[id].(expires := expires)] else s
  }

  function Revoked(s: Store, id: Id): Store {
    if id in s then s[id := s[id].(revoked := true)] else s
  }

  function AllRevoked(s: Store, user: Id): Store {
    map id | id in s :: if s[id].user == user then s[id].(revoked := true) else s[id]
  }

  function Purged(s: Store, now: int): Store {
    map id | id in s && s[id].expires >= now - RETENTION :: s[id]
  }

  // ---------------------------------------------------------------- the steps

  ghost function Begun(w: World, req: Id, token: Id, now: int): World {
    match FindLive(w.store, token, now)
    case None => w.(answers := w.answers + [Denied(req)])
    case Some(id) => w.(pending := w.pending[req := Pending(id, w.store[id].expires, now, None)])
  }

  function Answered(w: World, req: Id, expires: int): World
    requires req in w.pending
  {
    w.(pending := w.pending - {req}, answers := w.answers + [Granted(req, w.pending[req].session, expires)])
  }

  function Decided(w: World, req: Id, now: int): World
    requires req in w.pending
  {
    var p := w.pending[req];
    if p.expires - now < RENEW_THRESHOLD then
      w.(pending := w.pending[req := p.(renewed := Some(now + TTL))], lastUse := w.lastUse[p.session := now])
    else Answered(w, req, p.expires)
  }

  function Finished(w: World, req: Id, ok: bool): World
    requires req in w.pending && w.pending[req].renewed.Some?
  {
    var p := w.pending[req];
    if ok then Answered(w.(store := Touched(w.store, p.session, p.renewed.value)), req, p.renewed.value)
    else Answered(w, req, p.expires)
  }

  predicate CanIssue(w: World, step: Step, now: int)
    requires step.Issue?
  {
    step.id !in w.lastUse && step.token !in w.tokens && step.computed <= now
  }

  /** A step that cannot be taken changes nothing. A touch lands at most `delay` after its request's read; without
      `purges` the purge job deletes nothing. */
  ghost function Next(w: World, e: Event, delay: int, purges: bool): World {
    match e.step
    case Issue(id, user, token, computed) =>
      if !CanIssue(w, e.step, e.at) then w
      else w.(store := w.store[id := Row(user, token, computed + TTL, false)], tokens := w.tokens + {token},
              lastUse := w.lastUse[id := computed])
    case Read(req, token) => if req in w.pending then w else Begun(w, req, token, e.at)
    case Decide(req) => if req in w.pending && w.pending[req].renewed.None? then Decided(w, req, e.at) else w
    case Touch(req, ok) =>
      if req in w.pending && w.pending[req].renewed.Some? && e.at <= w.pending[req].readAt + delay
      then Finished(w, req, ok)
      else w
    case Revoke(id) => w.(store := Revoked(w.store, id))
    case RevokeAll(user) => w.(store := AllRevoked(w.store, user))
    case Purge => if purges then w.(store := Purged(w.store, e.at)) else w
  }

  ghost function Run(w: World, events: seq<Event>, delay: int, purges: bool): World
    decreases |events|
  {
    if events == [] then w else Run(Next(w, events[0], delay, purges), events[1..], delay, purges)
  }

  ghost predicate Timed(start: int, events: seq<Event>) {
    && (forall i | 0 <= i < |events| :: start <= events[i].at)
    && (forall i, j | 0 <= i < j < |events| :: events[i].at <= events[j].at)
  }

  // ---------------------------------------------------------------- what every run keeps

  /** Nothing outlives the last use of its session by more than the TTL. */
  ghost predicate ExpiriesOk(s: Store, lastUse: map<Id, int>) {
    forall id :: id in s ==> id in lastUse && s[id].expires <= lastUse[id] + TTL
  }

  ghost predicate PendingOk(pending: map<Id, Pending>, lastUse: map<Id, int>, now: int) {
    forall q :: q in pending ==>
      && pending[q].session in lastUse && pending[q].readAt <= now
      && (pending[q].renewed.Some? ==> pending[q].renewed.value <= lastUse[pending[q].session] + TTL)
  }

  ghost predicate WorldOk(w: World, now: int) {
    && ExpiriesOk(w.store, w.lastUse) && PendingOk(w.pending, w.lastUse, now)
    && (forall id :: id in w.lastUse ==> w.lastUse[id] <= now)
  }

  lemma FindLiveFinds(s: Store, token: Id, now: int)
    ensures var r := FindLive(s, token, now);
            && (r.Some? ==> r.value in s && Live(s[r.value], token, now))
            && (r.None? ==> forall id :: id in s ==> !Live(s[id], token, now))
  {
  }

  lemma IssueKeeps(w: World, e: Event, now: int)
    requires WorldOk(w, now) && now <= e.at && e.step.Issue?
    ensures WorldOk(Next(w, e, 0, true), e.at)
  {
  }

  lemma ReadKeeps(w: World, req: Id, token: Id, now: int)
    requires WorldOk(w, now)
    ensures WorldOk(Begun(w, req, token, now), now)
  {
    FindLiveFinds(w.store, token, now);
  }

  lemma DecideKeeps(w: World, req: Id, now: int)
    requires WorldOk(w, now) && req in w.pending
    ensures WorldOk(Decided(w, req, now), now)
  {
  }

  lemma StoreKeeps(w: World, s: Store, now: int)
    requires WorldOk(w, now)
    requires ExpiriesOk(s, w.lastUse)
    ensures WorldOk(w.(store := s), now)
  {
  }

  lemma FinishKeeps(w: World, req: Id, ok: bool, now: int)
    requires WorldOk(w, now) && req in w.pending && w.pending[req].renewed.Some?
    ensures WorldOk(Finished(w, req, ok), now)
  {
    StoreKeeps(w, Touched(w.store, w.pending[req].session, w.pending[req].renewed.value), now);
  }

  lemma RevokeKeeps(w: World, id: Id, now: int)
    requires WorldOk(w, now)
    ensures WorldOk(w.(store := Revoked(w.store, id)), now)
  {
    StoreKeeps(w, Revoked(w.store, id), now);
  }

  lemma RevokeAllKeeps(w: World, user: Id, now: int)
    requires WorldOk(w, now)
    ensures WorldOk(w.(store := AllRevoked(w.store, user)), now)
  {
    StoreKeeps(w, AllRevoked(w.store, user), now);
  }

  lemma PurgeKeeps(w: World, now: int)
    requires WorldOk(w, now)
    ensures WorldOk(w.(store := Purged(w.store, now)), now)
  {
    StoreKeeps(w, Purged(w.store, now), now);
  }

  lemma LaterKeeps(w: World, now: int, later: int)
    requires WorldOk(w, now) && now <= later
    ensures WorldOk(w, later)
  {
  }

  lemma StepKeeps(w: World, e: Event, delay: int, purges: bool, now: int)
    requires WorldOk(w, now) && now <= e.at
    ensures WorldOk(Next(w, e, delay, purges), e.at)
  {
    LaterKeeps(w, now, e.at);
    if e.step.Issue? {
      IssueKeeps(w, e, e.at);
    } else if e.step.Read? {
      ReadKeeps(w, e.step.req, e.step.token, e.at);
    } else if e.step.Decide? {
      if e.step.req in w.pending { DecideKeeps(w, e.step.req, e.at); }
    } else if e.step.Touch? {
      if e.step.req in w.pending && w.pending[e.step.req].renewed.Some? { FinishKeeps(w, e.step.req, e.step.ok, e.at); }
    } else if e.step.Revoke? {
      RevokeKeeps(w, e.step.id, e.at);
    } else if e.step.RevokeAll? {
      RevokeAllKeeps(w, e.step.user, e.at);
    } else {
      PurgeKeeps(w, e.at);
    }
  }

  function LastTime(start: int, events: seq<Event>): int {
    if events == [] then start else events[|events| - 1].at
  }

  lemma TimedRest(start: int, events: seq<Event>)
    requires Timed(start, events) && events != []
    ensures start <= events[0].at && Timed(events[0].at, events[1..])
    ensures LastTime(events[0].at, events[1..]) == LastTime(start, events)
  {
  }

  lemma {:induction false} RunKeeps(w: World, events: seq<Event>, delay: int, purges: bool, start: int)
    requires WorldOk(w, start) && Timed(start, events)
    ensures WorldOk(Run(w, events, delay, purges), LastTime(start, events))
    decreases |events|
  {
    if events != [] {
      TimedRest(start, events);
      StepKeeps(w, events[0], delay, purges, start);
      RunKeeps(Next(w, events[0], delay, purges), events[1..], delay, purges, events[0].at);
    }
  }

  // ---------------------------------------------------------------- one session per token

  ghost predicate OnePerToken(w: World) {
    && (forall id :: id in w.store ==> w.store[id].token in w.tokens)
    && (forall i, j | i in w.store && j in w.store && w.store[i].token == w.store[j].token :: i == j)
  }

  lemma StoreKeepsOne(w: World, s: Store)
    requires OnePerToken(w) && forall id :: id in s ==> id in w.store && s[id].token == w.store[id].token
    ensures OnePerToken(w.(store := s))
  {
  }

  lemma IssueKeepsOne(w: World, e: Event)
    requires OnePerToken(w) && e.step.Issue?
    ensures OnePerToken(Next(w, e, 0, true))
  {
    var s' := Next(w, e, 0, true).store;
    if CanIssue(w, e.step, e.at) {
      assert forall id :: id in s' && id != e.step.id ==> id in w.store && s'[id] == w.store[id];
    }
  }

  /** The table after any step but Issue: the same rows, perhaps fewer, each with the token and owner it had. */
  lemma StoreOnlyShrinks(w: World, e: Event, delay: int, purges: bool)
    requires !e.step.Issue?
    ensures var w' := Next(w, e, delay, purges);
            && w'.tokens == w.tokens
            && forall id :: id in w'.store ==>
                 && id in w.store && w'.store[id].token == w.store[id].token && w'.store[id].user == w.store[id].user
                 && (w.store[id].revoked ==> w'.store[id].revoked)
  {
  }

  lemma StepKeepsOne(w: World, e: Event, delay: int, purges: bool)
    requires OnePerToken(w)
    ensures OnePerToken(Next(w, e, delay, purges))
  {
    if e.step.Issue? {
      IssueKeepsOne(w, e);
    } else {
      StoreOnlyShrinks(w, e, delay, purges);
      StoreKeepsOne(w, Next(w, e, delay, purges).store);
    }
  }

  lemma {:induction false} RunKeepsOne(w: World, events: seq<Event>, delay: int, purges: bool)
    requires OnePerToken(w)
    ensures OnePerToken(Run(w, events, delay, purges))
    decreases |events|
  {
    if events != [] {
      StepKeepsOne(w, events[0], delay, purges);
      RunKeepsOne(Next(w, events[0], delay, purges), events[1..], delay, purges);
    }
  }

  // ---------------------------------------------------------------- revocation

  /** The token was issued, and no session that is not revoked carries it. */
  ghost predicate Dead(w: World, token: Id) {
    token in w.tokens && forall id :: id in w.store && w.store[id].token == token ==> w.store[id].revoked
  }

  lemma StepStaysDead(w: World, e: Event, delay: int, purges: bool, token: Id)
    requires Dead(w, token)
    ensures Dead(Next(w, e, delay, purges), token)
  {
    if !e.step.Issue? { StoreOnlyShrinks(w, e, delay, purges); }
  }

  lemma {:induction false} RunStaysDead(w: World, events: seq<Event>, delay: int, purges: bool, token: Id)
    requires Dead(w, token)
    ensures Dead(Run(w, events, delay, purges), token)
    decreases |events|
  {
    if events != [] {
      StepStaysDead(w, events[0], delay, purges, token);
      RunStaysDead(Next(w, events[0], delay, purges), events[1..], delay, purges, token);
    }
  }

  /** Whether the event revokes the session. */
  predicate Revokes(e: Event, s: Store, id: Id) {
    e.step == Revoke(id) || (id in s && e.step == RevokeAll(s[id].user))
  }

  /** Once a session is revoked, by Logout or LogoutAll, every Authenticate that reads afterwards is denied, whatever
      renewals, logins and purges were in flight at the revocation or come after it. */
  lemma RevokedForGood(before: seq<Event>, revoke: Event, later: seq<Event>, delay: int, id: Id, req: Id, at: int)
    requires var w := Run(Empty(), before, delay, true); id in w.store && Revokes(revoke, w.store, id)
    ensures var w := Run(Empty(), before, delay, true);
            var after := Run(Next(w, revoke, delay, true), later, delay, true);
            req !in after.pending ==>
              Next(after, Event(at, Read(req, w.store[id].token)), delay, true) ==
              after.(answers := after.answers + [Denied(req)])
  {
    RunKeepsOne(Empty(), before, delay, true);
    var w := Run(Empty(), before, delay, true);
    var token := w.store[id].token;
    var w' := Next(w, revoke, delay, true);
    assert Dead(w', token);
    RunStaysDead(w', later, delay, true, token);
    FindLiveFinds(Run(w', later, delay, true).store, token, at);
  }

  // ---------------------------------------------------------------- expiry

  /** No request on the session can still compute a new expiry. */
  ghost predicate NoneDeciding(w: World, id: Id) {
    forall q :: q in w.pending && w.pending[q].session == id ==> w.pending[q].renewed.Some?
  }

  /** No other row carries the session's token. */
  ghost predicate Holds(s: Store, id: Id, token: Id) {
    forall j :: j in s ==> (s[j].token == token <==> j == id)
  }

  ghost predicate Idle(w: World, id: Id, token: Id) {
    NoneDeciding(w, id) && id in w.lastUse && token in w.tokens && Holds(w.store, id, token)
  }

  lemma IdleStep(w: World, e: Event, delay: int, id: Id, token: Id)
    requires Idle(w, id, token) && !(e.step.Read? && e.step.token == token)
    ensures var w' := Next(w, e, delay, true); Idle(w', id, token) && w'.lastUse[id] == w.lastUse[id]
  {
    if e.step.Read? { FindLiveFinds(w.store, e.step.token, e.at); }
    if !e.step.Issue? { StoreOnlyShrinks(w, e, delay, true); }
  }

  /** No request looks the token up. */
  ghost predicate Unread(events: seq<Event>, token: Id) {
    forall i | 0 <= i < |events| :: !(events[i].step.Read? && events[i].step.token == token)
  }

  lemma {:induction false} IdleRun(w: World, events: seq<Event>, delay: int, id: Id, token: Id)
    requires Idle(w, id, token)
    requires Unread(events, token)
    ensures var w' := Run(w, events, delay, true); Idle(w', id, token) && w'.lastUse[id] == w.lastUse[id]
    decreases |events|
  {
    if events != [] {
      IdleStep(w, events[0], delay, id, token);
      IdleRun(Next(w, events[0], delay, true), events[1..], delay, id, token);
    }
  }

  /** What a request's read finds: the one row with its token that is neither revoked nor expired, or a refusal. */
  lemma ReadFinds(w: World, req: Id, token: Id, at: int, delay: int)
    requires OnePerToken(w) && req !in w.pending
    ensures var w' := Next(w, Event(at, Read(req, token)), delay, true);
            && (forall id :: id in w.store && w.store[id].token == token ==>
                  w' == if !w.store[id].revoked && at < w.store[id].expires
                        then w.(pending := w.pending[req := Pending(id, w.store[id].expires, at, None)])
                        else w.(answers := w.answers + [Denied(req)]))
            && ((forall id :: id in w.store ==> w.store[id].token != token) ==>
                  w' == w.(answers := w.answers + [Denied(req)]))
  {
    FindLiveFinds(w.store, token, at);
  }

  /** A purge deletes exactly the rows that expired more than 2592000 seconds ago, and leaves the others alone. */
  lemma PurgeDeletes(w: World, at: int, delay: int)
    ensures var w' := Next(w, Event(at, Purge), delay, true);
            && w' == w.(store := w'.store)
            && (forall id :: id in w'.store <==> id in w.store && !(w.store[id].expires < at - 2_592_000))
            && (forall id :: id in w'.store ==> w'.store[id] == w.store[id])
  {
  }

  /** A session nobody has used since `since`, not counting renewals already computed by then, is refused fourteen days
      later, whenever those renewals land. */
  lemma UnusedExpires(before: seq<Event>, start: int, since: int, idle: seq<Event>, at: int, delay: int, id: Id,
                      req: Id)
    requires Timed(start, before) && LastTime(start, before) <= since
    requires Timed(since, idle) && LastTime(since, idle) <= at
    requires var w := Run(Empty(), before, delay, true);
             id in w.store && NoneDeciding(w, id) && Unread(idle, w.store[id].token)
    requires at >= since + 1_209_600
    ensures var w := Run(Empty(), before, delay, true); var after := Run(w, idle, delay, true);
            req !in after.pending ==>
              Next(after, Event(at, Read(req, w.store[id].token)), delay, true) ==
              after.(answers := after.answers + [Denied(req)])
  {
    RunKeepsOne(Empty(), before, delay, true);
    RunKeeps(Empty(), before, delay, true, start);
    var w := Run(Empty(), before, delay, true);
    var token := w.store[id].token;
    assert Holds(w.store, id, token);
    IdleRun(w, idle, delay, id, token);
    RunKeeps(w, idle, delay, true, since);
    var after := Run(w, idle, delay, true);
    assert id in after.store ==> after.store[id].expires <= w.lastUse[id] + TTL;
    FindLiveFinds(after.store, token, at);
  }

  // ---------------------------------------------------------------- renewal

  /** Authenticate with nothing in between and a renewal that succeeds. */
  ghost function Authenticated(w: World, req: Id, token: Id, at: int): World {
    var read := Next(w, Event(at, Read(req, token)), 0, true);
    var decided := Next(read, Event(at, Decide(req)), 0, true);
    Next(decided, Event(at, Touch(req, true)), 0, true)
  }

  /** An unrevoked session with at least a week left at `now`, and no request on it in flight. */
  ghost predicate Fresh(w: World, id: Id, token: Id, now: int) {
    && id in w.store && Holds(w.store, id, token) && token in w.tokens && id in w.lastUse
    && !w.store[id].revoked && w.store[id].expires >= now + 604_800
    && forall q :: q in w.pending ==> w.pending[q].session != id
  }

  lemma UseKeepsFresh(w: World, id: Id, token: Id, last: int, req: Id, at: int)
    requires Fresh(w, id, token, last) && last <= at < last + 604_800 && req !in w.pending
    ensures var w' := Authenticated(w, req, token, at);
            && Fresh(w', id, token, at)
            && w'.answers == w.answers + [Granted(req, id, w'.store[id].expires)]
  {
    FindLiveFinds(w.store, token, at);
    assert Live(w.store[id], token, at);
    var p := Pending(id, w.store[id].expires, at, None);
    var read := w.(pending := w.pending[req := p]);
    assert Next(w, Event(at, Read(req, token)), 0, true) == read;
    var decided := Decided(read, req, at);
    assert Next(read, Event(at, Decide(req)), 0, true) == decided;
    if p.expires - at >= RENEW_THRESHOLD {
      assert Next(decided, Event(at, Touch(req, true)), 0, true) == decided;
    } else {
      assert Next(decided, Event(at, Touch(req, true)), 0, true) == Finished(decided, req, true);
    }
  }

  /** Everything else that may happen: other people's logins, requests and logouts, and purges. */
  predicate Elsewhere(e: Event, id: Id, user: Id, token: Id) {
    e.step != Revoke(id) && e.step != RevokeAll(user) && !(e.step.Read? && e.step.token == token)
  }

  lemma OthersKeepFresh(w: World, e: Event, delay: int, id: Id, token: Id, last: int)
    requires Fresh(w, id, token, last) && Elsewhere(e, id, w.store[id].user, token) && e.at < last + 604_800
    ensures var w' := Next(w, e, delay, true); Fresh(w', id, token, last) && w'.store[id] == w.store[id]
  {
    if e.step.Read? { FindLiveFinds(w.store, e.step.token, e.at); }
    if !e.step.Issue? { StoreOnlyShrinks(w, e, delay, true); }
  }

  lemma {:induction false} OthersRunKeepsFresh(w: World, events: seq<Event>, delay: int, id: Id, token: Id, last: int)
    requires Fresh(w, id, token, last)
    requires forall i | 0 <= i < |events| ::
               Elsewhere(events[i], id, w.store[id].user, token) && events[i].at < last + 604_800
    ensures var w' := Run(w, events, delay, true); Fresh(w', id, token, last) && w'.store[id] == w.store[id]
    decreases |events|
  {
    if events != [] {
      OthersKeepFresh(w, events[0], delay, id, token, last);
      OthersRunKeepsFresh(Next(w, events[0], delay, true), events[1..], delay, id, token, last);
    }
  }

  /** One use of the session, and what happened elsewhere since the one before. */
  datatype Use = Use(elsewhere: seq<Event>, req: Id, at: int)

  ghost predicate UsedWithinAWeek(last: int, uses: seq<Use>, id: Id, user: Id, token: Id)
    decreases |uses|
  {
    uses != [] ==>
      && last <= uses[0].at < last + 604_800
      && (forall i | 0 <= i < |uses[0].elsewhere| ::
            Elsewhere(uses[0].elsewhere[i], id, user, token) && uses[0].elsewhere[i].at <= uses[0].at)
      && UsedWithinAWeek(uses[0].at, uses[1..], id, user, token)
  }

  /** Every use is granted (a request number already in flight is no use at all). */
  ghost predicate EveryUseGranted(w: World, uses: seq<Use>, delay: int, id: Id, token: Id)
    decreases |uses|
  {
    uses != [] ==>
      var before := Run(w, uses[0].elsewhere, delay, true);
      var after := Authenticated(before, uses[0].req, token, uses[0].at);
      uses[0].req !in before.pending ==>
        && id in after.store
        && after.answers == before.answers + [Granted(uses[0].req, id, after.store[id].expires)]
        && EveryUseGranted(after, uses[1..], delay, id, token)
  }

  /** A session used at gaps of less than a week never expires, however long the run. */
  lemma {:induction false} ActiveNeverExpires(w: World, id: Id, token: Id, last: int, uses: seq<Use>, delay: int)
    requires Fresh(w, id, token, last) && UsedWithinAWeek(last, uses, id, w.store[id].user, token)
    ensures EveryUseGranted(w, uses, delay, id, token)
    decreases |uses|
  {
    if uses != [] {
      OthersRunKeepsFresh(w, uses[0].elsewhere, delay, id, token, last);
      var before := Run(w, uses[0].elsewhere, delay, true);
      if uses[0].req !in before.pending {
        UseKeepsFresh(before, id, token, last, uses[0].req, uses[0].at);
        var after := Authenticated(before, uses[0].req, token, uses[0].at);
        ActiveNeverExpires(after, id, token, uses[0].at, uses[1..], delay);
      }
    }
  }

  /** A login makes such a session. */
  lemma IssuedIsFresh(w: World, e: Event, now: int)
    requires WorldOk(w, now) && OnePerToken(w) && e.step.Issue? && CanIssue(w, e.step, e.at)
    ensures Fresh(Next(w, e, 0, true), e.step.id, e.step.token, e.step.computed)
  {
  }

  // ---------------------------------------------------------------- purging

  /** The run without purges, where every row stays: a request in flight will find its row with an expiry that no purge
      before the request's deadline can reach. */
  ghost predicate Safe(w: World, now: int, delay: int) {
    forall q :: q in w.pending ==>
      var p := w.pending[q];
      && p.readAt <= now
      && (p.renewed.Some? ==> p.renewed.value >= p.readAt + TTL)
      && (p.session in w.store ==> w.store[p.session].expires >= p.readAt + delay - RETENTION)
  }

  /** Two runs of the same events, with and without purging: they differ only in rows that are dead for good, because no
      request can still renew them. */
  ghost predicate Alike(w1: World, w2: World, now: int, delay: int) {
    && w1 == w2.(store := w1.store)
    && (forall id :: id in w1.store ==> id in w2.store && w1.store[id] == w2.store[id])
    && (forall id :: id in w2.store && id !in w1.store ==> w2.store[id].expires < now)
    && (forall q :: q in w2.pending && now <= w2.pending[q].readAt + delay && w2.pending[q].session in w2.store ==>
          w2.pending[q].session in w1.store)
  }

  /** A renewal that lands in time is no earlier than any deadline it must meet: here delay <= 22 days matters. */
  lemma SafeFinish(w: World, req: Id, ok: bool, now: int, delay: int)
    requires Safe(w, now, delay) && 2 * delay <= TTL + RETENTION
    requires req in w.pending && w.pending[req].renewed.Some? && now <= w.pending[req].readAt + delay
    ensures Safe(Finished(w, req, ok), now, delay)
  {
  }

  lemma SafeStep(w: World, e: Event, now: int, delay: int)
    requires WorldOk(w, now) && Safe(w, now, delay) && now <= e.at && 2 * delay <= TTL + RETENTION
    ensures Safe(Next(w, e, delay, false), e.at, delay)
  {
    match e.step
    case Read(req, token) => FindLiveFinds(w.store, token, e.at);
    case Touch(req, ok) =>
      if req in w.pending && w.pending[req].renewed.Some? && e.at <= w.pending[req].readAt + delay {
        SafeFinish(w, req, ok, e.at, delay);
      }
    case _ =>
  }

  /** The same row is found, since no two rows share a token and the missing ones have expired. */
  lemma AlikeFinds(w1: World, w2: World, token: Id, now: int, at: int, delay: int)
    requires Alike(w1, w2, now, delay) && OnePerToken(w2) && now <= at
    ensures FindLive(w1.store, token, at) == FindLive(w2.store, token, at)
  {
    FindLiveFinds(w1.store, token, at);
    FindLiveFinds(w2.store, token, at);
  }

  lemma AlikeLater(w1: World, w2: World, now: int, at: int, delay: int)
    requires Alike(w1, w2, now, delay) && now <= at
    ensures Alike(w1, w2, at, delay)
  {
  }

  lemma AlikePurge(w1: World, w2: World, now: int, delay: int)
    requires Alike(w1, w2, now, delay) && Safe(w2, now, delay)
    ensures Alike(w1.(store := Purged(w1.store, now)), w2, now, delay)
  {
  }

  lemma AlikeFinish(w1: World, w2: World, req: Id, ok: bool, now: int, delay: int)
    requires Alike(w1, w2, now, delay)
    requires req in w2.pending && w2.pending[req].renewed.Some? && now <= w2.pending[req].readAt + delay
    ensures Alike(Finished(w1, req, ok), Finished(w2, req, ok), now, delay)
  {
  }

  lemma AlikeBegun(w1: World, w2: World, req: Id, token: Id, now: int, delay: int)
    requires Alike(w1, w2, now, delay) && OnePerToken(w2)
    ensures Alike(Begun(w1, req, token, now), Begun(w2, req, token, now), now, delay)
  {
    AlikeFinds(w1, w2, token, now, now, delay);
    FindLiveFinds(w1.store, token, now);
  }

  lemma AlikeIssue(w1: World, w2: World, e: Event, now: int, delay: int)
    requires Alike(w1, w2, now, delay) && e.step.Issue? && ExpiriesOk(w2.store, w2.lastUse)
    requires PendingOk(w2.pending, w2.lastUse, now)
    ensures Alike(Next(w1, e, delay, true), Next(w2, e, delay, false), now, delay)
  {
  }

  lemma AlikeRevoke(w1: World, w2: World, id: Id, now: int, delay: int)
    requires Alike(w1, w2, now, delay)
    ensures Alike(w1.(store := Revoked(w1.store, id)), w2.(store := Revoked(w2.store, id)), now, delay)
  {
  }

  lemma AlikeRevokeAll(w1: World, w2: World, user: Id, now: int, delay: int)
    requires Alike(w1, w2, now, delay)
    ensures Alike(w1.(store := AllRevoked(w1.store, user)), w2.(store := AllRevoked(w2.store, user)), now, delay)
  {
  }

  lemma AlikeDecide(w1: World, w2: World, req: Id, now: int, delay: int)
    requires Alike(w1, w2, now, delay) && req in w2.pending
    ensures Alike(Decided(w1, req, now), Decided(w2, req, now), now, delay)
  {
  }

  lemma AlikeStep(w1: World, w2: World, e: Event, now: int, delay: int)
    requires WorldOk(w2, now) && OnePerToken(w2) && Alike(w1, w2, now, delay) && Safe(w2, now, delay) && now <= e.at
    ensures Alike(Next(w1, e, delay, true), Next(w2, e, delay, false), e.at, delay)
  {
    AlikeLater(w1, w2, now, e.at, delay);
    if e.step.Issue? {
      AlikeIssue(w1, w2, e, e.at, delay);
    } else if e.step.Read? {
      if e.step.req !in w2.pending { AlikeBegun(w1, w2, e.step.req, e.step.token, e.at, delay); }
    } else if e.step.Decide? {
      if e.step.req in w2.pending { AlikeDecide(w1, w2, e.step.req, e.at, delay); }
    } else if e.step.Touch? {
      var req := e.step.req;
      if req in w2.pending && w2.pending[req].renewed.Some? && e.at <= w2.pending[req].readAt + delay {
        AlikeFinish(w1, w2, req, e.step.ok, e.at, delay);
      }
    } else if e.step.Revoke? {
      AlikeRevoke(w1, w2, e.step.id, e.at, delay);
    } else if e.step.RevokeAll? {
      AlikeRevokeAll(w1, w2, e.step.user, e.at, delay);
    } else {
      AlikePurge(w1, w2, e.at, delay);
    }
  }

  lemma {:induction false} AlikeRun(w1: World, w2: World, events: seq<Event>, now: int, delay: int)
    requires WorldOk(w2, now) && OnePerToken(w2) && Alike(w1, w2, now, delay) && Safe(w2, now, delay)
    requires Timed(now, events) && 2 * delay <= TTL + RETENTION
    ensures Alike(Run(w1, events, delay, true), Run(w2, events, delay, false), LastTime(now, events), delay)
    decreases |events|
  {
    if events != [] {
      TimedRest(now, events);
      StepKeeps(w2, events[0], delay, false, now);
      StepKeepsOne(w2, events[0], delay, false);
      SafeStep(w2, events[0], now, delay);
      AlikeStep(w1, w2, events[0], now, delay);
      AlikeRun(Next(w1, events[0], delay, true), Next(w2, events[0], delay, false), events[1..], events[0].at, delay);
    }
  }

  /** No run with touches landing at most `delay` after their reads can tell whether the purge job runs. */
  ghost predicate PurgeInvisible(delay: int) {
    forall start, events :: Timed(start, events) ==>
      Run(Empty(), events, delay, true).answers == Run(Empty(), events, delay, false).answers
  }

  // A late purge that is seen. Request 1 reads at time o and lands, stale, `LATE` later, just over 22 days; meanwhile
  // requests 2 and 3 keep the session alive, and request 4 has read it. The purge at o + 2 * LATE finds only request
  // 1's old expiry and deletes the row that request 4 is about to renew.
  const LATE: int := 22 * DAY + 1

  function Login(o: int): seq<Event> {
    [Event(o - 8 * DAY, Issue(1, 1, 1, o - 8 * DAY)), Event(o, Read(1, 1)), Event(o, Decide(1))]
  }

  function Renew(req: Id, at: int): seq<Event> {
    [Event(at, Read(req, 1)), Event(at, Decide(req)), Event(at, Touch(req, true))]
  }

  function KeptAlive(o: int): seq<Event> {
    Login(o) + Renew(2, o + 5 * DAY) + Renew(3, o + 18 * DAY)
  }

  function Stale(at: int): seq<Event> {
    [Event(at, Read(4, 1)), Event(at, Touch(1, true))]
  }

  function Ending(at: int): seq<Event> {
    [Event(at, Purge), Event(at, Decide(4)), Event(at, Touch(4, true)), Event(at, Read(5, 1))]
  }

  lemma {:induction false} RunParts(w: World, a: seq<Event>, b: seq<Event>, delay: int, purges: bool)
    ensures Run(w, a + b, delay, purges) == Run(Run(w, a, delay, purges), b, delay, purges)
    decreases |a|
  {
    if a == [] {
      assert a + b == b;
    } else {
      assert (a + b)[1..] == a[1..] + b;
      RunParts(Next(w, a[0], delay, purges), a[1..], b, delay, purges);
    }
  }

  lemma RunTwo(w: World, a: Event, b: Event, delay: int, purges: bool)
    ensures Run(w, [a, b], delay, purges) == Next(Next(w, a, delay, purges), b, delay, purges)
  {
    RunParts(w, [a], [b], delay, purges);
    assert [a] + [b] == [a, b];
  }

  lemma RunThree(w: World, a: Event, b: Event, c: Event, delay: int, purges: bool)
    ensures Run(w, [a, b, c], delay, purges) ==
            Next(Next(Next(w, a, delay, purges), b, delay, purges), c, delay, purges)
  {
    RunParts(w, [a], [b, c], delay, purges);
    RunTwo(Next(w, a, delay, purges), b, c, delay, purges);
    assert [a] + [b, c] == [a, b, c];
  }

  /** A table of one row. */
  ghost predicate OneRow(w: World, expires: int) {
    w.store == map[1 := Row(1, 1, expires, false)]
  }

  lemma FindsOne(w: World, expires: int, now: int)
    requires OneRow(w, expires)
    ensures FindLive(w.store, 1, now) == if expires > now then Some(1) else None
  {
    FindLiveFinds(w.store, 1, now);
    assert 1 in w.store;
  }

  lemma AfterLogin(o: int, delay: int, purges: bool)
    ensures Run(Empty(), Login(o), delay, purges) ==
            World(map[1 := Row(1, 1, o + 6 * DAY, false)], map[1 := Pending(1, o + 6 * DAY, o, Some(o + TTL))], [], {1},
                  map[1 := o])
  {
    RunThree(Empty(), Login(o)[0], Login(o)[1], Login(o)[2], delay, purges);
    var issued := World(map[1 := Row(1, 1, o + 6 * DAY, false)], map[], [], {1}, map[1 := o - 8 * DAY]);
    assert Next(Empty(), Login(o)[0], delay, purges) == issued;
    FindsOne(issued, o + 6 * DAY, o);
    var read := issued.(pending := map[1 := Pending(1, o + 6 * DAY, o, None)]);
    assert Next(issued, Login(o)[1], delay, purges) == read;
  }

  lemma AfterRenew(w: World, expires: int, req: Id, at: int, delay: int, purges: bool)
    requires OneRow(w, expires) && req !in w.pending && at < expires < at + RENEW_THRESHOLD && delay >= 0
    ensures Run(w, Renew(req, at), delay, purges) ==
            w.(store := map[1 := Row(1, 1, at + TTL, false)], answers := w.answers + [Granted(req, 1, at + TTL)],
               lastUse := w.lastUse[1 := at])
  {
    RunThree(w, Renew(req, at)[0], Renew(req, at)[1], Renew(req, at)[2], delay, purges);
    FindsOne(w, expires, at);
    var read := w.(pending := w.pending[req := Pending(1, expires, at, None)]);
    assert Next(w, Renew(req, at)[0], delay, purges) == read;
    var decided := Decided(read, req, at);
    assert Next(read, Renew(req, at)[1], delay, purges) == decided;
    assert decided.pending - {req} == w.pending;
  }

  /** Request 1 in flight, the session renewed at `renewedAt`. */
  function InFlight(o: int, renewedAt: int, answers: seq<Answer>): World {
    World(map[1 := Row(1, 1, renewedAt + TTL, false)], map[1 := Pending(1, o + 6 * DAY, o, Some(o + TTL))], answers,
          {1}, map[1 := renewedAt])
  }

  lemma AfterFirstRenewal(o: int, delay: int, purges: bool)
    requires delay >= LATE
    ensures Run(Empty(), Login(o) + Renew(2, o + 5 * DAY), delay, purges) ==
            InFlight(o, o + 5 * DAY, [Granted(2, 1, o + 19 * DAY)])
  {
    AfterLogin(o, delay, purges);
    var w := Run(Empty(), Login(o), delay, purges);
    AfterRenew(w, o + 6 * DAY, 2, o + 5 * DAY, delay, purges);
    RunParts(Empty(), Login(o), Renew(2, o + 5 * DAY), delay, purges);
  }

  lemma AfterSecondRenewal(o: int, delay: int, purges: bool)
    requires delay >= LATE
    ensures Run(InFlight(o, o + 5 * DAY, [Granted(2, 1, o + 19 * DAY)]), Renew(3, o + 18 * DAY), delay, purges) ==
            InFlight(o, o + 18 * DAY, [Granted(2, 1, o + 19 * DAY), Granted(3, 1, o + 32 * DAY)])
  {
    AfterRenew(InFlight(o, o + 5 * DAY, [Granted(2, 1, o + 19 * DAY)]), o + 19 * DAY, 3, o + 18 * DAY, delay, purges);
  }

  lemma AfterKeptAlive(o: int, delay: int, purges: bool)
    requires delay >= LATE
    ensures Run(Empty(), KeptAlive(o), delay, purges) ==
            InFlight(o, o + 18 * DAY, [Granted(2, 1, o + 19 * DAY), Granted(3, 1, o + 32 * DAY)])
  {
    AfterFirstRenewal(o, delay, purges);
    AfterSecondRenewal(o, delay, purges);
    RunParts(Empty(), Login(o) + Renew(2, o + 5 * DAY), Renew(3, o + 18 * DAY), delay, purges);
  }

  /** Request 1's stale renewal lands just after request 4's read. */
  lemma AfterStale(w: World, o: int, at: int, delay: int, purges: bool)
    requires OneRow(w, o + 32 * DAY) && o + delay >= at && at < o + 32 * DAY
    requires w.pending == map[1 := Pending(1, o + 6 * DAY, o, Some(o + TTL))]
    ensures Run(w, Stale(at), delay, purges) ==
            w.(store := map[1 := Row(1, 1, o + TTL, false)], pending := map[4 := Pending(1, o + 32 * DAY, at, None)],
               answers := w.answers + [Granted(1, 1, o + TTL)])
  {
    RunTwo(w, Event(at, Read(4, 1)), Event(at, Touch(1, true)), delay, purges);
    FindsOne(w, o + 32 * DAY, at);
    var read := w.(pending := map[1 := Pending(1, o + 6 * DAY, o, Some(o + TTL)),
                                  4 := Pending(1, o + 32 * DAY, at, None)]);
    assert Next(w, Event(at, Read(4, 1)), delay, purges) == read;
    assert read.pending - {1} == map[4 := Pending(1, o + 32 * DAY, at, None)];
  }

  /** The purge comes first, then request 4's renewal, and then somebody asks again. */
  lemma AfterEnding(w: World, o: int, at: int, delay: int, purges: bool)
    requires OneRow(w, o + TTL) && w.pending == map[4 := Pending(1, o + 32 * DAY, o + LATE, None)]
    requires delay >= LATE && at == o + 2 * LATE
    ensures |Run(w, Ending(at), delay, purges).answers| == |w.answers| + if purges then 2 else 1
  {
    var end := Ending(at);
    RunParts(w, [end[0]], [end[1], end[2], end[3]], delay, purges);
    assert [end[0]] + [end[1], end[2], end[3]] == end;
    var purged := if purges then w.(store := map[]) else w;
    assert Purged(w.store, at) == map[];
    assert Next(w, end[0], delay, purges) == purged;
    RunThree(purged, end[1], end[2], end[3], delay, purges);
    var decided := Decided(purged, 4, at);
    assert Next(purged, end[1], delay, purges) == decided;
    var finished := Finished(decided, 4, true);
    assert Next(decided, end[2], delay, purges) == finished;
    if purges {
      FindLiveFinds(finished.store, 1, at);
    } else {
      assert OneRow(finished, at + TTL);
      FindsOne(finished, at + TTL, at);
    }
  }

  function Late(o: int): seq<Event> {
    KeptAlive(o) + Stale(o + LATE) + Ending(o + 2 * LATE)
  }

  lemma AfterLate(o: int, delay: int, purges: bool)
    requires delay >= LATE
    ensures |Run(Empty(), Late(o), delay, purges).answers| == if purges then 5 else 4
  {
    AfterKeptAlive(o, delay, purges);
    var w := Run(Empty(), KeptAlive(o), delay, purges);
    RunParts(Empty(), KeptAlive(o), Stale(o + LATE), delay, purges);
    AfterStale(w, o, o + LATE, delay, purges);
    RunParts(Empty(), KeptAlive(o) + Stale(o + LATE), Ending(o + 2 * LATE), delay, purges);
    AfterEnding(Run(w, Stale(o + LATE), delay, purges), o, o + 2 * LATE, delay, purges);
  }

  lemma LateIsTimed(o: int)
    ensures Timed(o - 8 * DAY, Late(o))
  {
  }

  lemma LatePurgeIsSeen(o: int, delay: int)
    requires delay >= LATE
    ensures !PurgeInvisible(delay)
  {
    LateIsTimed(o);
    AfterLate(o, delay, true);
    AfterLate(o, delay, false);
  }

  /** Purging never changes an answer exactly when every renewal lands within 22 days of its request's read. */
  lemma PurgeInvisibleIff(delay: int)
    ensures PurgeInvisible(delay) <==> delay <= 1_900_800
  {
    if 2 * delay <= TTL + RETENTION {
      forall start, events | Timed(start, events)
        ensures Run(Empty(), events, delay, true).answers == Run(Empty(), events, delay, false).answers
      {
        AlikeRun(Empty(), Empty(), events, start, delay);
      }
    } else {
      LatePurgeIsSeen(delay, delay);
    }
  }
}
