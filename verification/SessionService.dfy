/** The session statements and the operations built from them, updating the table in place (internal/auth/service.go,
    internal/auth/repository.go). Between a request's statements any number of other statements may run. */
module SessionService {
  import opened Basics
  import opened Sessions

  /** Events that are not the given request's own. */
  ghost predicate Others(events: seq<Event>, req: Id) {
    forall i | 0 <= i < |events| :: NotOf(events[i].step, req)
  }

  predicate NotOf(step: Step, req: Id) {
    (step.Read? || step.Decide? || step.Touch?) ==> step.req != req
  }

  /** The course of one Authenticate: its read, then `m1`, then its decision, then `m2`, then any renewal it needs. */
  ghost function Course(w: World, req: Id, token: Id, t1: int, m1: seq<Event>, t2: int, m2: seq<Event>, t3: int,
                        ok: bool, delay: int): World
  {
    var read := Next(w, Event(t1, Read(req, token)), delay, true);
    if req !in read.pending then read
    else
      var decided := Next(Run(read, m1, delay, true), Event(t2, Decide(req)), delay, true);
      if req !in decided.pending then decided
      else Next(Run(decided, m2, delay, true), Event(t3, Touch(req, ok)), delay, true)
  }

  lemma OthersStepLeaves(w: World, e: Event, req: Id, delay: int)
    requires NotOf(e.step, req)
    ensures var w' := Next(w, e, delay, true);
            (req in w'.pending <==> req in w.pending) && (req in w.pending ==> w'.pending[req] == w.pending[req])
  {
  }

  lemma {:induction false} OthersLeave(w: World, events: seq<Event>, req: Id, delay: int)
    requires Others(events, req)
    ensures var w' := Run(w, events, delay, true);
            (req in w'.pending <==> req in w.pending) && (req in w.pending ==> w'.pending[req] == w.pending[req])
    decreases |events|
  {
    if events != [] {
      OthersStepLeaves(w, events[0], req, delay);
      OthersLeave(Next(w, events[0], delay, true), events[1..], req, delay);
    }
  }

  /** The request after its read, and after a decision to renew at `at`. */
  function HasRead(w: World, req: Id, id: Id, expires: int, t1: int): World {
    w.(pending := w.pending[req := Pending(id, expires, t1, None)])
  }

  function HasDecided(w: World, req: Id, id: Id, expires: int, t1: int, at: int): World {
    w.(pending := w.pending[req := Pending(id, expires, t1, Some(at + 1_209_600))], lastUse := w.lastUse[id := at])
  }

  lemma CourseWithoutWrite(w: World, req: Id, token: Id, t1: int, m1: seq<Event>, t2: int, m2: seq<Event>, t3: int,
                           ok: bool, delay: int, id: Id)
    requires OnePerToken(w) && req !in w.pending && Others(m1, req)
    requires id in w.store && w.store[id].token == token && !w.store[id].revoked && t1 < w.store[id].expires
    requires w.store[id].expires - t2 >= 604_800
    ensures var end := Course(w, req, token, t1, m1, t2, m2, t3, ok, delay);
            var expires := w.store[id].expires;
            var w1 := Run(HasRead(w, req, id, expires, t1), m1, delay, true);
            end == w1.(pending := w1.pending - {req}, answers := w1.answers + [Granted(req, id, expires)])
  {
    ReadFinds(w, req, token, t1, delay);
    OthersLeave(HasRead(w, req, id, w.store[id].expires, t1), m1, req, delay);
  }

  lemma CourseWithWrite(w: World, req: Id, token: Id, t1: int, m1: seq<Event>, t2: int, m2: seq<Event>, t3: int,
                        ok: bool, delay: int, id: Id)
    requires OnePerToken(w) && req !in w.pending && Others(m1, req) && Others(m2, req) && t3 <= t1 + delay
    requires id in w.store && w.store[id].token == token && !w.store[id].revoked && t1 < w.store[id].expires
    requires w.store[id].expires - t2 < 604_800
    ensures var end := Course(w, req, token, t1, m1, t2, m2, t3, ok, delay);
            var expires := w.store[id].expires;
            var w1 := Run(HasRead(w, req, id, expires, t1), m1, delay, true);
            var w2 := Run(HasDecided(w1, req, id, expires, t1, t2), m2, delay, true);
            && end.answers == w2.answers + [Granted(req, id, if ok then t2 + 1_209_600 else expires)]
            && end.store == (if ok && id in w2.store
                             then w2.store[id := w2.store[id].(expires := t2 + 1_209_600)] else w2.store)
  {
    ReadFinds(w, req, token, t1, delay);
    var expires := w.store[id].expires;
    OthersLeave(HasRead(w, req, id, expires, t1), m1, req, delay);
    var w1 := Run(HasRead(w, req, id, expires, t1), m1, delay, true);
    OthersLeave(HasDecided(w1, req, id, expires, t1, t2), m2, req, delay);
  }

  /** A request on a live session that runs alone: with 604800 seconds or more left it changes no row and is answered
      with the expiry it found; with fewer, and a write that succeeds, row and answer get the decision's time plus
      1209600; a write that fails leaves both as they were. */
  lemma AuthenticatedAlone(w: World, req: Id, token: Id, t1: int, t2: int, t3: int, ok: bool, delay: int, id: Id)
    requires OnePerToken(w) && req !in w.pending && t3 <= t1 + delay
    requires id in w.store && w.store[id].token == token && !w.store[id].revoked && t1 < w.store[id].expires
    ensures var end := Course(w, req, token, t1, [], t2, [], t3, ok, delay);
            var renews := w.store[id].expires - t2 < 604_800 && ok;
            && end.store == (if renews then w.store[id := w.store[id].(expires := t2 + 1_209_600)] else w.store)
            && end.answers == w.answers + [Granted(req, id, if renews then t2 + 1_209_600 else w.store[id].expires)]
  {
    if w.store[id].expires - t2 < 604_800 {
      CourseWithWrite(w, req, token, t1, [], t2, [], t3, ok, delay, id);
    } else {
      CourseWithoutWrite(w, req, token, t1, [], t2, [], t3, ok, delay, id);
    }
  }

  /** A request without a live session, at the moment of its read, is refused and does nothing else. */
  lemma CourseRefused(w: World, req: Id, token: Id, t1: int, m1: seq<Event>, t2: int, m2: seq<Event>, t3: int,
                      ok: bool, delay: int)
    requires OnePerToken(w) && req !in w.pending
    requires forall id :: id in w.store && w.store[id].token == token ==>
               w.store[id].revoked || w.store[id].expires <= t1
    ensures Course(w, req, token, t1, m1, t2, m2, t3, ok, delay) == w.(answers := w.answers + [Denied(req)])
  {
    ReadFinds(w, req, token, t1, delay);
  }

  /** Deleting the rows past retention. */
  lemma KeptAndDead(s: Store, dead: set<Id>, now: int)
    requires dead == set id | id in s && s[id].expires < now - RETENTION
    ensures s - dead == Purged(s, now) && |s - dead| == |s| - |dead|
    ensures forall id :: id in s ==> (id !in s - dead <==> s[id].expires < now - 2_592_000)
  {
    assert s - dead == Purged(s, now);
    FewerRows(s, dead);
  }

  lemma FewerRows(s: Store, dead: set<Id>)
    requires dead <= s.Keys
    ensures |s - dead| == |s| - |dead|
  {
    assert (s - dead).Keys == s.Keys - dead;
    assert |s.Keys - dead| == |s.Keys| - |dead|;
  }

  class Service {
    var store: Store
    var pending: map<Id, Pending>
    ghost var answers: seq<Answer>
    var tokens: set<Id>
    var lastUse: map<Id, int>

    ghost function View(): World reads this { World(store, pending, answers, tokens, lastUse) }

    constructor ()
      ensures View() == Empty()
    {
      store, pending, answers, tokens, lastUse := map[], map[], [], {}, map[];
    }

    method SelectLiveSession(token: Id, now: int) returns (r: Option<Id>)
      requires OnePerToken(View())
      ensures r == FindLive(store, token, now)
    {
      FindLiveFinds(store, token, now);
      if exists id: Id :: id in store && Live(store[id], token, now) {
        var id: Id :| id in store && Live(store[id], token, now);
        return Some(id);
      }
      return None;
    }

    method TouchSession(id: Id, expires: int)
      modifies this`store
      ensures store == Touched(old(store), id, expires)
    {
      if id in store { store := store[id := store[id].(expires := expires)]; }
    }

    /** revokeSession: whether a live session was revoked; revoking again changes nothing. */
    method RevokeSession(id: Id) returns (revoked: bool)
      modifies this`store
      ensures store == Revoked(old(store), id)
      ensures revoked <==> id in old(store) && !old(store)[id].revoked
      ensures store == if revoked then old(store)[id := old(store)[id].(revoked := true)] else old(store)
    {
      revoked := id in store && !store[id].revoked;
      if revoked { store := store[id := store[id].(revoked := true)]; }
    }

    /** revokeAllForUser: how many sessions were live. */
    method RevokeAllForUser(user: Id) returns (n: nat)
      modifies this`store
      ensures store == AllRevoked(old(store), user)
      ensures store.Keys == old(store).Keys
      ensures forall id :: id in store ==>
                store[id] == if old(store)[id].user == user then old(store)[id].(revoked := true) else old(store)[id]
      ensures n == |set id | id in old(store) && old(store)[id].user == user && !old(store)[id].revoked|
    {
      var hit := set id | id in store && store[id].user == user && !store[id].revoked;
      n := |hit|;
      store := map id | id in store :: if id in hit then store[id].(revoked := true) else store[id];
      assert store == AllRevoked(old(store), user);
    }

    method DeleteExpiredSessions(now: int) returns (n: nat)
      modifies this`store
      ensures store == Purged(old(store), now)
      ensures forall id :: id in old(store) ==> (id !in store <==> old(store)[id].expires < now - 2_592_000)
      ensures n == |old(store)| - |store|
    {
      var dead := set id | id in store && store[id].expires < now - RETENTION;
      n := |dead|;
      KeptAndDead(store, dead, now);
      store := store - dead;
    }

    /** issueSession, with the fresh id and token that randomness provides. */
    method IssueSession(id: Id, user: Id, token: Id, computed: int, at: int, ghost delay: int)
      requires computed <= at && id !in lastUse && token !in tokens
      modifies this
      ensures View() == Next(old(View()), Event(at, Issue(id, user, token, computed)), delay, true)
      ensures store == old(store)[id := Row(user, token, computed + 1_209_600, false)]
    {
      store := store[id := Row(user, token, computed + TTL, false)];
      tokens, lastUse := tokens + {token}, lastUse[id := computed];
    }

    method Logout(id: Id, at: int, ghost delay: int)
      modifies this
      ensures View() == Next(old(View()), Event(at, Revoke(id)), delay, true)
    {
      var _ := RevokeSession(id);
    }

    method LogoutAll(user: Id, at: int, ghost delay: int) returns (n: nat)
      modifies this
      ensures View() == Next(old(View()), Event(at, RevokeAll(user)), delay, true)
      ensures n == |set id | id in old(store) && old(store)[id].user == user && !old(store)[id].revoked|
    {
      n := RevokeAllForUser(user);
    }

    method PurgeExpiredSessions(at: int, ghost delay: int) returns (n: nat)
      modifies this
      ensures View() == Next(old(View()), Event(at, Purge), delay, true)
      ensures forall id :: id in old(store) ==> (id !in store <==> old(store)[id].expires < at - 2_592_000)
      ensures forall id :: id in store ==> id in old(store) && store[id] == old(store)[id]
      ensures n == |old(store)| - |store|
    {
      n := DeleteExpiredSessions(at);
    }

    /** The first statement of Authenticate: look the token up, and remember the row for later. */
    method Begin(req: Id, token: Id, at: int, ghost delay: int) returns (found: bool)
      requires OnePerToken(View()) && req !in pending
      modifies this
      ensures View() == Next(old(View()), Event(at, Read(req, token)), delay, true)
      ensures found <==> req in pending
    {
      var id := SelectLiveSession(token, at);
      found := id.Some?;
      if found {
        FindLiveFinds(store, token, at);
        pending := pending[req := Pending(id.value, store[id.value].expires, at, None)];
      } else {
        answers := answers + [Denied(req)];
      }
    }

    /** The decision: whether the session is close enough to expiring to be renewed. */
    method Consider(req: Id, at: int, ghost delay: int) returns (renews: bool)
      requires req in pending && pending[req].renewed.None?
      modifies this
      ensures View() == Next(old(View()), Event(at, Decide(req)), delay, true)
      ensures renews <==> old(pending)[req].expires - at < 604_800
      ensures store == old(store)
      ensures renews ==> pending == old(pending)[req := old(pending)[req].(renewed := Some(at + 1_209_600))]
      ensures renews ==> answers == old(answers)
      ensures !renews ==> pending == old(pending) - {req}
      ensures !renews ==> answers == old(answers) + [Granted(req, old(pending)[req].session, old(pending)[req].expires)]
    {
      var sess := pending[req];
      renews := sess.expires - at < RENEW_THRESHOLD;
      if renews {
        lastUse := lastUse[sess.session := at];
        pending := pending[req := sess.(renewed := Some(at + TTL))];
      } else {
        answers := answers + [Granted(req, sess.session, sess.expires)];
        pending := pending - {req};
      }
    }

    /** The renewal: a failure is not fatal, and leaves the answer with the old expiry. */
    method Renew(req: Id, ok: bool, at: int, ghost delay: int)
      requires req in pending && pending[req].renewed.Some? && at <= pending[req].readAt + delay
      modifies this
      ensures View() == Next(old(View()), Event(at, Touch(req, ok)), delay, true)
      ensures req !in pending
    {
      var sess := pending[req];
      var expires := sess.expires;
      if ok {
        TouchSession(sess.session, sess.renewed.value);
        expires := sess.renewed.value;
      }
      answers := answers + [Granted(req, sess.session, expires)];
      pending := pending - {req};
    }

    /** Other people's requests run. */
    method Meanwhile(events: seq<Event>, req: Id, delay: int)
      requires Others(events, req) && OnePerToken(View())
      modifies this
      ensures View() == Run(old(View()), events, delay, true) && OnePerToken(View())
      ensures (req in pending <==> req in old(pending)) && (req in pending ==> pending[req] == old(pending)[req])
    {
      ghost var w := View();
      for i := 0 to |events|
        invariant View() == Run(w, events[..i], delay, true) && OnePerToken(View())
        invariant (req in pending <==> req in w.pending) && (req in pending ==> pending[req] == w.pending[req])
      {
        assert events[..i + 1] == events[..i] + [events[i]];
        RunParts(w, events[..i], [events[i]], delay, true);
        OthersStepLeaves(View(), events[i], req, delay);
        StepKeepsOne(View(), events[i], delay, true);
        Other(events[i], delay);
      }
      assert events[..|events|] == events;
    }

    /** One event, if it can happen now. */
    method Other(e: Event, delay: int)
      requires OnePerToken(View())
      modifies this
      ensures View() == Next(old(View()), e, delay, true)
    {
      match e.step {
        case Issue(id, user, token, computed) =>
          if id !in lastUse && token !in tokens && computed <= e.at {
            IssueSession(id, user, token, computed, e.at, delay);
          }
        case Read(r, token) =>
          if r !in pending { var _ := Begin(r, token, e.at, delay); }
        case Decide(r) =>
          if r in pending && pending[r].renewed.None? { var _ := Consider(r, e.at, delay); }
        case Touch(r, ok) =>
          if r in pending && pending[r].renewed.Some? && e.at <= pending[r].readAt + delay {
            Renew(r, ok, e.at, delay);
          }
        case Revoke(id) => Logout(id, e.at, delay);
        case RevokeAll(user) => var _ := LogoutAll(user, e.at, delay);
        case Purge => var _ := PurgeExpiredSessions(e.at, delay);
      }
    }

    /** Authenticate: the answer, and everything it and the others did to the table meanwhile. The empty token, written
        as the nil id, is refused without a look at the table. */
    method Authenticate(req: Id, token: Id, t1: int, m1: seq<Event>, t2: int, m2: seq<Event>, t3: int, ok: bool,
                        delay: int)
      returns (granted: bool)
      requires OnePerToken(View()) && req !in pending && Others(m1, req) && Others(m2, req)
      requires t3 <= t1 + delay
      modifies this
      ensures View() == if token == NIL then old(View())
                        else Course(old(View()), req, token, t1, m1, t2, m2, t3, ok, delay)
      ensures granted <==> token != NIL && FindLive(old(store), token, t1).Some?
      ensures req !in pending
    {
      ghost var w := View();
      if token == NIL { return false; }
      granted := Begin(req, token, t1, delay);
      if !granted { return; }
      StepKeepsOne(w, Event(t1, Read(req, token)), delay, true);
      Meanwhile(m1, req, delay);
      ghost var w1 := View();
      var renews := Consider(req, t2, delay);
      if !renews { return; }
      StepKeepsOne(w1, Event(t2, Decide(req)), delay, true);
      Meanwhile(m2, req, delay);
      Renew(req, ok, t3, delay);
    }
  }
}
