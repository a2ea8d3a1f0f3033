/** One websocket connection: its bounded outbound queue and write pump (platform/websocket/conn.go), and the session
    that numbers and sends envelopes through it (internal/realtime/router.go).

    Three goroutines share it: the session (`serve`), the write pump, and the backpressure watcher. Each step below is
    one of their indivisible actions, or the socket being closed or breaking, in any order. */
module Connections {
  import opened Basics

  const QUEUE_SIZE: nat := 64
  const SLOW_CLIENT: nat := 3000
  const UNSUPPORTED_DATA: nat := 1003
  const PROTOCOL_ERROR: nat := 1002

  datatype Kind = AuthSuccess | ErrMalformed | ErrVersion | ErrUnknownType
  datatype Envelope = Envelope(seqNo: nat, kind: Kind)

  /** What a queue slot holds. A close remembers the number of the envelope sent to explain it; encoding never yields
      nil data, so a data item is never taken for a close. */
  datatype Item = Data(env: Envelope) | Close(code: nat, why: nat)

  /** What the peer receives. */
  datatype Frame = Text(env: Envelope) | CloseFrame(code: nat)

  datatype Exit = Cancelled | PingFailed | WriteFailed | Drained
  datatype Pump = Idle | Writing(item: Item) | Exited(how: Exit)

  /** Where the session's goroutine is. `Holding` has drawn a number and has yet to encode and send. */
  datatype Session = Greeting | Holding(env: Envelope) | Closing(code: nat, why: nat) | Reading | Gone

  /** What became of an envelope once its number was drawn. */
  datatype Fate = Accepted | Rejected | Unencoded

  /** The connection, with its history: the fate of every number drawn, and every item taken off the queue. */
  datatype Link = Link(queue: seq<Item>, full: bool, open: bool, wire: seq<Frame>, pump: Pump, watching: bool,
                       session: Session, counter: nat, fates: seq<Fate>, taken: seq<Item>) {
    /** Every item the queue ever accepted, in order. */
    function Accepted(): seq<Item> { taken + queue }
  }

  function Dialled(): Link {
    Link([], false, true, [], Idle, true, Greeting, 0, [], [])
  }

  /** How the session reads a client's frame. */
  datatype Inbound = Malformed | WrongVersion | UnknownType | ReadError

  datatype Step =
    | Greet | Receive(inbound: Inbound) | Offer(encodes: bool) | QueueClose
    | Take | Write(ok: bool) | PumpCancelled | PingFails
    | Watch | WatchCancelled
    | CloseDirectly(code: nat) | SocketBreaks

  // ---------------------------------------------------------------- the steps

  function Shut(l: Link, code: nat): Link {
    if l.open then l.(open := false, wire := l.wire + [CloseFrame(code)]) else l
  }

  /** Send and CloseAfterDrain: one non-blocking channel send. */
  function Enqueue(l: Link, item: Item): Link {
    if |l.queue| < QUEUE_SIZE then l.(queue := l.queue + [item]) else l.(full := true)
  }

  function Draw(l: Link, kind: Kind): Link {
    l.(counter := l.counter + 1, session := Holding(Envelope(l.counter + 1, kind)))
  }

  function AfterSend(env: Envelope): Session {
    match env.kind
    case ErrMalformed => Closing(UNSUPPORTED_DATA, env.seqNo)
    case ErrVersion => Closing(PROTOCOL_ERROR, env.seqNo)
    case _ => Reading
  }

  function FateOf(l: Link, encodes: bool): Fate {
    if !encodes then Unencoded else if |l.queue| < QUEUE_SIZE then Accepted else Rejected
  }

  function Offered(l: Link, encodes: bool): Link
    requires l.session.Holding?
  {
    var sent := if encodes then Enqueue(l, Data(l.session.env)) else l;
    sent.(session := AfterSend(l.session.env), fates := l.fates + [FateOf(l, encodes)])
  }

  function KindFor(inbound: Inbound): Kind {
    if inbound.Malformed? then ErrMalformed else if inbound.WrongVersion? then ErrVersion else ErrUnknownType
  }

  function Received(l: Link, inbound: Inbound): Link {
    if inbound.ReadError? then l.(session := Gone) else Draw(l, KindFor(inbound))
  }

  /** The pump acts on the item it took: a write may fail, and fails on a socket already closed. */
  function Written(l: Link, ok: bool): Link
    requires l.pump.Writing?
  {
    match l.pump.item
    case Close(code, _) => Shut(l, code).(pump := Exited(Drained))
    case Data(env) =>
      if ok && l.open then l.(wire := l.wire + [Text(env)], pump := Idle) else l.(pump := Exited(WriteFailed))
  }

  function Taken(l: Link): Link
    requires l.queue != []
  {
    l.(pump := Writing(l.queue[0]), taken := l.taken + [l.queue[0]], queue := l.queue[1..])
  }

  /** A step that cannot be taken now changes nothing. */
  function Next(l: Link, step: Step): Link {
    match step
    case Greet => if l.session.Greeting? then Draw(l, AuthSuccess) else l
    case Receive(inbound) => if l.session.Reading? then Received(l, inbound) else l
    case Offer(encodes) => if l.session.Holding? then Offered(l, encodes) else l
    case QueueClose =>
      if l.session.Closing? then Enqueue(l, Close(l.session.code, l.session.why)).(session := Reading) else l
    case Take => if l.pump.Idle? && l.queue != [] then Taken(l) else l
    case Write(ok) => if l.pump.Writing? then Written(l, ok) else l
    case PumpCancelled => if l.pump.Idle? then l.(pump := Exited(Cancelled)) else l
    case PingFails => if l.pump.Idle? then l.(pump := Exited(PingFailed)) else l
    case Watch => if l.watching && l.full then Shut(l, SLOW_CLIENT).(watching := false) else l
    case WatchCancelled => l.(watching := false)
    case CloseDirectly(code) => Shut(l, code)
    case SocketBreaks => l.(open := false)
  }

  function Run(l: Link, steps: seq<Step>): Link
    decreases |steps|
  {
    if steps == [] then l else Run(Next(l, steps[0]), steps[1..])
  }

  lemma {:induction false} RunParts(l: Link, a: seq<Step>, b: seq<Step>)
    ensures Run(l, a + b) == Run(Run(l, a), b)
    decreases |a|
  {
    if a == [] {
      assert a + b == b;
    } else {
      assert (a + b)[1..] == a[1..] + b;
      RunParts(Next(l, a[0]), a[1..], b);
    }
  }

  lemma RunOne(l: Link, steps: seq<Step>, step: Step)
    ensures Run(l, steps + [step]) == Next(Run(l, steps), step)
  {
    RunParts(l, steps, [step]);
  }

  // ---------------------------------------------------------------- the invariant

  /** The numbers whose envelopes the queue accepted, in order. */
  function AcceptedNumbers(fates: seq<Fate>): seq<nat> {
    if fates == [] then []
    else
      var n := |fates|;
      AcceptedNumbers(fates[..n - 1]) + if fates[n - 1].Accepted? then [n] else []
  }

  /** The numbers of the data items in a stretch of the queue's history, in order. */
  function NumbersOf(items: seq<Item>): seq<nat> {
    if items == [] then []
    else
      var n := |items|;
      NumbersOf(items[..n - 1]) + if items[n - 1].Data? then [items[n - 1].env.seqNo] else []
  }

  /** What a peer has received when it has received the first `n` items taken: the frame of each, all of them data. */
  ghost predicate Carries(wire: seq<Frame>, taken: seq<Item>, n: int) {
    && 0 <= n <= |wire| && n <= |taken|
    && forall k | 0 <= k < n :: taken[k].Data? && wire[k] == Text(taken[k].env)
  }

  /** How many of the items taken have reached the wire whole: all but the one the pump holds, wrote in vain, or closed
      on. */
  function Delivered(taken: seq<Item>, pump: Pump): int {
    if pump.Writing? || pump == Exited(WriteFailed) || pump == Exited(Drained) then |taken| - 1 else |taken|
  }

  ghost predicate PumpOk(taken: seq<Item>, pump: Pump, open: bool) {
    var last := |taken| - 1;
    && (pump.Writing? ==> taken != [] && taken[last] == pump.item)
    && (pump == Exited(WriteFailed) ==> taken != [] && taken[last].Data?)
    && (pump == Exited(Drained) ==> taken != [] && taken[last].Close? && !open)
  }

  /** The wire carries the delivered items and nothing else, but for one last close frame. */
  ghost predicate WireOk(wire: seq<Frame>, taken: seq<Item>, pump: Pump, open: bool) {
    var n := Delivered(taken, pump);
    && Carries(wire, taken, n)
    && (|wire| == n || (|wire| == n + 1 && wire[n].CloseFrame? && !open))
  }

  /** Every number drawn is held by the session or has met its fate. */
  ghost predicate CounterOk(session: Session, counter: nat, fates: seq<Fate>, full: bool) {
    && counter == |fates| + (if session.Holding? then 1 else 0)
    && (session.Holding? ==> session.env.seqNo == counter)
    && (session.Greeting? <==> counter == 0)
    && (Rejected in fates ==> full)
  }

  ghost predicate NumbersOk(accepted: seq<Item>, fates: seq<Fate>) {
    NumbersOf(accepted) == AcceptedNumbers(fates)
  }

  /** Queue, pump and wire. */
  ghost predicate TransportOk(l: Link) {
    |l.queue| <= QUEUE_SIZE && PumpOk(l.taken, l.pump, l.open) && WireOk(l.wire, l.taken, l.pump, l.open)
  }

  ghost predicate LinkOk(l: Link) {
    && TransportOk(l)
    && CounterOk(l.session, l.counter, l.fates, l.full)
    && NumbersOk(l.Accepted(), l.fates)
  }

  lemma NumbersNext(items: seq<Item>, item: Item)
    ensures NumbersOf(items + [item]) == NumbersOf(items) + if item.Data? then [item.env.seqNo] else []
  {
    assert (items + [item])[..|items|] == items;
  }

  lemma AcceptedNext(fates: seq<Fate>, fate: Fate)
    ensures AcceptedNumbers(fates + [fate]) == AcceptedNumbers(fates) + if fate.Accepted? then [|fates| + 1] else []
  {
    assert (fates + [fate])[..|fates|] == fates;
  }

  lemma EnqueuedAccepted(l: Link, item: Item)
    ensures Enqueue(l, item).Accepted() == l.Accepted() + if |l.queue| < QUEUE_SIZE then [item] else []
  {
  }

  /** The envelope that was held meets its fate. */
  lemma FateNumbers(accepted: seq<Item>, fates: seq<Fate>, item: Item, fate: Fate)
    requires NumbersOk(accepted, fates) && item.Data? && item.env.seqNo == |fates| + 1
    ensures NumbersOk(accepted + if fate.Accepted? then [item] else [], fates + [fate])
  {
    NumbersNext(accepted, item);
    AcceptedNext(fates, fate);
    assert accepted + [] == accepted;
  }

  lemma CloseNumbers(accepted: seq<Item>, fates: seq<Fate>, item: Item)
    requires NumbersOk(accepted, fates) && item.Close?
    ensures NumbersOk(accepted + [item], fates) && NumbersOk(accepted + [], fates)
  {
    NumbersNext(accepted, item);
    assert accepted + [] == accepted;
  }

  lemma OfferAccepted(l: Link, encodes: bool)
    requires l.session.Holding?
    ensures Offered(l, encodes).Accepted() ==
            l.Accepted() + if FateOf(l, encodes).Accepted? then [Data(l.session.env)] else []
  {
    EnqueuedAccepted(l, Data(l.session.env));
  }

  lemma OfferCounts(l: Link, encodes: bool)
    requires l.session.Holding? && CounterOk(l.session, l.counter, l.fates, l.full)
    ensures var l' := Offered(l, encodes); CounterOk(l'.session, l'.counter, l'.fates, l'.full)
  {
  }

  lemma OfferTransports(l: Link, encodes: bool)
    requires l.session.Holding? && TransportOk(l)
    ensures TransportOk(Offered(l, encodes))
  {
  }

  lemma OfferKeeps(l: Link, encodes: bool)
    requires LinkOk(l) && l.session.Holding?
    ensures LinkOk(Offered(l, encodes))
  {
    OfferTransports(l, encodes);
    OfferCounts(l, encodes);
    OfferAccepted(l, encodes);
    FateNumbers(l.Accepted(), l.fates, Data(l.session.env), FateOf(l, encodes));
  }

  lemma QueueCloseKeeps(l: Link)
    requires LinkOk(l) && l.session.Closing?
    ensures LinkOk(Next(l, QueueClose))
  {
    var item := Close(l.session.code, l.session.why);
    EnqueuedAccepted(l, item);
    CloseNumbers(l.Accepted(), l.fates, item);
  }

  lemma TakeTransports(l: Link)
    requires TransportOk(l) && l.pump.Idle? && l.queue != []
    ensures TransportOk(Next(l, Take)) && Next(l, Take).Accepted() == l.Accepted()
  {
  }

  lemma ShutTransports(l: Link, code: nat)
    requires TransportOk(l)
    ensures TransportOk(Shut(l, code))
  {
  }

  lemma WriteTransports(l: Link, ok: bool)
    requires TransportOk(l) && l.pump.Writing?
    ensures TransportOk(Written(l, ok))
  {
  }

  lemma DrawCounts(l: Link, kind: Kind)
    requires CounterOk(l.session, l.counter, l.fates, l.full) && (l.session.Greeting? || l.session.Reading?)
    ensures var l' := Draw(l, kind); CounterOk(l'.session, l'.counter, l'.fates, l'.full)
  {
  }

  /** The session's steps leave pump and wire alone; the others leave session and numbers alone. */
  lemma SessionKeeps(l: Link, step: Step)
    requires LinkOk(l) && (step.Greet? || step.Receive? || step.Offer? || step.QueueClose?)
    ensures LinkOk(Next(l, step))
  {
    if step.Greet? {
      if l.session.Greeting? { DrawCounts(l, AuthSuccess); }
    } else if step.Receive? {
      if l.session.Reading? && !step.inbound.ReadError? { DrawCounts(l, KindFor(step.inbound)); }
    } else if step.Offer? {
      if l.session.Holding? { OfferKeeps(l, step.encodes); }
    } else {
      if l.session.Closing? { QueueCloseKeeps(l); }
    }
  }

  lemma OthersTransport(l: Link, step: Step)
    requires TransportOk(l) && !step.Greet? && !step.Receive? && !step.Offer? && !step.QueueClose?
    ensures TransportOk(Next(l, step))
  {
    if step.Take? {
      if l.pump.Idle? && l.queue != [] { TakeTransports(l); }
    } else if step.Write? {
      if l.pump.Writing? { WriteTransports(l, step.ok); }
    } else if step.Watch? {
      ShutTransports(l, SLOW_CLIENT);
    } else if step.CloseDirectly? {
      ShutTransports(l, step.code);
    }
  }

  lemma TakenKeepsAccepted(l: Link)
    requires l.queue != []
    ensures Taken(l).Accepted() == l.Accepted()
  {
  }

  lemma OthersKeepItems(l: Link, step: Step)
    requires !step.Greet? && !step.Receive? && !step.Offer? && !step.QueueClose? && !step.Take?
    ensures Next(l, step).taken == l.taken && Next(l, step).queue == l.queue
  {
  }

  lemma OthersKeepSession(l: Link, step: Step)
    requires !step.Greet? && !step.Receive? && !step.Offer? && !step.QueueClose?
    ensures var l' := Next(l, step);
            l'.session == l.session && l'.counter == l.counter && l'.fates == l.fates && l'.full == l.full
  {
  }

  lemma OthersKeepNumbers(l: Link, step: Step)
    requires !step.Greet? && !step.Receive? && !step.Offer? && !step.QueueClose?
    ensures var l' := Next(l, step);
            && l'.session == l.session && l'.counter == l.counter && l'.fates == l.fates && l'.full == l.full
            && l'.Accepted() == l.Accepted()
  {
    OthersKeepSession(l, step);
    if step.Take? {
      if l.queue != [] { TakenKeepsAccepted(l); }
    } else {
      OthersKeepItems(l, step);
    }
  }

  lemma StepKeeps(l: Link, step: Step)
    requires LinkOk(l)
    ensures LinkOk(Next(l, step))
  {
    if step.Greet? || step.Receive? || step.Offer? || step.QueueClose? {
      SessionKeeps(l, step);
    } else {
      OthersTransport(l, step);
      OthersKeepNumbers(l, step);
    }
  }

  lemma {:induction false} RunKeeps(l: Link, steps: seq<Step>)
    requires LinkOk(l)
    ensures LinkOk(Run(l, steps))
    decreases |steps|
  {
    if steps != [] {
      StepKeeps(l, steps[0]);
      RunKeeps(Next(l, steps[0]), steps[1..]);
    }
  }

  // ---------------------------------------------------------------- explain, then close

  /** The error envelope that goes with a close code. */
  predicate Explains(env: Envelope, code: nat, why: nat) {
    && env.seqNo == why
    && ((code == UNSUPPORTED_DATA && env.kind == ErrMalformed) || (code == PROTOCOL_ERROR && env.kind == ErrVersion))
  }

  /** The item before a close explains it, unless the explanation never got onto the queue. */
  ghost predicate ExplainedAt(accepted: seq<Item>, c: int, code: nat, why: nat, fates: seq<Fate>)
    requires 0 <= c <= |accepted|
  {
    && 1 <= why <= |fates|
    && (fates[why - 1] == Accepted ==> c > 0 && accepted[c - 1].Data? && Explains(accepted[c - 1].env, code, why))
  }

  ghost predicate EveryCloseExplained(accepted: seq<Item>, fates: seq<Fate>) {
    forall c | 0 <= c < |accepted| && accepted[c].Close? ::
      ExplainedAt(accepted, c, accepted[c].code, accepted[c].why, fates)
  }

  /** The greeting, and only the greeting, has number 1. */
  ghost predicate GreetingFirst(accepted: seq<Item>) {
    forall c | 0 <= c < |accepted| && accepted[c].Data? ::
      accepted[c].env.kind == AuthSuccess <==> accepted[c].env.seqNo == 1
  }

  ghost predicate SessionOk(session: Session, accepted: seq<Item>, fates: seq<Fate>) {
    && (session.Closing? ==> ExplainedAt(accepted, |accepted|, session.code, session.why, fates))
    && (session.Holding? ==> (session.env.kind == AuthSuccess <==> session.env.seqNo == 1))
    && (fates == [] ==> accepted == [] && !session.Closing? && !session.Reading?)
    && (fates != [] ==> fates[0] != Rejected)
  }

  ghost predicate TalkOk(l: Link) {
    && EveryCloseExplained(l.Accepted(), l.fates) && GreetingFirst(l.Accepted())
    && SessionOk(l.session, l.Accepted(), l.fates)
  }

  /** What one more item and the fates to come must satisfy. */
  ghost predicate MayFollow(accepted: seq<Item>, fates: seq<Fate>, item: Item) {
    match item
    case Data(env) => env.kind == AuthSuccess <==> env.seqNo == 1
    case Close(code, why) => ExplainedAt(accepted, |accepted|, code, why, fates)
  }

  lemma FatesAdded(accepted: seq<Item>, fates: seq<Fate>, more: seq<Fate>)
    requires EveryCloseExplained(accepted, fates)
    ensures EveryCloseExplained(accepted, fates + more)
  {
    forall c | 0 <= c < |accepted| && accepted[c].Close?
      ensures ExplainedAt(accepted, c, accepted[c].code, accepted[c].why, fates + more)
    {
      assert ExplainedAt(accepted, c, accepted[c].code, accepted[c].why, fates);
    }
  }

  lemma ItemAdded(accepted: seq<Item>, fates: seq<Fate>, item: Item)
    requires EveryCloseExplained(accepted, fates) && GreetingFirst(accepted) && MayFollow(accepted, fates, item)
    ensures EveryCloseExplained(accepted + [item], fates) && GreetingFirst(accepted + [item])
  {
    var items := accepted + [item];
    forall c | 0 <= c < |items| && items[c].Close? ensures ExplainedAt(items, c, items[c].code, items[c].why, fates) {
      assert ExplainedAt(accepted, c, items[c].code, items[c].why, fates);
    }
  }

  lemma OfferLeavesSessionOk(l: Link, encodes: bool)
    requires l.session.Holding? && SessionOk(l.session, l.Accepted(), l.fates) && l.session.env.seqNo == |l.fates| + 1
    requires |l.queue| <= |l.Accepted()|
    ensures var l' := Offered(l, encodes); SessionOk(l'.session, l'.Accepted(), l'.fates)
  {
    OfferAccepted(l, encodes);
    assert l.Accepted() + [] == l.Accepted();
  }

  lemma OfferTalks(l: Link, encodes: bool)
    requires LinkOk(l) && TalkOk(l) && l.session.Holding?
    ensures TalkOk(Offered(l, encodes))
  {
    var fate := FateOf(l, encodes);
    OfferAccepted(l, encodes);
    OfferLeavesSessionOk(l, encodes);
    assert l.Accepted() + [] == l.Accepted();
    if fate.Accepted? { ItemAdded(l.Accepted(), l.fates, Data(l.session.env)); }
    FatesAdded(Offered(l, encodes).Accepted(), l.fates, [fate]);
  }

  lemma QueueCloseTalks(l: Link)
    requires LinkOk(l) && TalkOk(l) && l.session.Closing?
    ensures TalkOk(Next(l, QueueClose))
  {
    var item := Close(l.session.code, l.session.why);
    EnqueuedAccepted(l, item);
    assert l.Accepted() + [] == l.Accepted();
    ItemAdded(l.Accepted(), l.fates, item);
  }

  lemma DrawTalks(l: Link, kind: Kind)
    requires LinkOk(l) && TalkOk(l)
    requires if kind == AuthSuccess then l.session.Greeting? else l.session.Reading?
    ensures TalkOk(Draw(l, kind))
  {
    assert Draw(l, kind).Accepted() == l.Accepted();
  }

  /** The goroutines that do not speak leave what was said alone. */
  lemma OthersTalk(l: Link, step: Step)
    requires TalkOk(l) && !step.Greet? && !step.Receive? && !step.Offer? && !step.QueueClose?
    ensures TalkOk(Next(l, step))
  {
    OthersKeepNumbers(l, step);
  }

  lemma StepTalks(l: Link, step: Step)
    requires LinkOk(l) && TalkOk(l)
    ensures TalkOk(Next(l, step))
  {
    if step.Greet? {
      if l.session.Greeting? { DrawTalks(l, AuthSuccess); }
    } else if step.Receive? {
      if l.session.Reading? && !step.inbound.ReadError? {
        DrawTalks(l, KindFor(step.inbound));
      } else {
        assert Next(l, step).Accepted() == l.Accepted();
      }
    } else if step.Offer? {
      if l.session.Holding? { OfferTalks(l, step.encodes); }
    } else if step.QueueClose? {
      if l.session.Closing? { QueueCloseTalks(l); }
    } else {
      OthersTalk(l, step);
    }
  }

  lemma {:induction false} RunTalks(l: Link, steps: seq<Step>)
    requires LinkOk(l) && TalkOk(l)
    ensures TalkOk(Run(l, steps))
    decreases |steps|
  {
    if steps != [] {
      StepKeeps(l, steps[0]);
      StepTalks(l, steps[0]);
      RunTalks(Next(l, steps[0]), steps[1..]);
    }
  }

  // ---------------------------------------------------------------- what the numbers say

  lemma {:induction false} NumbersOfParts(a: seq<Item>, b: seq<Item>)
    ensures NumbersOf(a + b) == NumbersOf(a) + NumbersOf(b)
  {
    if b == [] {
      assert a + b == a;
    } else {
      var init, last := b[..|b| - 1], b[|b| - 1];
      NumbersOfParts(a, init);
      NumbersNext(a + init, last);
      NumbersNext(init, last);
      assert a + b == (a + init) + [last] && b == init + [last];
    }
  }

  /** With only data among them, the k-th item carries the k-th number. */
  lemma {:induction false} NumbersOfData(items: seq<Item>)
    requires forall k | 0 <= k < |items| :: items[k].Data?
    ensures |NumbersOf(items)| == |items|
    ensures forall k | 0 <= k < |items| :: NumbersOf(items)[k] == items[k].env.seqNo
  {
    if items != [] {
      NumbersOfData(items[..|items| - 1]);
    }
  }

  ghost predicate Increasing(s: seq<nat>) {
    forall i, j | 0 <= i < j < |s| :: s[i] < s[j]
  }

  /** An accepted number is one that was drawn. */
  lemma {:induction false} AcceptedDrawn(fates: seq<Fate>)
    ensures forall k | 0 <= k < |AcceptedNumbers(fates)| :: 1 <= AcceptedNumbers(fates)[k] <= |fates|
  {
    if fates != [] {
      AcceptedDrawn(fates[..|fates| - 1]);
    }
  }

  /** Numbers are accepted in strictly increasing order. */
  lemma {:induction false} AcceptedIncrease(fates: seq<Fate>)
    ensures Increasing(AcceptedNumbers(fates))
  {
    if fates != [] {
      AcceptedIncrease(fates[..|fates| - 1]);
      AcceptedDrawn(fates[..|fates| - 1]);
    }
  }

  /** Every number below n went onto the queue. */
  ghost predicate NoneRefusedBefore(fates: seq<Fate>, n: nat) {
    forall j | 0 <= j < n - 1 && j < |fates| :: fates[j] == Accepted
  }

  lemma {:induction false} NoneRefusedIff(fates: seq<Fate>)
    ensures |AcceptedNumbers(fates)| <= |fates|
    ensures |AcceptedNumbers(fates)| == |fates| <==> forall j | 0 <= j < |fates| :: fates[j] == Accepted
  {
    if fates != [] {
      NoneRefusedIff(fates[..|fates| - 1]);
    }
  }

  /** The k-th accepted number is k + 1 exactly when nothing before it was refused. */
  lemma {:induction false} ContiguousIff(fates: seq<Fate>, k: nat)
    requires k < |AcceptedNumbers(fates)|
    ensures AcceptedNumbers(fates)[k] == k + 1 <==>
            NoneRefusedBefore(fates, AcceptedNumbers(fates)[k])
  {
    var init := fates[..|fates| - 1];
    if k < |AcceptedNumbers(init)| {
      AcceptedDrawn(init);
      var n := AcceptedNumbers(init)[k];
      assert n == AcceptedNumbers(fates)[k];
      assert forall j | 0 <= j < n - 1 :: fates[j] == init[j];
      ContiguousIff(init, k);
    } else {
      NoneRefusedIff(init);
      assert AcceptedNumbers(fates)[k] == |fates|;
      assert forall j | 0 <= j < |init| :: fates[j] == init[j];
    }
  }

  function Refusals(fates: seq<Fate>, fate: Fate): nat {
    if fates == [] then 0
    else Refusals(fates[..|fates| - 1], fate) + if fates[|fates| - 1] == fate then 1 else 0
  }

  lemma {:induction false} EveryFateCounted(fates: seq<Fate>)
    ensures |AcceptedNumbers(fates)| + Refusals(fates, Rejected) + Refusals(fates, Unencoded) == |fates|
  {
    if fates != [] {
      EveryFateCounted(fates[..|fates| - 1]);
    }
  }

  // ---------------------------------------------------------------- main theorems

  /** How many data frames the peer has received. */
  function Texts(l: Link): int {
    Delivered(l.taken, l.pump)
  }

  /** The initial state of every connection. */
  lemma DialledIsOk()
    ensures LinkOk(Dialled()) && TalkOk(Dialled())
  {
  }

  /** In every reachable state the frames on the wire are the data frames the queue accepted first, in order, followed
      at most by one close frame; and the queue never exceeds its size. */
  lemma WireIsPrefixOfAccepted(steps: seq<Step>)
    ensures var l := Run(Dialled(), steps); var n := Texts(l);
            && Carries(l.wire, l.Accepted(), n)
            && (|l.wire| == n || (|l.wire| == n + 1 && l.wire[n].CloseFrame?))
            && |l.queue| <= 64
  {
    DialledIsOk();
    RunKeeps(Dialled(), steps);
  }

  /** The number at the head of the wire is that of an accepted envelope. */
  lemma {:induction false} AcceptedWere(fates: seq<Fate>, k: nat)
    requires k < |AcceptedNumbers(fates)|
    ensures var n := AcceptedNumbers(fates)[k]; 1 <= n <= |fates| && fates[n - 1] == Accepted
  {
    var init := fates[..|fates| - 1];
    if k < |AcceptedNumbers(init)| {
      AcceptedWere(init, k);
    }
  }

  /** The last data frame on the wire is the envelope explaining the close. */
  predicate EndsExplaining(wire: seq<Frame>, n: int, code: nat, why: nat)
    requires n <= |wire|
  {
    n > 0 && wire[n - 1].Text? && Explains(wire[n - 1].env, code, why)
  }

  lemma ExecutedClose(l: Link)
    requires LinkOk(l) && TalkOk(l) && l.pump == Exited(Drained)
    ensures var c := |l.taken| - 1;
            && c >= 0 && l.Accepted()[c].Close? && Texts(l) == c && Carries(l.wire, l.Accepted(), c) && !l.open
            && var Close(code, why) := l.Accepted()[c];
               && 1 <= why <= |l.fates|
               && (l.fates[why - 1] == Accepted <==> EndsExplaining(l.wire, c, code, why))
               && (l.fates[why - 1] == Rejected ==> l.full)
  {
    var c := |l.taken| - 1;
    assert l.Accepted()[c] == l.taken[c];
    var Close(code, why) := l.taken[c];
    assert ExplainedAt(l.Accepted(), c, code, why, l.fates);
    if c > 0 {
      assert l.Accepted()[c - 1] == l.taken[c - 1];
      WireNumbers(l);
      AcceptedWere(l.fates, c - 1);
    }
  }

  /** If a queued close is executed, the wire holds exactly the data frames accepted before it; and the last of them is
      the envelope explaining the close if and only if that envelope was accepted. One refused has raised Full. */
  lemma DrainedBeforeClose(steps: seq<Step>)
    ensures var l := Run(Dialled(), steps); var c := |l.taken| - 1;
            l.pump == Exited(Drained) ==>
              && c >= 0 && l.Accepted()[c].Close? && Texts(l) == c && Carries(l.wire, l.Accepted(), c) && !l.open
              && var Close(code, why) := l.Accepted()[c];
                 && 1 <= why <= |l.fates|
                 && (l.fates[why - 1] == Accepted <==> EndsExplaining(l.wire, c, code, why))
                 && (l.fates[why - 1] == Rejected ==> l.full)
  {
    DialledIsOk();
    RunKeeps(Dialled(), steps);
    RunTalks(Dialled(), steps);
    var l := Run(Dialled(), steps);
    if l.pump == Exited(Drained) { ExecutedClose(l); }
  }

  /** A close executed on an open socket puts its own code on the wire. */
  lemma CloseIsSent(l: Link, ok: bool)
    requires l.pump.Writing? && l.pump.item.Close? && l.open
    ensures Next(l, Write(ok)).wire == l.wire + [CloseFrame(l.pump.item.code)]
    ensures Next(l, Write(ok)).pump == Exited(Drained) && !Next(l, Write(ok)).open
  {
  }

  /** The watcher closes a slow client's open socket with code 3000, and only once Full has been raised. */
  lemma SlowClientIsClosed(l: Link)
    ensures Next(l, Watch).wire == if l.watching && l.full && l.open then l.wire + [CloseFrame(3000)] else l.wire
    ensures l.watching && l.full ==> !Next(l, Watch).open && !Next(l, Watch).watching
  {
  }

  /** The frames of a stretch of data items. */
  function TextsOf(items: seq<Item>): seq<Frame>
    requires forall k | 0 <= k < |items| :: items[k].Data?
  {
    seq(|items|, k requires 0 <= k < |items| => Text(items[k].env))
  }

  function TakeAndWrite(n: nat): seq<Step> {
    if n == 0 then [] else [Take, Write(true)] + TakeAndWrite(n - 1)
  }

  /** An idle pump whose writes succeed puts the whole queue on the wire, in order. */
  lemma {:induction false} QueueDrains(l: Link)
    requires l.open && l.pump.Idle? && forall k | 0 <= k < |l.queue| :: l.queue[k].Data?
    ensures var l' := Run(l, TakeAndWrite(|l.queue|));
            l'.wire == l.wire + TextsOf(l.queue) && l'.queue == [] && l'.pump.Idle? && l'.open
    decreases |l.queue|
  {
    if l.queue != [] {
      var rest := TakeAndWrite(|l.queue| - 1);
      var l1 := Next(l, Take);
      var l2 := Next(l1, Write(true));
      assert TakeAndWrite(|l.queue|) == [Take] + ([Write(true)] + rest);
      RunParts(l, [Take], [Write(true)] + rest);
      RunParts(l1, [Write(true)], rest);
      assert Run(l, [Take]) == l1 && Run(l1, [Write(true)]) == l2;
      QueueDrains(l2);
      assert TextsOf(l.queue) == [Text(l.queue[0].env)] + TextsOf(l.queue[1..]);
    }
  }

  /** Once the socket is closed nothing follows on the wire, though the session may go on handling frames. */
  lemma {:induction false} NothingFollows(l: Link, steps: seq<Step>)
    requires !l.open
    ensures Run(l, steps).wire == l.wire && !Run(l, steps).open
    decreases |steps|
  {
    if steps != [] {
      NothingFollows(Next(l, steps[0]), steps[1..]);
    }
  }

  lemma LeadingNumbers(taken: seq<Item>, queue: seq<Item>, n: nat)
    requires n <= |taken| && forall k | 0 <= k < n :: taken[k].Data?
    ensures n <= |NumbersOf(taken + queue)|
    ensures forall k | 0 <= k < n :: NumbersOf(taken + queue)[k] == taken[k].env.seqNo
  {
    var rest := taken[n..] + queue;
    assert taken + queue == taken[..n] + rest;
    NumbersOfParts(taken[..n], rest);
    NumbersOfData(taken[..n]);
  }

  /** The data frames on the wire carry the first accepted numbers. */
  lemma WireNumbers(l: Link)
    requires LinkOk(l)
    ensures Texts(l) <= |AcceptedNumbers(l.fates)|
    ensures forall k | 0 <= k < Texts(l) :: l.wire[k].Text? && l.wire[k].env.seqNo == AcceptedNumbers(l.fates)[k]
  {
    LeadingNumbers(l.taken, l.queue, Texts(l));
  }

  /** Numbers on the wire strictly increase, and the k-th is k + 1 exactly when no envelope before it was refused; while
      Full has not been raised none has been for want of room. */
  lemma NumbersOnTheWire(steps: seq<Step>)
    ensures var l := Run(Dialled(), steps); var n := Texts(l);
            && n <= |l.wire| && (forall k | 0 <= k < n :: l.wire[k].Text? && 1 <= l.wire[k].env.seqNo <= l.counter)
            && (forall i, j | 0 <= i < j < n :: l.wire[i].env.seqNo < l.wire[j].env.seqNo)
            && (forall k | 0 <= k < n ::
                  l.wire[k].env.seqNo == k + 1 <==> NoneRefusedBefore(l.fates, l.wire[k].env.seqNo))
            && (!l.full ==> Rejected !in l.fates)
  {
    DialledIsOk();
    RunKeeps(Dialled(), steps);
    var l := Run(Dialled(), steps);
    WireNumbers(l);
    AcceptedIncrease(l.fates);
    forall k | 0 <= k < Texts(l)
      ensures 1 <= l.wire[k].env.seqNo <= l.counter
      ensures l.wire[k].env.seqNo == k + 1 <==> NoneRefusedBefore(l.fates, l.wire[k].env.seqNo)
    {
      AcceptedDrawn(l.fates);
      ContiguousIff(l.fates, k);
    }
  }

  /** The first data frame is the greeting, with number 1, if it could be encoded at all: it always finds room. */
  lemma GreetingIsFirst(steps: seq<Step>)
    ensures var l := Run(Dialled(), steps);
            Texts(l) > 0 ==> l.fates != [] && l.wire != [] &&
                             (l.fates[0] != Unencoded ==> l.wire[0] == Text(Envelope(1, AuthSuccess)))
  {
    DialledIsOk();
    RunKeeps(Dialled(), steps);
    RunTalks(Dialled(), steps);
    var l := Run(Dialled(), steps);
    if Texts(l) > 0 {
      WireNumbers(l);
      NoneRefusedIff(l.fates);
      assert l.Accepted()[0] == l.taken[0];
      if l.fates[0] == Accepted {
        FirstAccepted(l.fates);
      }
    }
  }

  lemma {:induction false} FirstAccepted(fates: seq<Fate>)
    requires fates != [] && fates[0] == Accepted
    ensures AcceptedNumbers(fates) != [] && AcceptedNumbers(fates)[0] == 1
  {
    if |fates| > 1 {
      FirstAccepted(fates[..|fates| - 1]);
    }
  }

  /** Of the items taken, the delivered ones are all data, and at most one follows them. */
  lemma NumbersTaken(taken: seq<Item>, n: nat)
    requires n <= |taken| <= n + 1 && forall k | 0 <= k < n :: taken[k].Data?
    ensures |NumbersOf(taken)| == n + if n < |taken| && taken[n].Data? then 1 else 0
  {
    NumbersOfData(taken[..n]);
    if n < |taken| {
      NumbersNext(taken[..n], taken[n]);
      assert taken == taken[..n] + [taken[n]];
    } else {
      assert taken == taken[..n];
    }
  }

  ghost predicate Conserved(l: Link) {
    l.counter == Texts(l) + |NumbersOf(l.queue)|
               + (if l.pump.Writing? && l.pump.item.Data? then 1 else 0)
               + (if l.pump == Exited(WriteFailed) then 1 else 0)
               + Refusals(l.fates, Rejected) + Refusals(l.fates, Unencoded)
               + (if l.session.Holding? then 1 else 0)
  }

  lemma LinkConserves(l: Link)
    requires LinkOk(l)
    ensures Conserved(l)
  {
    EveryFateCounted(l.fates);
    NumbersOfParts(l.taken, l.queue);
    NumbersTaken(l.taken, Texts(l));
  }

  /** Every number drawn is accounted for: its envelope is on the wire, in the queue, in the pump's hands, still held by
      the session, refused, not encodable, or it is the one a failed write lost. */
  lemma NumbersAreConserved(steps: seq<Step>)
    ensures Conserved(Run(Dialled(), steps))
  {
    DialledIsOk();
    RunKeeps(Dialled(), steps);
    LinkConserves(Run(Dialled(), steps));
  }
}
