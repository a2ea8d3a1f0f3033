/** The two objects behind a connection, updating their fields in place: the transport's Conn
    (platform/websocket/conn.go) and the session's connection (internal/realtime/router.go). Every method is proved to
    make the steps of Connection.dfy; between any two of the session's steps the other goroutines may take any. */
module ConnectionObjects {
  import opened Basics
  import opened Connections

  class Conn {
    var queue: seq<Item>
    var full: bool
    var open: bool
    var wire: seq<Frame>
    var pump: Pump
    var watching: bool
    ghost var taken: seq<Item>

    /** The link as far as the transport knows it. */
    ghost function Bare(): Link reads this {
      Link(queue, full, open, wire, pump, watching, Gone, 0, [], taken)
    }

    constructor ()
      ensures Bare() == Dialled().(session := Gone)
    {
      queue, full, open, wire, pump, watching, taken := [], false, true, [], Idle, true, [];
    }

    /** Send: a non-blocking send on the bounded channel, signalling Full when there is no room. */
    method Send(item: Item) returns (ok: bool)
      modifies this
      ensures ok <==> |old(queue)| < 64
      ensures queue == if ok then old(queue) + [item] else old(queue)
      ensures !ok ==> full
      ensures Bare() == Enqueue(old(Bare()), item)
    {
      ok := |queue| < QUEUE_SIZE;
      if ok {
        queue := queue + [item];
      } else {
        full := true;
      }
    }

    method CloseAfterDrain(code: nat, why: nat) returns (ok: bool)
      modifies this
      ensures ok <==> |old(queue)| < 64
      ensures queue == if ok then old(queue) + [Close(code, why)] else old(queue)
      ensures !ok ==> full
      ensures Bare() == Enqueue(old(Bare()), Close(code, why))
    {
      ok := Send(Close(code, why));
    }

    /** Close: the close frame is written at once, unless the socket is closed already. */
    method CloseNow(code: nat)
      modifies this
      ensures Bare() == Shut(old(Bare()), code)
    {
      if open {
        open, wire := false, wire + [CloseFrame(code)];
      }
    }

    /** The pump's receive from the channel. */
    method TakeItem()
      modifies this
      ensures Bare() == Next(old(Bare()), Take)
    {
      if pump.Idle? && queue != [] {
        pump, taken, queue := Writing(queue[0]), taken + [queue[0]], queue[1..];
      }
    }

    /** What the pump does with the item it took. */
    method WriteItem(ok: bool)
      modifies this
      ensures Bare() == Next(old(Bare()), Write(ok))
    {
      match pump {
        case Writing(item) =>
          match item {
            case Close(code, _) =>
              CloseNow(code);
              pump := Exited(Drained);
            case Data(env) =>
              if ok && open {
                wire, pump := wire + [Text(env)], Idle;
              } else {
                pump := Exited(WriteFailed);
              }
          }
        case _ =>
      }
    }

    /** One step of the pump, the watcher, or the world outside. */
    method Other(step: Step)
      requires !IsSessionStep(step)
      modifies this
      ensures Bare() == Next(old(Bare()), step)
    {
      match step {
        case Take => TakeItem();
        case Write(ok) => WriteItem(ok);
        case PumpCancelled => if pump.Idle? { pump := Exited(Cancelled); }
        case PingFails => if pump.Idle? { pump := Exited(PingFailed); }
        case Watch =>
          if watching && full {
            CloseNow(SLOW_CLIENT);
            watching := false;
          }
        case WatchCancelled => watching := false;
        case CloseDirectly(code) => CloseNow(code);
        case SocketBreaks => open := false;
        case _ => assert false;
      }
    }
  }

  predicate IsSessionStep(step: Step) {
    step.Greet? || step.Receive? || step.Offer? || step.QueueClose?
  }

  predicate Background(steps: seq<Step>) {
    forall i | 0 <= i < |steps| :: !IsSessionStep(steps[i])
  }

  /** One pass of the read loop: the frame read, whether its reply encodes, and what the other goroutines do before the
      read returns, before the reply is sent, and before the close is queued. */
  datatype Pass = Pass(before: seq<Step>, inbound: Inbound, beforeReply: seq<Step>, encodes: bool,
                       beforeClose: seq<Step>) {
    predicate Proper() { Background(before) && Background(beforeReply) && Background(beforeClose) }
  }

  /** The steps of drawing a number for a reply and sending it. */
  function ReplySteps(p: Pass): seq<Step> {
    [Receive(p.inbound)] + p.beforeReply + [Offer(p.encodes)]
  }

  /** The steps a pass of `handle` amounts to. */
  function HandleSteps(p: Pass): seq<Step> {
    ReplySteps(p) + p.beforeClose + if p.inbound.UnknownType? then [] else [QueueClose]
  }

  function PassSteps(p: Pass): seq<Step> {
    p.before + if p.inbound.ReadError? then [Receive(ReadError)] else HandleSteps(p)
  }

  function ServeSteps(passes: seq<Pass>): seq<Step> {
    if passes == [] then []
    else ServeSteps(passes[..|passes| - 1]) + PassSteps(passes[|passes| - 1])
  }

  lemma ServeOneMore(passes: seq<Pass>, i: nat, hello: seq<Step>)
    requires i < |passes|
    ensures hello + ServeSteps(passes[..i + 1]) == (hello + ServeSteps(passes[..i])) + PassSteps(passes[i])
  {
    assert passes[..i + 1][..i] == passes[..i];
  }

  /** Steps of the other goroutines leave the session's own variables alone. */
  lemma BackgroundLeavesSession(l: Link, step: Step)
    requires !IsSessionStep(step)
    ensures Next(l, step) == Next(l.(session := Gone, counter := 0, fates := []), step)
                             .(session := l.session, counter := l.counter, fates := l.fates)
  {
  }

  lemma {:induction false} BackgroundLeaves(l: Link, steps: seq<Step>)
    requires Background(steps)
    ensures var l' := Run(l, steps);
            l'.session == l.session && l'.counter == l.counter && l'.Accepted() == l.Accepted()
    decreases |steps|
  {
    if steps != [] {
      OthersKeepNumbers(l, steps[0]);
      BackgroundLeaves(Next(l, steps[0]), steps[1..]);
    }
  }

  lemma ReplySays(l: Link, p: Pass)
    requires l.session.Reading? && p.Proper() && !p.inbound.ReadError?
    ensures var l' := Run(l, ReplySteps(p)); var env := Envelope(l.counter + 1, KindFor(p.inbound));
            var fits := |Run(l, [Receive(p.inbound)] + p.beforeReply).queue| < 64;
            && l'.Accepted() == l.Accepted() + (if p.encodes && fits then [Data(env)] else [])
            && l'.session == AfterSend(env)
  {
    var l1 := Next(l, Receive(p.inbound));
    assert Run(l, [Receive(p.inbound)]) == l1;
    RunParts(l, [Receive(p.inbound)], p.beforeReply);
    BackgroundLeaves(l1, p.beforeReply);
    RunOne(l, [Receive(p.inbound)] + p.beforeReply, Offer(p.encodes));
    OfferAccepted(Run(l1, p.beforeReply), p.encodes);
    assert l1.Accepted() == l.Accepted();
  }

  /** What a frame is answered with, whatever the other goroutines do meanwhile: one error envelope of the frame's own
      kind under the next number, if it encodes and finds room, and after a frame that cannot be gone on from a close
      with that kind's code, if it finds room. Nothing else is queued. */
  lemma HandleSays(l: Link, p: Pass)
    requires l.session.Reading? && p.Proper() && !p.inbound.ReadError?
    ensures var n, said := l.counter + 1, Run(l, HandleSteps(p)).Accepted();
            var replies := p.encodes && |Run(l, [Receive(p.inbound)] + p.beforeReply).queue| < 64;
            var closes := |Run(l, ReplySteps(p) + p.beforeClose).queue| < 64;
            && (p.inbound == Malformed ==>
                  said == l.Accepted() + (if replies then [Data(Envelope(n, ErrMalformed))] else [])
                                       + (if closes then [Close(1003, n)] else []))
            && (p.inbound == WrongVersion ==>
                  said == l.Accepted() + (if replies then [Data(Envelope(n, ErrVersion))] else [])
                                       + (if closes then [Close(1002, n)] else []))
            && (p.inbound == UnknownType ==>
                  said == l.Accepted() + (if replies then [Data(Envelope(n, ErrUnknownType))] else []))
  {
    ReplySays(l, p);
    var l3 := Run(l, ReplySteps(p));
    RunParts(l, ReplySteps(p), p.beforeClose);
    BackgroundLeaves(l3, p.beforeClose);
    var l4 := Run(l3, p.beforeClose);
    if p.inbound.UnknownType? {
      assert HandleSteps(p) == ReplySteps(p) + p.beforeClose;
    } else {
      RunOne(l, ReplySteps(p) + p.beforeClose, QueueClose);
      EnqueuedAccepted(l4, Close(l4.session.code, l4.session.why));
    }
  }

  /** A pass in which nobody else moves and the reply encodes. */
  predicate Undisturbed(p: Pass) {
    p.beforeReply == [] && p.encodes && p.beforeClose == []
  }

  /** A frame's answer is queued whole. */
  predicate Answered(before: seq<Item>, after: seq<Item>, inbound: Inbound, n: nat) {
    match inbound
    case Malformed => after == before + [Data(Envelope(n, ErrMalformed)), Close(1003, n)]
    case WrongVersion => after == before + [Data(Envelope(n, ErrVersion)), Close(1002, n)]
    case UnknownType => after == before + [Data(Envelope(n, ErrUnknownType))]
    case ReadError => false
  }

  lemma HandleAlone(l: Link, p: Pass)
    requires l.session.Reading? && !p.inbound.ReadError? && Undisturbed(p) && |l.queue| <= 62
    ensures Answered(l.queue, Run(l, HandleSteps(p)).queue, p.inbound, l.counter + 1)
    ensures Run(l, HandleSteps(p)).counter == l.counter + 1
  {
    var l1 := Next(l, Receive(p.inbound));
    var l2 := Next(l1, Offer(true));
    assert ReplySteps(p) == [Receive(p.inbound), Offer(true)];
    assert Run(l, [Receive(p.inbound)]) == l1;
    RunOne(l, [Receive(p.inbound)], Offer(true));
    assert ReplySteps(p) == [Receive(p.inbound)] + [Offer(true)];
    if p.inbound.UnknownType? {
      assert HandleSteps(p) == ReplySteps(p);
    } else {
      assert HandleSteps(p) == ReplySteps(p) + [QueueClose];
      RunOne(l, ReplySteps(p), QueueClose);
      assert Next(l2, QueueClose).queue == l2.queue + [Close(l2.session.code, l2.session.why)];
    }
  }

  class Connection {
    const conn: Conn
    var session: Session
    var counter: nat
    ghost var fates: seq<Fate>

    ghost function View(): Link reads this, conn {
      conn.Bare().(session := session, counter := counter, fates := fates)
    }

    constructor ()
      ensures View() == Dialled() && fresh(conn)
    {
      conn := new Conn();
      session, counter, fates := Greeting, 0, [];
    }

    method NextSeq() returns (n: nat)
      modifies this`counter
      ensures counter == old(counter) + 1 && n == counter
    {
      counter := counter + 1;
      n := counter;
    }

    /** Draw a number for the reply; the envelope is made but not yet sent. */
    method Prepare(kind: Kind)
      modifies this`counter, this`session
      ensures View() == Draw(old(View()), kind)
    {
      var n := NextSeq();
      session := Holding(Envelope(n, kind));
    }

    /** send: encode and enqueue; a failure of either is only logged. */
    method SendEnvelope(encodes: bool)
      requires session.Holding?
      modifies this, conn
      ensures View() == Offered(old(View()), encodes)
    {
      var env := session.env;
      ghost var fate := FateOf(View(), encodes);
      if encodes {
        var _ := conn.Send(Data(env));
      }
      session := AfterSend(env);
      fates := fates + [fate];
    }

    /** The other goroutines run. */
    method Meanwhile(steps: seq<Step>)
      requires Background(steps)
      modifies conn
      ensures View() == Run(old(View()), steps)
      ensures session == old(session)
    {
      for i := 0 to |steps|
        invariant View() == Run(old(View()), steps[..i])
      {
        assert steps[..i + 1] == steps[..i] + [steps[i]];
        RunOne(old(View()), steps[..i], steps[i]);
        BackgroundLeavesSession(View(), steps[i]);
        conn.Other(steps[i]);
      }
      assert steps[..|steps|] == steps;
    }

    /** The reply a frame gets. */
    method Reply(p: Pass)
      requires session.Reading? && !p.inbound.ReadError? && Background(p.beforeReply)
      modifies this, conn
      ensures View() == Run(old(View()), ReplySteps(p))
      ensures session == AfterSend(Envelope(old(counter) + 1, KindFor(p.inbound)))
    {
      ghost var l := View();
      Prepare(KindFor(p.inbound));
      assert View() == Run(l, [Receive(p.inbound)]);
      RunParts(l, [Receive(p.inbound)], p.beforeReply);
      Meanwhile(p.beforeReply);
      RunOne(l, [Receive(p.inbound)] + p.beforeReply, Offer(p.encodes));
      SendEnvelope(p.encodes);
    }

    /** handle: the reply, and the close that follows it after a frame the session cannot go on from. */
    method Handle(p: Pass)
      requires session.Reading? && !p.inbound.ReadError? && p.Proper()
      modifies this, conn
      ensures session.Reading?
      ensures View() == Run(old(View()), HandleSteps(p))
      ensures !p.inbound.UnknownType? ==> conn.full || conn.queue != []
      ensures Undisturbed(p) && |old(conn.queue)| <= 62 ==> Answered(old(conn.queue), conn.queue, p.inbound, counter)
    {
      ghost var l, steps := View(), ReplySteps(p) + p.beforeClose;
      if Undisturbed(p) && |l.queue| <= 62 { HandleAlone(l, p); }
      Reply(p);
      RunParts(l, ReplySteps(p), p.beforeClose);
      Meanwhile(p.beforeClose);
      if session.Closing? {
        RunOne(l, steps, QueueClose);
        var _ := conn.CloseAfterDrain(session.code, session.why);
        session := Reading;
      } else {
        assert steps + [] == steps;
      }
    }

    /** One pass of the read loop. */
    method ReadOne(p: Pass)
      requires session.Reading? && p.Proper()
      modifies this, conn
      ensures session == if p.inbound.ReadError? then Gone else Reading
      ensures View() == Run(old(View()), PassSteps(p))
    {
      ghost var l := View();
      Meanwhile(p.before);
      if p.inbound.ReadError? {
        RunOne(l, p.before, Receive(ReadError));
        session := Gone;
      } else {
        RunParts(l, p.before, HandleSteps(p));
        Handle(p);
      }
    }

    /** The greeting. */
    method Greeted(greets: bool, beforeGreeting: seq<Step>)
      requires session.Greeting? && Background(beforeGreeting)
      modifies this, conn
      ensures View() == Run(old(View()), [Greet] + beforeGreeting + [Offer(greets)])
      ensures session.Reading?
    {
      ghost var l := View();
      Prepare(AuthSuccess);
      assert View() == Run(l, [Greet]);
      RunParts(l, [Greet], beforeGreeting);
      Meanwhile(beforeGreeting);
      RunOne(l, [Greet] + beforeGreeting, Offer(greets));
      SendEnvelope(greets);
    }

    /** serve: the greeting, then the read loop until a read fails. */
    method Serve(greets: bool, beforeGreeting: seq<Step>, passes: seq<Pass>)
      requires session.Greeting? && Background(beforeGreeting)
      requires forall i | 0 <= i < |passes| :: passes[i].Proper()
      requires forall i | 0 <= i < |passes| - 1 :: !passes[i].inbound.ReadError?
      modifies this, conn
      ensures View() == Run(old(View()), [Greet] + beforeGreeting + [Offer(greets)] + ServeSteps(passes))
      ensures session.Gone? <==> passes != [] && passes[|passes| - 1].inbound.ReadError?
    {
      ghost var l := View();
      Greeted(greets, beforeGreeting);
      ghost var hello := [Greet] + beforeGreeting + [Offer(greets)];
      assert hello + [] == hello;
      for i := 0 to |passes|
        invariant View() == Run(l, hello + ServeSteps(passes[..i]))
        invariant session == if i > 0 && passes[i - 1].inbound.ReadError? then Gone else Reading
      {
        ServeOneMore(passes, i, hello);
        RunParts(l, hello + ServeSteps(passes[..i]), PassSteps(passes[i]));
        ReadOne(passes[i]);
      }
      assert passes[..|passes|] == passes;
    }
  }
}
