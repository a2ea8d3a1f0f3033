/** Two runs of a connection whose client stops reading for a while: what a full queue costs, step by step. */
module ConnectionRuns {
  import opened Connections

  function EnvelopeNo(n: nat): Envelope {
    Envelope(n, if n == 1 then AuthSuccess else ErrUnknownType)
  }

  function Replies(n: nat): seq<Item> {
    seq(n, i requires 0 <= i < n => Data(EnvelopeNo(i + 1)))
  }

  /** The greeting and n - 1 replies to unknown messages, with the pump taking nothing. */
  function FillSteps(n: nat): seq<Step> {
    if n == 0 then []
    else FillSteps(n - 1) + [if n == 1 then Greet else Receive(UnknownType), Offer(true)]
  }

  function Stuffed(n: nat): Link {
    Link(Replies(n), false, true, [], Idle, true, if n == 0 then Greeting else Reading, n, seq(n, _ => Accepted), [])
  }

  lemma RunTwo(l: Link, a: Step, b: Step)
    ensures Run(l, [a, b]) == Next(Next(l, a), b)
  {
    RunOne(l, [a], b);
    assert [a] + [b] == [a, b];
  }

  lemma OneMoreReply(n: nat)
    requires 0 < n <= QUEUE_SIZE
    ensures Run(Stuffed(n - 1), [if n == 1 then Greet else Receive(UnknownType), Offer(true)]) == Stuffed(n)
  {
    var first := if n == 1 then Greet else Receive(UnknownType);
    RunTwo(Stuffed(n - 1), first, Offer(true));
    assert Next(Stuffed(n - 1), first) == Stuffed(n - 1).(counter := n, session := Holding(EnvelopeNo(n)));
    assert Replies(n) == Replies(n - 1) + [Data(EnvelopeNo(n))];
    assert seq(n, _ => Accepted) == seq(n - 1, _ => Accepted) + [Accepted];
  }

  lemma {:induction false} AfterFill(n: nat)
    requires n <= QUEUE_SIZE
    ensures Run(Dialled(), FillSteps(n)) == Stuffed(n)
  {
    if n == 0 {
      assert Replies(0) == [] && seq(0, _ => Accepted) == [];
    } else {
      AfterFill(n - 1);
      OneMoreReply(n);
      RunParts(Dialled(), FillSteps(n - 1), [if n == 1 then Greet else Receive(UnknownType), Offer(true)]);
    }
  }

  /** With the queue full one more reply is refused, and Full is raised. */
  function Refused(n: nat, kind: Kind): Link {
    Stuffed(n).(full := true, counter := n + 1, session := AfterSend(Envelope(n + 1, kind)),
                fates := Stuffed(n).fates + [Rejected])
  }

  lemma AfterRefusal(n: nat, inbound: Inbound)
    requires n == QUEUE_SIZE && !inbound.ReadError?
    ensures Run(Stuffed(n), [Receive(inbound), Offer(true)]) == Refused(n, KindFor(inbound))
  {
    RunTwo(Stuffed(n), Receive(inbound), Offer(true));
  }

  // ---------------------------------------------------------------- dropped, and then accepted

  lemma AfterRoom(n: nat)
    requires n == QUEUE_SIZE
    ensures var l := Run(Refused(n, ErrUnknownType), [Take] + [Receive(UnknownType), Offer(true)]);
            && l.open && l.full && l.fates == Stuffed(n).fates + [Rejected] + [Accepted]
            && l.queue == Replies(n)[1..] + [Data(Envelope(n + 2, ErrUnknownType))]
  {
    var refused := Refused(n, ErrUnknownType);
    RunParts(refused, [Take], [Receive(UnknownType), Offer(true)]);
    RunTwo(Next(refused, Take), Receive(UnknownType), Offer(true));
  }

  /** A message refused by a full queue is dropped, and once the pump has taken one the next is accepted, though the
      watcher is about to close the connection. */
  lemma DroppedThenAccepted(n: nat) returns (steps: seq<Step>)
    requires n == QUEUE_SIZE
    ensures var l := Run(Dialled(), steps);
            && l.open && l.full && l.fates == seq(n, _ => Accepted) + [Rejected] + [Accepted]
            && l.queue == Replies(n)[1..] + [Data(Envelope(n + 2, ErrUnknownType))]
  {
    var reply := [Receive(UnknownType), Offer(true)];
    AfterFill(n);
    AfterRefusal(n, UnknownType);
    AfterRoom(n);
    RunParts(Dialled(), FillSteps(n), reply);
    RunParts(Dialled(), FillSteps(n) + reply, [Take] + reply);
    steps := FillSteps(n) + reply + ([Take] + reply);
  }

  // ---------------------------------------------------------------- closed without an explanation

  function DrainSteps(k: nat): seq<Step> {
    if k == 0 then [] else [Write(true), Take] + DrainSteps(k - 1)
  }

  function Frames(items: seq<Item>): seq<Frame>
    requires forall i | 0 <= i < |items| :: items[i].Data?
  {
    seq(|items|, i requires 0 <= i < |items| => Text(items[i].env))
  }

  ghost predicate LeadingData(items: seq<Item>, k: nat) {
    k < |items| && forall i | 0 <= i < k :: items[i].Data?
  }

  /** The pump at work on `items`, the first of them in its hands. */
  ghost predicate Pumping(l: Link, items: seq<Item>) {
    l.open && items != [] && l.pump == Writing(items[0]) && l.queue == items[1..]
  }

  /** The pump has written the first k of the items it was at work on, and holds the next. */
  ghost predicate Wrote(l: Link, l': Link, items: seq<Item>, k: nat)
    requires LeadingData(items, k)
  {
    && Pumping(l', items[k..])
    && l'.wire == l.wire + Frames(items[..k]) && l'.taken == l.taken + items[1..k + 1]
    && l'.fates == l.fates && l'.full == l.full
  }

  lemma DrainOne(l: Link, items: seq<Item>)
    requires Pumping(l, items) && LeadingData(items, 1)
    ensures Wrote(l, Run(l, [Write(true), Take]), items, 1)
  {
    RunTwo(l, Write(true), Take);
    assert items[1..][1..] == items[2..];
    assert Frames(items[..1]) == [Text(items[0].env)] && items[1..2] == [items[1]];
  }

  lemma WroteMore(l: Link, next: Link, l': Link, items: seq<Item>, k: nat)
    requires k > 0 && LeadingData(items, k) && Wrote(l, next, items, 1)
    requires LeadingData(items[1..], k - 1) && Wrote(next, l', items[1..], k - 1)
    ensures Wrote(l, l', items, k)
  {
    assert items[1..][k - 1..] == items[k..];
    assert items[1..2] + items[1..][1..k] == items[1..k + 1];
    assert Frames(items[..1]) + Frames(items[1..][..k - 1]) == Frames(items[..k]);
  }

  lemma {:induction false} DrainAll(l: Link, items: seq<Item>, k: nat)
    requires Pumping(l, items) && LeadingData(items, k)
    ensures Wrote(l, Run(l, DrainSteps(k)), items, k)
    decreases k
  {
    if k == 0 {
      assert items[0..] == items && Frames(items[..0]) == [] && items[1..1] == [];
    } else {
      DrainOne(l, items);
      var next := Run(l, [Write(true), Take]);
      DrainAll(next, items[1..], k - 1);
      RunParts(l, [Write(true), Take], DrainSteps(k - 1));
      WroteMore(l, next, Run(next, DrainSteps(k - 1)), items, k);
    }
  }

  /** The close that was to follow the explanation is queued all the same, as soon as the pump has taken one item. */
  lemma AfterUnexplained(n: nat)
    requires n == QUEUE_SIZE
    ensures var l := Run(Refused(n, ErrMalformed), [Take, QueueClose]);
            && Pumping(l, Replies(n) + [Close(UNSUPPORTED_DATA, n + 1)])
            && l.wire == [] && l.taken == [Replies(n)[0]] && l.full && l.fates == Stuffed(n).fates + [Rejected]
  {
    RunTwo(Refused(n, ErrMalformed), Take, QueueClose);
    assert (Replies(n) + [Close(UNSUPPORTED_DATA, n + 1)])[1..] == Replies(n)[1..] + [Close(UNSUPPORTED_DATA, n + 1)];
  }

  lemma AfterDrain(l: Link, n: nat)
    requires n > 0 && Pumping(l, Replies(n) + [Close(UNSUPPORTED_DATA, n + 1)])
    requires l.wire == [] && l.taken == [Replies(n)[0]]
    ensures var l' := Run(l, DrainSteps(n) + [Write(true)]);
            && l'.pump == Exited(Drained) && l'.wire == Frames(Replies(n)) + [CloseFrame(UNSUPPORTED_DATA)]
            && l'.taken == Replies(n) + [Close(UNSUPPORTED_DATA, n + 1)]
            && l'.fates == l.fates && l'.full == l.full
  {
    var items := Replies(n) + [Close(UNSUPPORTED_DATA, n + 1)];
    DrainAll(l, items, n);
    RunOne(l, DrainSteps(n), Write(true));
    assert items[..n] == Replies(n) && [items[0]] + items[1..n + 1] == items;
  }

  /** A run in which a queued close is executed without its explanation: the client's malformed frame meets a full
      queue, the pump takes one item before the close is queued, and drains the rest before the watcher acts. */
  lemma ClosedUnexplained(n: nat) returns (steps: seq<Step>)
    requires n == QUEUE_SIZE
    ensures var l := Run(Dialled(), steps);
            && l.pump == Exited(Drained) && l.full && l.fates == seq(n, _ => Accepted) + [Rejected]
            && l.wire == Frames(Replies(n)) + [CloseFrame(UNSUPPORTED_DATA)]
            && !EndsExplaining(l.wire, n, UNSUPPORTED_DATA, n + 1)
  {
    AfterFill(n);
    AfterRefusal(n, Malformed);
    AfterUnexplained(n);
    var refused := Refused(n, ErrMalformed);
    AfterDrain(Run(refused, [Take, QueueClose]), n);
    steps := FillSteps(n) + [Receive(Malformed), Offer(true)];
    RunParts(Dialled(), FillSteps(n), [Receive(Malformed), Offer(true)]);
    RunParts(Dialled(), steps, [Take, QueueClose]);
    RunParts(Dialled(), steps + [Take, QueueClose], DrainSteps(n) + [Write(true)]);
    steps := steps + [Take, QueueClose] + (DrainSteps(n) + [Write(true)]);
  }
}
