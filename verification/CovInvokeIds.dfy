/**
 Invoke ids over whole runs. Every confirmed notification takes the next of 255 ids, so two slots can
 wait for the same id only when the ids have gone all the way round between their notifications.
 */
module CovInvokeIds {
  import opened BacnetTypes
  import opened WrappingClock
  import opened ApplicationValue
  import opened Framing
  import opened CovEngine
  import opened CovHistory
  import opened CovExchange

  const ID_COUNT: nat := 255

  /** The id of the `n`-th confirmed notification of a run, counted from 0. */
  function IdOf(n: nat): (id: uint8)
    ensures id != 0
  {
    1 + n % ID_COUNT
  }

  /** How many confirmed notifications were sent, and which was the last to leave each slot. */
  datatype Counter = Counter(sent: nat, last: seq<nat>)

  function Count(c: Counter, output: Output): (c': Counter)
    ensures |c'.last| == |c.last|
  {
    if !output.Sent? || !output.notice.confirmed then c
    else
      Counter(c.sent + 1,
              if output.notice.delivered && output.index < |c.last| then c.last[output.index := c.sent] else c.last)
  }

  function CountAll(c: Counter, outputs: seq<Output>): (c': Counter)
    ensures |c'.last| == |c.last|
    decreases |outputs|
  {
    if outputs == [] then c else CountAll(Count(c, outputs[0]), outputs[1..])
  }

  predicate Waiting(slot: Slot) {
    slot.sub.state == AwaitingConfirmedAck
  }

  /** A waiting slot waits for the id of the notification that last left it. */
  predicate SlotCounted(slot: Slot, last: nat, sent: nat) {
    Waiting(slot) ==> last < sent && slot.sub.pendingInvokeId == IdOf(last)
  }

  ghost predicate Counted(t: Table, c: Counter) {
    |c.last| == |t.slots| && t.nextInvokeId == IdOf(c.sent) &&
    (forall i :: 0 <= i < |t.slots| ==> SlotCounted(t.slots[i], c.last[i], c.sent)) &&
    (forall i, j :: 0 <= i < j < |t.slots| && Waiting(t.slots[i]) && Waiting(t.slots[j]) ==> c.last[i] != c.last[j])
  }

  lemma NextIdIsNext(n: nat)
    ensures NextInvokeId(IdOf(n), true) == IdOf(n + 1) && NextInvokeId(IdOf(n), false) == IdOf(n)
  {}

  /** A slot that waits for nothing new. */
  lemma QuietChange(t: Table, c: Counter, i: nat, slot: Slot)
    requires Counted(t, c) && i < |t.slots|
    requires Waiting(slot) ==>
               Waiting(t.slots[i]) && slot.sub.pendingInvokeId == t.slots[i].sub.pendingInvokeId
    ensures Counted(t.(slots := t.slots[i := slot]), c)
  {}

  lemma NotificationCounted(t: Table, c: Counter, i: nat, sent: SendResult)
    requires Counted(t, c) && i < |t.slots|
    requires sent.nextInvokeId == NextInvokeId(t.nextInvokeId, sent.notice.confirmed)
    requires sent.notice.delivered && sent.notice.confirmed ==> sent.slot.sub.pendingInvokeId == t.nextInvokeId
    requires sent.notice.delivered && !sent.notice.confirmed ==> sent.slot.sub.state == Active
    requires !sent.notice.delivered ==> sent.slot.sub == t.slots[i].sub
    ensures Counted(Table(t.slots[i := sent.slot], sent.nextInvokeId), Count(c, Sent(i, sent.notice)))
  {
    hide IdOf, NextInvokeId;
    NextIdIsNext(c.sent);
  }

  lemma OneCounted(c: Counter, output: Output)
    ensures CountAll(c, [output]) == Count(c, output)
  {
    assert CountAll(Count(c, output), [output][1..]) == Count(c, output);
  }

  lemma EventsCounted(c: Counter, i: nat, event: Option<SlotEvent>, rest: seq<Output>)
    ensures CountAll(c, EventOutput(i, event) + rest) == CountAll(c, rest)
  {
    if event.None? {
      assert EventOutput(i, event) + rest == rest;
    } else {
      assert (EventOutput(i, event) + rest)[1..] == rest;
    }
  }

  lemma SlotStepCounted(
    t: Table, c: Counter, i: nat, read: Reader, now: uint32, config: Config, delivered: bool)
    requires Shaped(t) && Counted(t, c) && i < |t.slots|
    ensures match SweepSlot(t.slots[i], t.nextInvokeId, read, now, config, delivered)
            case Skip(slot, _) => Counted(t.(slots := t.slots[i := slot]), c)
            case Transmit(sent) =>
              Counted(Table(t.slots[i := sent.slot], sent.nextInvokeId), Count(c, Sent(i, sent.notice)))
  {
    hide Counted, Count, Reached, Wrap, AnyChanged, Collect, Recollect, Remaining, RetryDeadline, Stored, NextInvokeId;
    match SweepSlot(t.slots[i], t.nextInvokeId, read, now, config, delivered)
    case Skip(slot, _) => QuietChange(t, c, i, slot);
    case Transmit(sent) => NotificationCounted(t, c, i, sent);
  }

  lemma {:induction false} SweepCounted(
    t: Table, c: Counter, from: nat, read: Reader, now: uint32, config: Config, delivered: bool)
    requires Shaped(t) && Counted(t, c) && from <= |t.slots|
    ensures var r := SweepFrom(t, from, read, now, config, delivered); Counted(r.table, CountAll(c, r.outputs))
    decreases |t.slots| - from
  {
    hide SweepSlot, Counted, Count;
    if from < |t.slots| {
      SlotStepCounted(t, c, from, read, now, config, delivered);
      match SweepSlot(t.slots[from], t.nextInvokeId, read, now, config, delivered)
      case Skip(slot, event) =>
        var t' := t.(slots := t.slots[from := slot]);
        SweepCounted(t', c, from + 1, read, now, config, delivered);
        EventsCounted(c, from, event, SweepFrom(t', from + 1, read, now, config, delivered).outputs);
      case Transmit(sent) => OneCounted(c, Sent(from, sent.notice));
    }
  }

  lemma DecideCounted(
    t: Table, c: Counter, source: Endpoint, q: Request, read: Reader, now: uint32, config: Config)
    requires Counted(t, c)
    ensures var (t', outputs, reply) := Decide(t, source, q, read, now, config); Counted(t', CountAll(c, outputs))
  {
    hide Counted, Refusal, Find, Wrap;
    var (t', outputs, reply) := Decide(t, source, q, read, now, config);
    FindIsInRange(t.slots, RequestKey(source, q), 0, None);
    if outputs != [] {
      OneCounted(c, outputs[0]);
      QuietChange(t, c, outputs[0].index, t'.slots[outputs[0].index]);
    }
  }

  lemma AnswerCounted(t: Table, c: Counter, source: Endpoint, packet: Bytes, now: uint32)
    requires Counted(t, c)
    ensures var r := Answer(t, source, packet, now);
            r.Some? ==> Counted(r.value.table, CountAll(c, r.value.outputs))
  {
    hide Counted, ClassifyCovResponse;
    var i := FindAnswered(t.slots, 0, source, packet);
    if i < |t.slots| {
      OneCounted(c, Settled(i));
      QuietChange(t, c, i, Answered(t.slots[i], ClassifyCovResponse(packet, t.slots[i].sub.pendingInvokeId), now));
    }
  }

  lemma StepCounted(t: Table, c: Counter, input: Input, config: Config)
    requires Shaped(t) && Counted(t, c)
    ensures var r := Step(t, input, config); Counted(r.table, CountAll(c, r.outputs))
  {
    hide Counted, Decide, Answer, SweepFrom, Wrap;
    match input.event
    case Ask(source, request, _) => DecideCounted(t, c, source, request, input.read, Wrap(input.time), config);
    case Receive(source, packet) => AnswerCounted(t, c, source, packet, Wrap(input.time));
    case Poll(delivered) => SweepCounted(t, c, 0, input.read, Wrap(input.time), config, delivered);
  }

  /** The count after the first `n` inputs of a run. */
  function RunCounter(capacity: nat, inputs: seq<Input>, n: nat, config: Config): (c: Counter)
    requires n <= |inputs|
    ensures |c.last| == capacity
    decreases n
  {
    if n == 0 then Counter(0, seq(capacity, i => 0))
    else
      CountAll(RunCounter(capacity, inputs, n - 1, config),
               Step(Run(capacity, inputs, n - 1, config).table, inputs[n - 1], config).outputs)
  }

  /** In every reachable state the waiting slots wait for the ids of different notifications of the run. */
  lemma {:induction false} RunIsCounted(capacity: nat, inputs: seq<Input>, n: nat, config: Config)
    requires n <= |inputs|
    ensures Counted(Run(capacity, inputs, n, config).table, RunCounter(capacity, inputs, n, config))
  {
    hide Step;
    if n > 0 {
      RunIsCounted(capacity, inputs, n - 1, config);
      StepCounted(Run(capacity, inputs, n - 1, config).table, RunCounter(capacity, inputs, n - 1, config),
                  inputs[n - 1], config);
    }
  }

  lemma SameIdIsFar(a: nat, b: nat)
    requires a < b && IdOf(a) == IdOf(b)
    ensures b - a >= ID_COUNT
  {}

  /**
   Two slots wait for the same id only if at least 254 other confirmed notifications were sent between
   theirs, and a slot waits for the id to be used next only if 254 were sent after its own.
   */
  lemma SharedIdsAreRare(capacity: nat, inputs: seq<Input>, n: nat, config: Config, i: nat, j: nat)
    requires n <= |inputs|
    requires var t := Run(capacity, inputs, n, config).table;
             i < |t.slots| && j < |t.slots| && i != j && Waiting(t.slots[i]) && Waiting(t.slots[j])
    ensures var t, c := Run(capacity, inputs, n, config).table, RunCounter(capacity, inputs, n, config);
            i < |c.last| && j < |c.last| &&
            (t.slots[i].sub.pendingInvokeId == t.slots[j].sub.pendingInvokeId ==>
               c.last[i] + ID_COUNT <= c.last[j] || c.last[j] + ID_COUNT <= c.last[i]) &&
            (t.slots[i].sub.pendingInvokeId == t.nextInvokeId ==> c.last[i] + ID_COUNT <= c.sent)
  {
    hide Run, RunCounter, IdOf;
    RunIsCounted(capacity, inputs, n, config);
    var t, c := Run(capacity, inputs, n, config).table, RunCounter(capacity, inputs, n, config);
    assert SlotCounted(t.slots[i], c.last[i], c.sent) && SlotCounted(t.slots[j], c.last[j], c.sent);
    if c.last[i] < c.last[j] && IdOf(c.last[i]) == IdOf(c.last[j]) {
      SameIdIsFar(c.last[i], c.last[j]);
    }
    if c.last[j] < c.last[i] && IdOf(c.last[i]) == IdOf(c.last[j]) {
      SameIdIsFar(c.last[j], c.last[i]);
    }
    if IdOf(c.last[i]) == IdOf(c.sent) {
      SameIdIsFar(c.last[i], c.sent);
    }
  }

  /**
   In any reachable state a confirmed notification, the client's acknowledgement and the answer loop
   settle the slot that sent it if and only if no earlier slot of the same peer waits for a
   notification of this run that had the same id.
   */
  lemma ConfirmedExchangeInRunIff(
    capacity: nat, inputs: seq<Input>, n: nat, config: Config, i: nat, values: seq<LiveProperty>,
    retransmission: bool, sentAt: uint32, answeredAt: uint32, device: ObjectId, pattern: real -> uint32)
    requires n <= |inputs| && 1 <= |values| <= PROPERTY_COUNT && (forall p <- values :: Watchable(p))
    requires var t := Run(capacity, inputs, n, config).table;
             i < |t.slots| && t.slots[i].sub.confirmed && ValidObjectId(t.slots[i].sub.monitored)
    ensures var t, c := Run(capacity, inputs, n, config).table, RunCounter(capacity, inputs, n, config);
            |c.last| == |t.slots| &&
            (ExchangeSettles(t, i, values, retransmission, sentAt, answeredAt, config, device, pattern)
             <==> forall j :: 0 <= j < i && Waiting(t.slots[j]) && t.slots[j].sub.peer == t.slots[i].sub.peer ==>
                    IdOf(c.last[j]) != IdOf(c.sent))
  {
    hide Run, RunCounter, IdOf, Watchable, ExchangeSettles;
    RunIsCounted(capacity, inputs, n, config);
    var t, c := Run(capacity, inputs, n, config).table, RunCounter(capacity, inputs, n, config);
    forall j | 0 <= j < i
      ensures Waits(t.slots[j], t.slots[i].sub.peer, t.nextInvokeId) <==>
              Waiting(t.slots[j]) && t.slots[j].sub.peer == t.slots[i].sub.peer && IdOf(c.last[j]) == IdOf(c.sent)
    {
      assert SlotCounted(t.slots[j], c.last[j], c.sent);
    }
    ConfirmedExchangeIff(t, i, values, retransmission, sentAt, answeredAt, config, device, pattern);
  }
}
