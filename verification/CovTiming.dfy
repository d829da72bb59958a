/**
 When the COV server sends, over whole runs and in unbounded time. An observer notes when each slot's
 last notification went out and how long its sends have failed; no retransmission comes before the
 APDU timeout is over, no send before its back-off is, and a sweep passes over no slot that is due.
 */
module CovTiming {
  import opened BacnetTypes
  import opened WrappingClock
  import opened Framing
  import opened CovEngine
  import opened CovHistory
  import CovGuarantees
  import CovRegistry

  // ----- what the observer notes

  /** The last delivery from a slot, and the sends that have failed since it or since the grant. */
  datatype Times = Times(sentAt: nat, failedAt: Option<nat>, failures: nat)

  const NO_TIMES := Times(0, None, 0)

  function Note(times: seq<Times>, now: nat, output: Output): (times': seq<Times>)
    ensures |times'| == |times|
  {
    var i := output.index;
    if i >= |times| then times
    else
      match output
      case Granted(_, _) => times[i := NO_TIMES]
      case Sent(_, notice) =>
        times[i := if notice.delivered then Times(now, None, 0)
                   else Times(times[i].sentAt, Some(now), times[i].failures + 1)]
      case _ => times
  }

  function NoteAll(times: seq<Times>, now: nat, outputs: seq<Output>): (times': seq<Times>)
    ensures |times'| == |times|
    decreases |outputs|
  {
    if outputs == [] then times else NoteAll(Note(times, now, outputs[0]), now, outputs[1..])
  }

  /** The factor of the back-off: the failures so far up to the limit, which an 8-bit counter may wrap under. */
  function Factor(failures: nat, maxRetries: uint32): (factor: uint8) {
    if maxRetries > 255 then failures % 256 else if failures < maxRetries then failures else maxRetries
  }

  /** How long the slot keeps quiet after its last failed send: that many timeouts, and less than 2^31 ms. */
  function BackOff(times: Times, config: Config): (delay: uint32)
    ensures 1 <= delay <= 0x7FFF_FFFE
  {
    var step := if config.apduTimeout == 0 then 1000 else config.apduTimeout;
    var factor := Factor(times.failures, config.maxRetries);
    var count := if factor == 0 then 1 else factor;
    TimesPositive(step, count);
    if step * count < 0x7FFF_FFFE then step * count else 0x7FFF_FFFE
  }

  lemma BackOffIsDelay(times: Times, config: Config)
    ensures BackOff(times, config) == RetryDelay(config.apduTimeout, Factor(times.failures, config.maxRetries))
  {}

  /** When it may send again; a deadline that would read as zero on the clock is one tick later. */
  function QuietUntil(times: Times, config: Config): nat
    requires times.failedAt.Some?
  {
    var until := times.failedAt.value + BackOff(times, config);
    if Wrap(until) == 0 then until + 1 else until
  }

  // ----- what the observer may expect

  /** No send before its back-off is over, and no retransmission before the timeout is. */
  predicate Timely(times: Times, now: nat, config: Config, notice: Notice) {
    (times.failedAt.Some? ==> times.failedAt.value + BackOff(times, config) <= now) &&
    (notice.retransmission ==> config.hasClock && times.sentAt + config.apduTimeout <= now)
  }

  predicate AllTimely(times: seq<Times>, now: nat, config: Config, outputs: seq<Output>) {
    forall o <- outputs :: o.Sent? && o.index < |times| ==> Timely(times[o.index], now, config, o.notice)
  }

  // ----- the engine agrees with the observer

  predicate SlotTimed(slot: Slot, times: Times, now: nat, config: Config) {
    Live(slot) ==>
      times.sentAt <= now &&
      (slot.sub.state == AwaitingConfirmedAck ==> slot.sub.lastSent == Wrap(times.sentAt)) &&
      match times.failedAt
      case None => slot.retryAt == 0 && slot.sendRetries == 0 && times.failures == 0
      case Some(failed) =>
        failed <= now && slot.sendRetries == Factor(times.failures, config.maxRetries) &&
        slot.retryAt == RetryDeadline(Wrap(failed), config.apduTimeout, slot.sendRetries)
  }

  ghost predicate Timed(t: Table, times: seq<Times>, now: nat, config: Config) {
    |times| == |t.slots| && forall i :: 0 <= i < |t.slots| ==> SlotTimed(t.slots[i], times[i], now, config)
  }

  lemma TimedLater(t: Table, times: seq<Times>, now: nat, later: nat, config: Config)
    requires Timed(t, times, now, config) && now <= later
    ensures Timed(t, times, later, config)
  {
    hide Factor, RetryDeadline, Wrap;
  }

  /** The stored deadline is over when the observer says so, from 2^31 ms after the failure on possibly later. */
  lemma BackOffIff(slot: Slot, times: Times, now: nat, config: Config)
    requires SlotTimed(slot, times, now, config) && Live(slot)
    ensures times.failedAt.None? ==> !BackingOff(slot, Wrap(now))
    ensures times.failedAt.Some? && now < times.failedAt.value + HALF ==>
              (BackingOff(slot, Wrap(now)) <==> now < QuietUntil(times, config))
  {
    BackOffIsDelay(times, config);
    hide Factor, RetryDelay, RetryDeadline, Wrap, Reached, BackOff;
    if times.failedAt.Some? && now < times.failedAt.value + HALF {
      RetryDeadlineIsAhead(times.failedAt.value, config.apduTimeout, slot.sendRetries, now);
    }
  }

  /** The wait is over by the wrapped clock exactly when it is in real time, within 2^32 ms. */
  lemma OverdueIff(slot: Slot, times: Times, now: nat, config: Config)
    requires SlotTimed(slot, times, now, config) && slot.sub.state == AwaitingConfirmedAck
    ensures AckOverdue(slot.sub, Wrap(now), config) ==> config.hasClock && times.sentAt + config.apduTimeout <= now
    ensures now < times.sentAt + TICKS ==>
              (AckOverdue(slot.sub, Wrap(now), config)
               <==> config.hasClock && times.sentAt + config.apduTimeout <= now)
  {
    WrapOfDifference(now, times.sentAt);
    var waited: nat := now - times.sentAt;
    if waited < TICKS {
      WrapUnique(waited, waited, 0);
    }
  }

  lemma FactorGrows(failures: nat, maxRetries: uint32)
    ensures var factor := Factor(failures, maxRetries);
            Factor(failures + 1, maxRetries) == if factor < maxRetries then Increment(factor) else factor
    ensures Factor(0, maxRetries) == 0
  {}

  /** What a send leaves behind. */
  lemma SendIsTimed(
    slot: Slot, nextInvokeId: uint8, values: seq<LiveProperty>, retransmission: bool, times: Times, now: nat,
    config: Config, delivered: bool)
    requires |values| <= |slot.cells| && SlotTimed(slot, times, now, config) && Live(slot)
    ensures var sent := Send(slot, nextInvokeId, values, retransmission, Wrap(now), config, delivered);
            SlotTimed(sent.slot,
                      if delivered then Times(now, None, 0) else Times(times.sentAt, Some(now), times.failures + 1),
                      now, config)
  {
    hide Factor, RetryDeadline, Wrap, Stored, Remaining, NextInvokeId;
    FactorGrows(times.failures, config.maxRetries);
    FactorGrows(0, config.maxRetries);
  }

  lemma SlotStepTimed(
    slot: Slot, times: Times, nextInvokeId: uint8, read: Reader, now: nat, config: Config, delivered: bool)
    requires |slot.cells| == PROPERTY_COUNT && SlotTimed(slot, times, now, config)
    ensures match SweepSlot(slot, nextInvokeId, read, Wrap(now), config, delivered)
            case Skip(slot', _) => SlotTimed(slot', times, now, config)
            case Transmit(sent) =>
              Timely(times, now, config, sent.notice) &&
              SlotTimed(sent.slot, Note([times], now, Sent(0, sent.notice))[0], now, config)
  {
    hide Factor, RetryDelay, RetryDeadline, BackOff, Wrap, Reached, Collect, Recollect, AnyChanged, Remaining,
         NextInvokeId, Stored, AckOverdue;
    if Live(slot) && !HasExpired(slot.sub, Wrap(now), config) && !BackingOff(slot, Wrap(now)) {
      BackOffIff(slot, times, now, config);
      if slot.sub.state == AwaitingConfirmedAck {
        OverdueIff(slot, times, now, config);
        var retried := slot.(confirmedRetries := Increment(slot.confirmedRetries));
        SendIsTimed(retried, nextInvokeId, Recollect(slot.sub, slot.cells), true, times, now, config, delivered);
      } else if Collect(read, slot.sub).Some? {
        SendIsTimed(slot.(confirmedRetries := 0), nextInvokeId, Collect(read, slot.sub).value, false, times, now,
                    config, delivered);
      }
    }
  }

  // ----- one sweep

  /** Replacing one slot and its times together. */
  lemma TimedAt(t: Table, times: seq<Times>, now: nat, config: Config, i: nat, slot: Slot, next: uint8, entry: Times)
    requires Timed(t, times, now, config) && i < |t.slots| && SlotTimed(slot, entry, now, config)
    ensures Timed(Table(t.slots[i := slot], next), times[i := entry], now, config)
  {
    hide SlotTimed;
  }

  lemma OneNoted(times: seq<Times>, now: nat, output: Output)
    ensures NoteAll(times, now, [output]) == Note(times, now, output)
  {
    assert NoteAll(Note(times, now, output), now, [output][1..]) == Note(times, now, output);
  }

  lemma EventsNoted(times: seq<Times>, now: nat, config: Config, i: nat, event: Option<SlotEvent>, rest: seq<Output>)
    ensures NoteAll(times, now, EventOutput(i, event) + rest) == NoteAll(times, now, rest)
    ensures AllTimely(times, now, config, rest) ==> AllTimely(times, now, config, EventOutput(i, event) + rest)
  {
    hide Timely;
    if event.None? {
      assert EventOutput(i, event) + rest == rest;
    } else {
      assert (EventOutput(i, event) + rest)[1..] == rest;
      assert forall o <- EventOutput(i, event) + rest :: o.Sent? ==> o in rest;
    }
  }

  lemma {:induction false} SweepTimed(
    t: Table, times: seq<Times>, from: nat, read: Reader, now: nat, config: Config, delivered: bool)
    requires Shaped(t) && Timed(t, times, now, config) && from <= |t.slots|
    ensures var r := SweepFrom(t, from, read, Wrap(now), config, delivered);
            Timed(r.table, NoteAll(times, now, r.outputs), now, config) && AllTimely(times, now, config, r.outputs)
    decreases |t.slots| - from
  {
    hide SweepSlot, Timely, SlotTimed, Wrap, EventOutput;
    if from < |t.slots| {
      SlotStepTimed(t.slots[from], times[from], t.nextInvokeId, read, now, config, delivered);
      match SweepSlot(t.slots[from], t.nextInvokeId, read, Wrap(now), config, delivered)
      case Skip(slot, event) =>
        var t' := t.(slots := t.slots[from := slot]);
        TimedAt(t, times, now, config, from, slot, t.nextInvokeId, times[from]);
        assert times[from := times[from]] == times;
        SweepTimed(t', times, from + 1, read, now, config, delivered);
        EventsNoted(times, now, config, from, event,
                    SweepFrom(t', from + 1, read, Wrap(now), config, delivered).outputs);
      case Transmit(sent) =>
        OneNoted(times, now, Sent(from, sent.notice));
        TimedAt(t, times, now, config, from, sent.slot, sent.nextInvokeId,
                Note(times, now, Sent(from, sent.notice))[from]);
    }
  }

  // ----- runs

  lemma DecideTimed(
    t: Table, times: seq<Times>, source: Endpoint, q: Request, read: Reader, now: nat, config: Config)
    requires Timed(t, times, now, config)
    ensures var (t', outputs, reply) := Decide(t, source, q, read, Wrap(now), config);
            Timed(t', NoteAll(times, now, outputs), now, config) && AllTimely(times, now, config, outputs)
  {
    hide Refusal, Find, Wrap, Factor, RetryDeadline, Timely;
    var (t', outputs, reply) := Decide(t, source, q, read, Wrap(now), config);
    FindIsInRange(t.slots, RequestKey(source, q), 0, None);
    if outputs != [] {
      var i := outputs[0].index;
      OneNoted(times, now, outputs[0]);
      TimedAt(t, times, now, config, i, t'.slots[i], t.nextInvokeId, Note(times, now, outputs[0])[i]);
    }
  }

  lemma AnswerTimed(t: Table, times: seq<Times>, source: Endpoint, packet: Bytes, now: nat, config: Config)
    requires Timed(t, times, now, config)
    ensures var r := Answer(t, source, packet, Wrap(now));
            r.Some? ==> Timed(r.value.table, NoteAll(times, now, r.value.outputs), now, config) &&
                        AllTimely(times, now, config, r.value.outputs)
  {
    hide ClassifyCovResponse, Wrap, Factor, RetryDeadline, Timely;
    var i := FindAnswered(t.slots, 0, source, packet);
    CovRegistry.FindAnsweredIsAwaiting(t.slots, 0, source, packet);
    if i < |t.slots| {
      var kind := ClassifyCovResponse(packet, t.slots[i].sub.pendingInvokeId);
      OneNoted(times, now, Settled(i));
      TimedAt(t, times, now, config, i, Answered(t.slots[i], kind, Wrap(now)), t.nextInvokeId, times[i]);
      assert times[i := times[i]] == times;
    }
  }

  lemma StepTimed(t: Table, times: seq<Times>, input: Input, config: Config)
    requires Shaped(t) && Timed(t, times, input.time, config)
    ensures var r := Step(t, input, config);
            Timed(r.table, NoteAll(times, input.time, r.outputs), input.time, config) &&
            AllTimely(times, input.time, config, r.outputs)
  {
    hide Decide, Answer, SweepFrom, Wrap, SlotTimed, Timely;
    match input.event
    case Ask(source, request, _) => DecideTimed(t, times, source, request, input.read, input.time, config);
    case Receive(source, packet) => AnswerTimed(t, times, source, packet, input.time, config);
    case Poll(delivered) => SweepTimed(t, times, 0, input.read, input.time, config, delivered);
  }

  /** What the observer has noted after the first `n` inputs of a run. */
  function RunTimes(capacity: nat, inputs: seq<Input>, n: nat, config: Config): (times: seq<Times>)
    requires n <= |inputs|
    ensures |times| == capacity
    decreases n
  {
    if n == 0 then seq(capacity, i => NO_TIMES)
    else
      NoteAll(RunTimes(capacity, inputs, n - 1, config), inputs[n - 1].time,
              Step(Run(capacity, inputs, n - 1, config).table, inputs[n - 1], config).outputs)
  }

  /**
   In every reachable state of every run the table's clock readings are those of what was sent, and
   the next step sends nothing too early: no retransmission within the APDU timeout of the last
   delivery, and nothing within the back-off of a failed send, however long the clock has run.
   */
  lemma {:induction false} RunIsTimely(capacity: nat, inputs: seq<Input>, n: nat, config: Config)
    requires n < |inputs| && InOrder(inputs)
    ensures var t, times := Run(capacity, inputs, n, config).table, RunTimes(capacity, inputs, n, config);
            Timed(t, times, inputs[n].time, config) &&
            AllTimely(times, inputs[n].time, config, Step(t, inputs[n], config).outputs)
  {
    hide Step, SlotTimed, AllTimely;
    var t, times := Run(capacity, inputs, n, config).table, RunTimes(capacity, inputs, n, config);
    if n == 0 {
      assert forall i :: 0 <= i < capacity ==> SlotTimed(t.slots[i], times[i], inputs[n].time, config) by {
        StartIsTimed(capacity, inputs[n].time, config);
      }
    } else {
      RunIsTimely(capacity, inputs, n - 1, config);
      StepTimed(Run(capacity, inputs, n - 1, config).table, RunTimes(capacity, inputs, n - 1, config), inputs[n - 1],
                config);
      TimedLater(t, times, inputs[n - 1].time, inputs[n].time, config);
    }
    StepTimed(t, times, inputs[n], config);
  }

  lemma StartIsTimed(capacity: nat, now: nat, config: Config)
    ensures Timed(StartTable(capacity), seq(capacity, i => NO_TIMES), now, config)
  {}

  /** Without a clock the time never moves, and a slot whose send has failed stays quiet for good. */
  lemma NoClockNoRetry(capacity: nat, inputs: seq<Input>, n: nat, config: Config, i: nat)
    requires n < |inputs| && (forall k :: 0 <= k < |inputs| ==> inputs[k].time == 0)
    requires i < capacity && RunTimes(capacity, inputs, n, config)[i].failedAt.Some?
    ensures !CovGuarantees.SentFor(Step(Run(capacity, inputs, n, config).table, inputs[n], config).outputs, i)
  {
    hide Step, Run, RunTimes, Timed;
    RunIsTimely(capacity, inputs, n, config);
  }

  // ----- nothing that is due is passed over

  lemma EventsSettle(from: nat, event: Option<SlotEvent>, rest: seq<Output>, i: nat)
    ensures Settled(i) in EventOutput(from, event) + rest
            <==> (from == i && event == Some(GaveUp)) || Settled(i) in rest
  {}

  lemma NotSettledLater(rest: seq<Output>, i: nat, slots: seq<Slot>, read: Reader)
    requires SentTruly(rest, i + 1, slots, read)
    ensures Settled(i) !in rest
  {
    hide Carries;
  }

  lemma {:induction false} ReachedEvents(
    t: Table, from: nat, read: Reader, now: uint32, config: Config, delivered: bool, i: nat)
    requires Shaped(t) && from <= i < |t.slots|
    requires CovGuarantees.Reaches(SweepFrom(t, from, read, now, config, delivered).outputs, i)
    ensures Settled(i) in SweepFrom(t, from, read, now, config, delivered).outputs
            <==> var step := SweepSlot(t.slots[i], t.nextInvokeId, read, now, config, delivered);
                 step.Skip? && step.event == Some(GaveUp)
    decreases i - from
  {
    hide SweepSlot, SentTruly, EventOutput, CovGuarantees.Reaches;
    match SweepSlot(t.slots[from], t.nextInvokeId, read, now, config, delivered)
    case Skip(slot, event) =>
      var t' := t.(slots := t.slots[from := slot]);
      var rest := SweepFrom(t', from + 1, read, now, config, delivered).outputs;
      CovGuarantees.EventsSendNothing(from, event, rest, i);
      EventsSettle(from, event, rest, i);
      if from < i {
        ReachedEvents(t', from + 1, read, now, config, delivered, i);
      } else {
        SweepSendsTruly(t', from + 1, read, now, config, delivered);
        NotSettledLater(rest, i, t'.slots, read);
      }
    case Transmit(sent) => CovGuarantees.OnlySent(from, sent.notice, i);
  }

  /** A slot that waits for its acknowledgement and whose lifetime is not over. */
  predicate StillWaits(slot: Slot, now: uint32, config: Config) {
    slot.sub.state == AwaitingConfirmedAck &&
    !(slot.sub.lifetime != 0 && config.hasClock && Reached(now, slot.sub.expiresAt))
  }

  /** Its wait is over, and so is the back-off of any retransmission that failed. */
  predicate WaitIsOver(times: Times, now: nat, config: Config) {
    config.hasClock && times.sentAt + config.apduTimeout <= now &&
    (times.failedAt.Some? ==> QuietUntil(times, config) <= now)
  }

  /** The wrapped clock tells these times apart. */
  predicate Recent(times: Times, now: nat) {
    now < times.sentAt + TICKS && (times.failedAt.Some? ==> now < times.failedAt.value + HALF)
  }

  lemma WaitingSlotStep(
    slot: Slot, times: Times, nextInvokeId: uint8, read: Reader, now: nat, config: Config, delivered: bool)
    requires |slot.cells| == PROPERTY_COUNT && SlotTimed(slot, times, now, config)
    requires StillWaits(slot, Wrap(now), config) && Recent(times, now)
    ensures var step := SweepSlot(slot, nextInvokeId, read, Wrap(now), config, delivered);
            (step.Transmit? <==> WaitIsOver(times, now, config) && slot.confirmedRetries < config.maxRetries) &&
            (step.Skip? && step.event == Some(GaveUp)
             <==> WaitIsOver(times, now, config) && slot.confirmedRetries >= config.maxRetries)
  {
    hide SlotTimed, Wrap, Reached, Send, Recollect, BackOff, AckOverdue;
    BackOffIff(slot, times, now, config);
    OverdueIff(slot, times, now, config);
  }

  /**
   After any run, a sweep that comes to a slot which waits for an acknowledgement retransmits or gives
   up if and only if the APDU timeout has passed since the last delivery and any back-off is over: it
   retransmits while the count is below the configured number, and gives up when it is not.
   */
  lemma WaitEndsIff(capacity: nat, inputs: seq<Input>, config: Config, i: nat)
    requires inputs != [] && InOrder(inputs) && inputs[|inputs| - 1].event.Poll? && i < capacity
    requires var n := |inputs| - 1;
             var t := Run(capacity, inputs, n, config).table;
             i < |t.slots| && StillWaits(t.slots[i], Wrap(inputs[n].time), config) &&
             Recent(RunTimes(capacity, inputs, n, config)[i], inputs[n].time) &&
             CovGuarantees.Reaches(Step(t, inputs[n], config).outputs, i)
    ensures var n := |inputs| - 1;
            var t, times := Run(capacity, inputs, n, config).table, RunTimes(capacity, inputs, n, config);
            var outputs, over := Step(t, inputs[n], config).outputs, WaitIsOver(times[i], inputs[n].time, config);
            (CovGuarantees.SentFor(outputs, i) <==> over && t.slots[i].confirmedRetries < config.maxRetries) &&
            (Settled(i) in outputs <==> over && t.slots[i].confirmedRetries >= config.maxRetries)
  {
    hide SweepFrom, SweepSlot, Wrap, StillWaits, Recent, WaitIsOver, SlotTimed, Run, RunTimes, CovGuarantees.Reaches,
         CovGuarantees.SentFor, AllTimely;
    var n := |inputs| - 1;
    var t, times := Run(capacity, inputs, n, config).table, RunTimes(capacity, inputs, n, config);
    var input := inputs[n];
    RunIsTimely(capacity, inputs, n, config);
    CovGuarantees.ReachedSlot(t, 0, input.read, Wrap(input.time), config, input.event.delivered, i);
    ReachedEvents(t, 0, input.read, Wrap(input.time), config, input.event.delivered, i);
    WaitingSlotStep(t.slots[i], times[i], t.nextInvokeId, input.read, input.time, config, input.event.delivered);
  }
}
