/** What subscribers can rely on over whole runs: quiescence means up to date, and retries are bounded. */
module CovGuarantees {
  import opened BacnetTypes
  import opened WrappingClock
  import opened CovEngine
  import opened CovHistory

  // ----- quiescence

  function Distance(a: real, b: real): real {
    if a < b then b - a else a - b
  }

  /** The value types whose changes COV can see; any other type notifies on every sweep. */
  predicate Comparable(v: LiveValue) {
    v.Boolean? || v.Real? || v.BitString? || v.Unsigned? || v.Enumerated?
  }

  /** Close enough to what was last sent not to need a notification. */
  predicate UpToDate(sub: Subscription, sent: LiveValue, v: LiveValue, index: nat) {
    sent == v ||
    (index == 0 && sub.hasIncrement && sent.Real? && v.Real? && Distance(sent.measure, v.measure) < sub.increment)
  }

  /**
   Against a remembered value, the change test fires exactly when the value is not of a comparable
   type or is no longer up to date. The reference is the value last sent, so slow drift adds up.
   */
  lemma ChangeDetectedIff(sub: Subscription, sent: LiveValue, v: LiveValue, index: nat)
    ensures ValueChanged(sub, Snapshot(sent), v, index) <==> !(Comparable(v) && UpToDate(sub, sent, v, index))
  {}

  lemma {:induction false} AnyChangedIff(sub: Subscription, cells: seq<Cell>, values: seq<LiveProperty>, from: nat)
    requires from <= |values| <= |cells|
    ensures AnyChanged(sub, cells, values, from)
            <==> exists j :: from <= j < |values| && ValueChanged(sub, cells[j], values[j].value, j)
    decreases |values| - from
  {
    hide ValueChanged;
    if from < |values| {
      AnyChangedIff(sub, cells, values, from + 1);
    }
  }

  /** The sweep came as far as slot `i`: it sent nothing for a slot before it. */
  predicate Reaches(outputs: seq<Output>, i: nat) {
    forall o <- outputs :: o.Sent? ==> i <= o.index
  }

  /** A notification was sent for slot `i`. */
  predicate SentFor(outputs: seq<Output>, i: nat) {
    exists o <- outputs :: o.Sent? && o.index == i
  }

  lemma EventsSendNothing(i: nat, event: Option<SlotEvent>, rest: seq<Output>, k: nat)
    ensures Reaches(EventOutput(i, event) + rest, k) == Reaches(rest, k)
    ensures SentFor(EventOutput(i, event) + rest, k) == SentFor(rest, k)
  {
    assert forall o <- EventOutput(i, event) :: !o.Sent?;
    assert forall o <- rest :: o in EventOutput(i, event) + rest;
    assert forall o <- EventOutput(i, event) + rest :: o.Sent? ==> o in rest;
  }

  /** A slot the sweep comes to is sent for exactly when its own step transmits. */
  lemma {:induction false} ReachedSlot(
    t: Table, from: nat, read: Reader, now: uint32, config: Config, delivered: bool, i: nat)
    requires Shaped(t) && from <= i < |t.slots|
    requires Reaches(SweepFrom(t, from, read, now, config, delivered).outputs, i)
    ensures SentFor(SweepFrom(t, from, read, now, config, delivered).outputs, i)
            <==> SweepSlot(t.slots[i], t.nextInvokeId, read, now, config, delivered).Transmit?
    decreases i - from
  {
    hide SweepSlot, Carries, EventOutput, Reaches, SentFor;
    match SweepSlot(t.slots[from], t.nextInvokeId, read, now, config, delivered)
    case Skip(slot, event) =>
      var t' := t.(slots := t.slots[from := slot]);
      var rest := SweepFrom(t', from + 1, read, now, config, delivered).outputs;
      EventsSendNothing(from, event, rest, i);
      if from < i {
        ReachedSlot(t', from + 1, read, now, config, delivered, i);
      } else {
        SweepSendsTruly(t', from + 1, read, now, config, delivered);
        NothingBefore(rest, i, t'.slots, read);
      }
    case Transmit(sent) =>
      OnlySent(from, sent.notice, i);
  }

  lemma NothingBefore(outputs: seq<Output>, i: nat, slots: seq<Slot>, read: Reader)
    requires SentTruly(outputs, i + 1, slots, read)
    ensures !SentFor(outputs, i)
  {
    hide Carries;
  }

  lemma OnlySent(i: nat, notice: Notice, k: nat)
    ensures Reaches([Sent(i, notice)], k) <==> k <= i
    ensures SentFor([Sent(i, notice)], k) <==> k == i
  {
    assert Sent(i, notice) in [Sent(i, notice)];
  }

  /** At most one notification, as the last thing done, and reported as what became of it. */
  predicate Accounts(result: PollResult, outputs: seq<Output>) {
    var last := |outputs| - 1;
    (forall k :: 0 <= k < last ==> !outputs[k].Sent?) &&
    result == if outputs == [] || !outputs[last].Sent? then NoDatagram
              else if outputs[last].notice.delivered then CovNotificationSent
              else SendFailed
  }

  /** What a sweep reports is what it did. */
  lemma {:induction false} SweepReports(
    t: Table, from: nat, read: Reader, now: uint32, config: Config, delivered: bool)
    requires Shaped(t) && from <= |t.slots|
    ensures var r := SweepFrom(t, from, read, now, config, delivered); Accounts(r.result, r.outputs)
    decreases |t.slots| - from
  {
    hide SweepSlot, Accounts, EventOutput;
    if from == |t.slots| {
      OneAccount(NoDatagram, []);
    } else {
      TransmitReportsDelivery(t.slots[from], t.nextInvokeId, read, now, config, delivered);
      match SweepSlot(t.slots[from], t.nextInvokeId, read, now, config, delivered)
      case Skip(slot, event) =>
        var t' := t.(slots := t.slots[from := slot]);
        SweepReports(t', from + 1, read, now, config, delivered);
        var rest := SweepFrom(t', from + 1, read, now, config, delivered);
        EventsAccount(rest.result, from, event, rest.outputs);
      case Transmit(sent) =>
        OneAccount(if delivered then CovNotificationSent else SendFailed, [Sent(from, sent.notice)]);
    }
  }

  lemma OneAccount(result: PollResult, outputs: seq<Output>)
    requires |outputs| <= 1 && (outputs != [] ==> outputs[0].Sent?)
    requires result == if outputs == [] then NoDatagram
                       else if outputs[0].notice.delivered then CovNotificationSent
                       else SendFailed
    ensures Accounts(result, outputs)
  {}

  lemma EventsAccount(result: PollResult, i: nat, event: Option<SlotEvent>, rest: seq<Output>)
    requires Accounts(result, rest)
    ensures Accounts(result, EventOutput(i, event) + rest)
  {
    if event.None? {
      assert EventOutput(i, event) + rest == rest;
    }
  }

  lemma TransmitReportsDelivery(
    slot: Slot, nextInvokeId: uint8, read: Reader, now: uint32, config: Config, delivered: bool)
    requires |slot.cells| == PROPERTY_COUNT
    ensures var step := SweepSlot(slot, nextInvokeId, read, now, config, delivered);
            step.Transmit? ==> step.result.notice.delivered == delivered
  {
    hide AnyChanged, Collect, Recollect, Reached, Cleared, Wrap, Stored, RetryDeadline, Remaining, NextInvokeId;
  }

  /** An active slot whose lifetime is not over and whose back-off is. */
  predicate Due(slot: Slot, now: uint32, config: Config) {
    slot.sub.state == Active &&
    !(slot.sub.lifetime != 0 && config.hasClock && Reached(now, slot.sub.expiresAt)) &&
    !(slot.retryAt != 0 && !Reached(now, slot.retryAt))
  }

  /** What was last sent is, property by property, what the objects read now. */
  ghost predicate AllUpToDate(sub: Subscription, sent: seq<LiveProperty>, read: Reader) {
    var properties := WatchedProperties(sub);
    |sent| == |properties| &&
    forall j :: 0 <= j < |sent| ==>
      sent[j].property == properties[j] && sent[j].arrayIndex == NO_ARRAY_INDEX &&
      (sub.monitored, properties[j]) in read &&
      var v := read[(sub.monitored, properties[j])]; Comparable(v) && UpToDate(sub, sent[j].value, v, j)
  }

  ghost predicate LastSentUpToDate(sub: Subscription, held: History, read: Reader) {
    held.Held? && held.lastSent.Some? && AllUpToDate(sub, held.lastSent.value, read)
  }

  /** A slot that is due transmits exactly when its subscriber was not last sent what is read now. */
  lemma SlotSendsIff(
    slot: Slot, held: History, time: nat, nextInvokeId: uint8, read: Reader, config: Config, delivered: bool)
    requires SlotAgrees(slot, held, time, config) && Due(slot, Wrap(time), config) && Readable(read, slot.sub)
    ensures SweepSlot(slot, nextInvokeId, read, Wrap(time), config, delivered).Transmit?
            <==> !LastSentUpToDate(slot.sub, held, read)
  {
    hide Reached, Wrap, ValueChanged, RetryDeadline, SecondsLeft, UpToDate, Recollect, Collect;
    CollectIff(read, slot.sub);
    var values := Collect(read, slot.sub).value;
    AnyChangedIff(slot.sub, slot.cells, values, 0);
    if held.lastSent.None? {
      InvalidCellNotifies(slot.sub, slot.cells[0], values[0].value);
      assert AnyChanged(slot.sub, slot.cells, values, 0);
    } else {
      UpToDateIff(slot.sub, slot.cells, held.lastSent.value, values, read);
    }
  }

  /** Against the cells of what was last sent, nothing has changed exactly when all of it is up to date. */
  lemma UpToDateIff(
    sub: Subscription, cells: seq<Cell>, sent: seq<LiveProperty>, values: seq<LiveProperty>, read: Reader)
    requires Remembers(cells, sub, sent) && Carries(values, read, sub) && Readable(read, sub)
    ensures |values| == |sent| <= |cells|
    ensures AllUpToDate(sub, sent, read)
            <==> forall j :: 0 <= j < |values| ==> !ValueChanged(sub, cells[j], values[j].value, j)
  {
    hide ValueChanged, UpToDate, Comparable, Snapshot;
    forall j | 0 <= j < |values|
      ensures !ValueChanged(sub, cells[j], values[j].value, j)
              <==> Comparable(values[j].value) && UpToDate(sub, sent[j].value, values[j].value, j)
    {
      ChangeDetectedIff(sub, sent[j].value, values[j].value, j);
    }
  }

  lemma InvalidCellNotifies(sub: Subscription, cell: Cell, v: LiveValue)
    requires !cell.valid
    ensures ValueChanged(sub, cell, v, 0)
  {}

  /** A slot that is due and whose properties can all be read. */
  predicate Watched(t: Table, input: Input, config: Config, i: nat) {
    i < |t.slots| && Due(t.slots[i], Wrap(input.time), config) && Readable(input.read, t.slots[i].sub)
  }

  /** The subscriber was last sent what the properties read now. */
  ghost predicate SentUpToDate(w: World, read: Reader, i: nat) {
    i < |w.table.slots| && i < |w.history| && LastSentUpToDate(w.table.slots[i].sub, w.history[i], read)
  }

  /**
   After any run, a sweep that comes to a slot which is due and readable sends for it if and only if
   its subscriber was not last sent exactly what the properties read now, a first value under an
   increment being allowed to differ by less than the increment.
   */
  lemma SweepSendsIff(capacity: nat, inputs: seq<Input>, config: Config, i: nat)
    requires inputs != [] && InOrder(inputs) && inputs[|inputs| - 1].event.Poll?
    requires var n := |inputs| - 1;
             var t := Run(capacity, inputs, n, config).table;
             Reaches(Step(t, inputs[n], config).outputs, i) && Watched(t, inputs[n], config, i)
    ensures var n := |inputs| - 1;
            var w := Run(capacity, inputs, n, config);
            SentFor(Step(w.table, inputs[n], config).outputs, i) <==> !SentUpToDate(w, inputs[n].read, i)
  {
    hide SweepFrom, SweepSlot, Wrap, SlotAgrees, Due, Run, LastSentUpToDate, Readable, Reaches, SentFor;
    var n := |inputs| - 1;
    var w := Run(capacity, inputs, n, config);
    var input := inputs[n];
    RunIsGood(capacity, inputs, n, config);
    AgreesLater(w.table, w.history, if n == 0 then 0 else inputs[n - 1].time, input.time, config);
    ReachedSlot(w.table, 0, input.read, Wrap(input.time), config, input.event.delivered, i);
    SlotSendsIff(w.table.slots[i], w.history[i], input.time, w.table.nextInvokeId, input.read, config,
                 input.event.delivered);
  }

  /** In particular, a sweep that sends nothing leaves no slot behind whose subscriber is not up to date. */
  lemma QuietSweepMeansUpToDate(capacity: nat, inputs: seq<Input>, config: Config, i: nat)
    requires inputs != [] && InOrder(inputs) && inputs[|inputs| - 1].event.Poll?
    requires var n := |inputs| - 1;
             var t := Run(capacity, inputs, n, config).table;
             Step(t, inputs[n], config).result == NoDatagram && Watched(t, inputs[n], config, i)
    ensures var n := |inputs| - 1; SentUpToDate(Run(capacity, inputs, n, config), inputs[n].read, i)
  {
    hide SweepFrom, SweepSlot, Wrap, SlotAgrees, Due, Run, LastSentUpToDate, Readable;
    var n := |inputs| - 1;
    var w := Run(capacity, inputs, n, config);
    var input := inputs[n];
    SweepReports(w.table, 0, input.read, Wrap(input.time), config, input.event.delivered);
    SweepSendsIff(capacity, inputs, config, i);
  }

  // ----- retries

  predicate AllRetriesFit(h: seq<History>, time: nat, config: Config, outputs: seq<Output>)
    decreases |outputs|
  {
    outputs == [] ||
    ((outputs[0].Sent? && outputs[0].index < |h| && h[outputs[0].index].Held? ==>
        RetryFits(h[outputs[0].index], config, outputs[0].notice)) &&
     AllRetriesFit(Observe(h, time, outputs[0]), time, config, outputs[1..]))
  }

  /** In this run no wait for an acknowledgement ever holds more than the configured retransmissions. */
  ghost predicate RetriesFit(capacity: nat, inputs: seq<Input>, config: Config) {
    forall n :: 0 <= n < |inputs| ==>
      AllRetriesFit(Run(capacity, inputs, n, config).history, inputs[n].time, config,
                    Step(Run(capacity, inputs, n, config).table, inputs[n], config).outputs)
  }

  /** The configured number bounds the retransmissions of every wait in every run. */
  ghost predicate RetriesBounded(maxRetries: uint32) {
    forall capacity: nat, inputs: seq<Input>, hasClock: bool, apduTimeout: uint32 :: InOrder(inputs) ==>
      RetriesFit(capacity, inputs, Config(hasClock, apduTimeout, maxRetries))
  }

  lemma {:induction false} FitImpliesRetriesFit(
    h: seq<History>, time: nat, read: Reader, config: Config, outputs: seq<Output>)
    requires AllFit(h, time, read, config, outputs) && config.maxRetries <= 255
    ensures AllRetriesFit(h, time, config, outputs)
    decreases |outputs|
  {
    hide Observe, NoticeFits;
    if outputs != [] {
      FitImpliesRetriesFit(Observe(h, time, outputs[0]), time, read, config, outputs[1..]);
    }
  }

  /** An object, a request and a reading with which the server never stops retransmitting. */
  const STORM_OBJECT := ObjectId(5, 1)
  const STORM_PEER := Endpoint(10, 0, 0, 1, 47808)
  const STORM_REQUEST := Request(1, STORM_OBJECT, true, PRESENT_VALUE, NO_ARRAY_INDEX, true, 1, false, 0.0)
  const STORM_READ: Reader := map[(STORM_OBJECT, PRESENT_VALUE) := Boolean(true)]

  function Storm(n: nat): seq<Input> {
    seq(n, i => Input(0, STORM_READ, if i == 0 then Ask(STORM_PEER, STORM_REQUEST, true) else Poll(true)))
  }

  predicate Waiting(slot: Slot) {
    slot.sub.state == AwaitingConfirmedAck && slot.sub.confirmed && slot.sub.lifetime == 1 &&
    slot.sub.expiresAt == 1000 && slot.sub.lastSent == 0 && slot.retryAt == 0
  }

  /** One slot that waits for an acknowledgement that never comes, at a standing clock. */
  ghost predicate Storming(w: World, retransmissions: nat) {
    |w.table.slots| == 1 && |w.history| == 1 && Waiting(w.table.slots[0]) &&
    w.history[0].Held? && w.history[0].episode.Some? &&
    w.history[0].episode.value.retransmissions == retransmissions
  }

  lemma StormBegins(config: Config)
    requires config.hasClock && config.apduTimeout == 0
    ensures Storming(Run(1, Storm(2), 2, config), 0)
  {
    var start := Start(1);
    var slots := start.table.slots;
    var key := RequestKey(STORM_PEER, STORM_REQUEST);
    assert Find(slots, key, 0, None) == Found(None, Some(0)) by {
      assert Find(slots, key, 1, Some(0)) == Found(None, Some(0));
    }
    var terms := GrantedTerms(STORM_PEER, STORM_REQUEST, 0, config);
    assert terms.expiresAt == 1000;
    assert Refusal(STORM_REQUEST, STORM_READ) == None;
    var first := After(start, Storm(2)[0], config);
    var granted := GrantSlot(slots[0], terms);
    assert first.table.slots == [granted];
    OneOutput(start.history, 0, STORM_READ, config, Granted(0, terms));
    assert first.history == [Held(0, terms, None, None)];
    assert Run(1, Storm(2), 1, config) == first;
    StormFirstNotice(first, granted, terms, config);
  }

  lemma StormFirstNotice(w: World, slot: Slot, terms: Subscription, config: Config)
    requires Shaped(w.table) && w.table.slots == [slot] && w.history == [Held(0, terms, None, None)]
    requires terms == GrantedTerms(STORM_PEER, STORM_REQUEST, 0, config) && terms.expiresAt == 1000
    requires |slot.cells| == PROPERTY_COUNT && !slot.cells[0].valid
    requires slot.sub == terms && slot.retryAt == 0 && config.hasClock
    ensures Storming(After(w, Input(0, STORM_READ, Poll(true)), config), 0)
  {
    var values := Collect(STORM_READ, terms).value;
    assert AnyChanged(terms, slot.cells, values, 0);
    var sent := Send(slot.(confirmedRetries := 0), w.table.nextInvokeId, values, false, 0, config, true);
    assert SweepSlot(slot, w.table.nextInvokeId, STORM_READ, 0, config, true) == Transmit(sent);
    OneOutput(w.history, 0, STORM_READ, config, Sent(0, sent.notice));
  }

  /** With a limit above 255 the 8-bit counter never reaches it. */
  lemma StormStep(w: World, config: Config, retransmissions: nat)
    requires Shaped(w.table) && Storming(w, retransmissions)
    requires config.hasClock && config.apduTimeout == 0 && config.maxRetries > 255
    ensures Storming(After(w, Input(0, STORM_READ, Poll(true)), config), retransmissions + 1)
    ensures var outputs := Step(w.table, Input(0, STORM_READ, Poll(true)), config).outputs;
            |outputs| == 1 && outputs[0].Sent? && outputs[0].index == 0 && outputs[0].notice.retransmission
  {
    var slot := w.table.slots[0];
    assert !Reached(0, 1000);
    var values := Recollect(slot.sub, slot.cells);
    var sent := Send(slot.(confirmedRetries := Increment(slot.confirmedRetries)), w.table.nextInvokeId, values, true,
                     0, config, true);
    assert SweepSlot(slot, w.table.nextInvokeId, STORM_READ, 0, config, true) == Transmit(sent);
    OneOutput(w.history, 0, STORM_READ, config, Sent(0, sent.notice));
  }

  lemma {:induction false} RunOfPrefix(capacity: nat, a: seq<Input>, b: seq<Input>, n: nat, config: Config)
    requires n <= |a| && n <= |b| && a[..n] == b[..n]
    ensures Run(capacity, a, n, config) == Run(capacity, b, n, config)
  {
    hide After;
    if n > 0 {
      assert a[n - 1] == a[..n][n - 1] == b[n - 1];
      assert a[..n - 1] == a[..n][..n - 1] == b[..n - 1];
      RunOfPrefix(capacity, a, b, n - 1, config);
    }
  }

  lemma {:induction false} StormGoesOn(config: Config, length: nat, n: nat)
    requires config.hasClock && config.apduTimeout == 0 && config.maxRetries > 255
    requires 2 <= n <= length
    ensures Storming(Run(1, Storm(length), n, config), n - 2)
  {
    hide After, Storming;
    if n == 2 {
      assert Storm(length)[..2] == Storm(2)[..2];
      RunOfPrefix(1, Storm(length), Storm(2), 2, config);
      StormBegins(config);
    } else {
      StormGoesOn(config, length, n - 1);
      StormStep(Run(1, Storm(length), n - 1, config), config, n - 3);
    }
  }

  /**
   `numberOfApduRetries` bounds the retransmissions of every wait in every run if and only if it is
   at most 255: the counter has eight bits and goes back to zero before it meets a larger limit.
   */
  lemma RetriesBoundedIff(maxRetries: uint32)
    ensures RetriesBounded(maxRetries) <==> maxRetries <= 255
  {
    hide Run, Step, AllFit, AllRetriesFit;
    if maxRetries <= 255 {
      forall capacity: nat, inputs: seq<Input>, hasClock: bool, apduTimeout: uint32 | InOrder(inputs)
        ensures RetriesFit(capacity, inputs, Config(hasClock, apduTimeout, maxRetries))
      {
        RetriesFitWithin(capacity, inputs, Config(hasClock, apduTimeout, maxRetries));
      }
    } else {
      StormBreaksBound(Config(true, 0, maxRetries));
    }
  }

  lemma RetriesFitWithin(capacity: nat, inputs: seq<Input>, config: Config)
    requires InOrder(inputs) && config.maxRetries <= 255
    ensures RetriesFit(capacity, inputs, config)
  {
    hide Step, AllFit, AllRetriesFit;
    forall n | 0 <= n < |inputs|
      ensures AllRetriesFit(Run(capacity, inputs, n, config).history, inputs[n].time, config,
                            Step(Run(capacity, inputs, n, config).table, inputs[n], config).outputs)
    {
      RunIsGood(capacity, inputs, n + 1, config);
      var w := Run(capacity, inputs, n, config);
      FitImpliesRetriesFit(w.history, inputs[n].time, inputs[n].read, config, Step(w.table, inputs[n], config).outputs);
    }
  }

  lemma StormBreaksBound(config: Config)
    requires config.hasClock && config.apduTimeout == 0 && config.maxRetries > 255
    ensures InOrder(Storm(config.maxRetries + 3)) && !RetriesFit(1, Storm(config.maxRetries + 3), config)
  {
    hide Run, Step;
    var n := config.maxRetries + 2;
    var inputs := Storm(n + 1);
    StormGoesOn(config, n + 1, n);
    var w := Run(1, inputs, n, config);
    StormStep(w, config, n - 2);
    assert inputs[n] == Input(0, STORM_READ, Poll(true));
    assert !AllRetriesFit(w.history, 0, config, Step(w.table, inputs[n], config).outputs);
  }
}
