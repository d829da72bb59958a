/**
 Whole runs of the COV engine. An observer sees only the outputs - grants, cancellations, drops,
 settlements and notifications - and keeps a history of each slot from them. Every run of the
 engine yields outputs that fit that history: the remaining times are exact, a wait for an
 acknowledgement holds a bounded number of retransmissions, and each carries the opening values.
 */
module CovHistory {
  import opened BacnetTypes
  import opened WrappingClock
  import opened Framing
  import opened CovEngine
  import CovRegistry

  // ----- what an observer knows

  /** A confirmed notification that waits for its acknowledgement. */
  datatype Episode = Episode(opening: seq<LiveProperty>, retransmissions: nat)

  datatype History =
    | Free
    | Held(grantedAt: nat, terms: Subscription, lastSent: Option<seq<LiveProperty>>, episode: Option<Episode>)

  function Observe(h: seq<History>, time: nat, output: Output): (h': seq<History>)
    ensures |h'| == |h|
  {
    var i := output.index;
    if i >= |h| then h
    else
      match output
      case Granted(_, terms) => h[i := Held(time, terms, None, None)]
      case Cancelled(_) => h[i := Free]
      case Dropped(_) => h[i := Free]
      case Settled(_) => if h[i].Held? then h[i := h[i].(episode := None)] else h
      case Sent(_, notice) => if h[i].Held? then h[i := AfterNotice(h[i], notice)] else h
  }

  function AfterNotice(held: History, notice: Notice): (h: History)
    requires held.Held?
    ensures h.Held?
  {
    held.(lastSent := if notice.delivered then Some(notice.values) else held.lastSent,
          episode :=
            if notice.retransmission then
              match held.episode
              case None => None
              case Some(e) => Some(e.(retransmissions := e.retransmissions + 1))
            else if notice.delivered && notice.confirmed then Some(Episode(notice.values, 0))
            else held.episode)
  }

  function ObserveAll(h: seq<History>, time: nat, outputs: seq<Output>): (h': seq<History>)
    ensures |h'| == |h|
    decreases |outputs|
  {
    if outputs == [] then h else ObserveAll(Observe(h, time, outputs[0]), time, outputs[1..])
  }

  // ----- what the observer may expect

  /** The values a retransmission makes of the opening ones. */
  function Degraded(values: seq<LiveProperty>): (r: seq<LiveProperty>)
    ensures |r| == |values|
    ensures forall j :: 0 <= j < |values| ==>
              r[j] == values[j].(value := Restored(Snapshot(values[j].value)))
  {
    seq(|values|, j requires 0 <= j < |values| => values[j].(value := Restored(Snapshot(values[j].value))))
  }

  /** Values the snapshot keeps whole: all but non-zero integers with sign, texts, object ids and lists. */
  predicate Retained(v: LiveValue) {
    match v
    case Signed(n) => n == 0
    case CharacterString(text) => text == []
    case ObjectIdentifier(objectId) => objectId == ObjectId(0, 0)
    case ObjectIdentifierList(text) => text == []
    case PropertyIdentifierList(text) => text == []
    case Unsupported(tag) => tag == 0
    case _ => true
  }

  /** A retransmission repeats a value exactly when the snapshot keeps it. */
  lemma RetransmissionKeepsValueIff(v: LiveValue)
    ensures Restored(Snapshot(v)) == v <==> Retained(v)
  {}

  lemma RetransmissionRepeatsIff(values: seq<LiveProperty>)
    ensures Degraded(values) == values <==> forall j :: 0 <= j < |values| ==> Retained(values[j].value)
  {
    forall j | 0 <= j < |values|
      ensures Degraded(values)[j] == values[j] <==> Retained(values[j].value)
    {
      RetransmissionKeepsValueIff(values[j].value);
    }
    if Degraded(values) != values {
      var j :| 0 <= j < |values| && Degraded(values)[j] != values[j];
    }
  }

  /** The deadline of a grant in unbounded time. */
  function Deadline(held: History): nat
    requires held.Held?
  {
    held.grantedAt + 1000 * held.terms.lifetime
  }

  /** Lifetimes the wrapped comparison judges exactly, seen less than 2^31 ms past their end. */
  predicate ClockIsExact(held: History, time: nat)
    requires held.Held?
  {
    held.terms.lifetime <= MAX_EXACT_LIFETIME && time < Deadline(held) + HALF
  }

  /**
   A notification that fits the history of its slot. A fresh one carries exactly the properties the
   contract is about with what the object reads now; a retransmission repeats the opening values.
   */
  predicate NoticeFits(held: History, time: nat, read: Reader, config: Config, notice: Notice)
    requires held.Held?
  {
    && notice.confirmed == held.terms.confirmed
    && (notice.confirmed ==> notice.invokeId != 0)
    && (config.hasClock && ClockIsExact(held, time) ==>
          time < Deadline(held) && notice.secondsLeft == CeilSeconds(Deadline(held) - time) &&
          1 <= notice.secondsLeft <= held.terms.lifetime)
    && (!config.hasClock ==> notice.secondsLeft == 0)
    && (notice.retransmission ==> held.episode.Some? && notice.values == Degraded(held.episode.value.opening))
    && (!notice.retransmission ==> held.episode.None? && Carries(notice.values, read, held.terms))
  }

  /** Within one wait there are never more retransmissions than configured. */
  predicate RetryFits(held: History, config: Config, notice: Notice)
    requires held.Held?
  {
    notice.retransmission && held.episode.Some? ==> held.episode.value.retransmissions < config.maxRetries
  }

  predicate Fits(h: seq<History>, time: nat, read: Reader, config: Config, output: Output) {
    output.index < |h| &&
    var held := h[output.index];
    match output
    case Granted(_, terms) => terms.lifetime != 0 && terms.state == Active
    case Cancelled(_) => held.Held?
    case Dropped(_) =>
      held.Held? && config.hasClock && (ClockIsExact(held, time) ==> Deadline(held) <= time)
    case Settled(_) => held.Held? && held.episode.Some?
    case Sent(_, notice) => held.Held? && NoticeFits(held, time, read, config, notice) &&
                            (config.maxRetries <= 255 ==> RetryFits(held, config, notice))
  }

  predicate AllFit(h: seq<History>, time: nat, read: Reader, config: Config, outputs: seq<Output>)
    decreases |outputs|
  {
    outputs == [] ||
    (Fits(h, time, read, config, outputs[0]) && AllFit(Observe(h, time, outputs[0]), time, read, config, outputs[1..]))
  }

  // ----- the engine agrees with the observer

  ghost predicate Remembers(cells: seq<Cell>, sub: Subscription, sent: seq<LiveProperty>) {
    |sent| <= |cells| && (forall j :: 0 <= j < |sent| ==> cells[j] == Snapshot(sent[j].value)) &&
    if sub.isProperty then
      |sent| == 1 && sent[0].property == sub.property && sent[0].arrayIndex == sub.arrayIndex
    else
      |sent| == 2 && sent[0].property == PRESENT_VALUE && sent[1].property == STATUS_FLAGS &&
      sent[0].arrayIndex == NO_ARRAY_INDEX && sent[1].arrayIndex == NO_ARRAY_INDEX
  }

  /** The terms of a grant, apart from the fields that change while it is held. */
  predicate SameTerms(sub: Subscription, terms: Subscription) {
    sub == terms.(state := sub.state, lastSent := sub.lastSent, lastAck := sub.lastAck,
                  pendingInvokeId := sub.pendingInvokeId)
  }

  ghost predicate EpisodeAgrees(slot: Slot, episode: Option<Episode>, config: Config) {
    match episode
    case None => slot.sub.state == Active && slot.confirmedRetries == 0
    case Some(e) =>
      slot.sub.state == AwaitingConfirmedAck && slot.sub.confirmed && slot.sub.pendingInvokeId != 0 &&
      |slot.cells| == PROPERTY_COUNT && Recollect(slot.sub, slot.cells) == Degraded(e.opening) &&
      (config.maxRetries <= 255 ==>
         e.retransmissions <= config.maxRetries && slot.confirmedRetries == e.retransmissions)
  }

  ghost predicate SlotAgrees(slot: Slot, h: History, time: nat, config: Config) {
    && |slot.cells| == PROPERTY_COUNT
    && match h
       case Free => !Live(slot)
       case Held(grantedAt, terms, lastSent, episode) =>
         && Live(slot) && SameTerms(slot.sub, terms) && terms.lifetime != 0 && grantedAt <= time
         && (config.hasClock ==> terms.expiresAt == Wrap(grantedAt + 1000 * terms.lifetime))
         && (match lastSent
             case None => forall j :: 0 <= j < PROPERTY_COUNT ==> !slot.cells[j].valid
             case Some(sent) => Remembers(slot.cells, slot.sub, sent))
         && (episode.Some? ==> lastSent.Some?)
         && EpisodeAgrees(slot, episode, config)
  }

  ghost predicate Agrees(t: Table, h: seq<History>, time: nat, config: Config) {
    && |h| == |t.slots| && t.nextInvokeId != 0
    && forall i :: 0 <= i < |t.slots| ==> SlotAgrees(t.slots[i], h[i], time, config)
  }

  lemma AgreesLater(t: Table, h: seq<History>, time: nat, later: nat, config: Config)
    requires Agrees(t, h, time, config) && time <= later
    ensures Agrees(t, h, later, config)
  {
    forall i | 0 <= i < |t.slots|
      ensures SlotAgrees(t.slots[i], h[i], later, config)
    {
      assert SlotAgrees(t.slots[i], h[i], time, config);
    }
  }

  /** Replacing one slot and its history together. */
  lemma AgreesAt(t: Table, h: seq<History>, time: nat, config: Config, i: nat, slot: Slot, next: uint8, held: History)
    requires Agrees(t, h, time, config) && i < |t.slots| && next != 0
    requires SlotAgrees(slot, held, time, config)
    ensures Agrees(Table(t.slots[i := slot], next), h[i := held], time, config)
  {
    hide SlotAgrees;
  }

  lemma OneOutput(h: seq<History>, time: nat, read: Reader, config: Config, output: Output)
    ensures ObserveAll(h, time, [output]) == Observe(h, time, output)
    ensures AllFit(h, time, read, config, [output]) == Fits(h, time, read, config, output)
  {
    assert [output][1..] == [];
    assert ObserveAll(Observe(h, time, output), time, [output][1..]) == Observe(h, time, output);
  }

  lemma FirstOutput(
    h: seq<History>, time: nat, read: Reader, config: Config, output: Output, rest: seq<Output>)
    ensures ObserveAll(h, time, [output] + rest) == ObserveAll(Observe(h, time, output), time, rest)
    ensures AllFit(h, time, read, config, [output] + rest)
            == (Fits(h, time, read, config, output) && AllFit(Observe(h, time, output), time, read, config, rest))
  {
    assert ([output] + rest)[1..] == rest;
  }

  /** A live slot is held, and a cleared or granted one is what the observer takes it for. */
  lemma GrantAgrees(slot: Slot, held: History, source: Endpoint, q: Request, time: nat, config: Config)
    requires SlotAgrees(slot, held, time, config)
    ensures Live(slot) ==> held.Held?
    ensures SlotAgrees(Cleared(slot), Free, time, config)
    ensures var terms := GrantedTerms(source, q, Wrap(time), config);
            q.lifetime != 0 ==> SlotAgrees(GrantSlot(slot, terms), Held(time, terms, None, None), time, config)
  {
    hide Wrap, Recollect, Snapshot;
    GrantDeadline(time, q.lifetime);
  }

  /** Grants and cancellations. */
  lemma DecideAgrees(t: Table, h: seq<History>, time: nat, config: Config, source: Endpoint, q: Request, read: Reader)
    requires Agrees(t, h, time, config)
    ensures var (t', outputs, reply) := Decide(t, source, q, read, Wrap(time), config);
            Agrees(t', ObserveAll(h, time, outputs), time, config) && AllFit(h, time, read, config, outputs)
  {
    hide Refusal, Find, Wrap, SlotAgrees, Cleared, GrantSlot;
    var (t', outputs, reply) := Decide(t, source, q, read, Wrap(time), config);
    FindIsInRange(t.slots, RequestKey(source, q), 0, None);
    if outputs != [] {
      var i := outputs[0].index;
      OneOutput(h, time, read, config, outputs[0]);
      GrantAgrees(t.slots[i], h[i], source, q, time, config);
      if q.lifetime == 0 {
        AgreesAt(t, h, time, config, i, Cleared(t.slots[i]), t.nextInvokeId, Free);
      } else {
        var terms := GrantedTerms(source, q, Wrap(time), config);
        AgreesAt(t, h, time, config, i, GrantSlot(t.slots[i], terms), t.nextInvokeId, Held(time, terms, None, None));
      }
    }
  }

  lemma GrantDeadline(time: nat, lifetime: uint32)
    ensures Wrap(Wrap(time) + Wrap(lifetime * 1000)) == Wrap(time + 1000 * lifetime)
  {
    WrapOfSum(time, Wrap(lifetime * 1000));
    WrapOfSum(lifetime * 1000, time);
  }

  /** Acknowledgements, errors, rejects and aborts. */
  lemma AnswerAgrees(
    t: Table, h: seq<History>, time: nat, read: Reader, config: Config, source: Endpoint, packet: Bytes)
    requires Agrees(t, h, time, config)
    ensures var r := Answer(t, source, packet, Wrap(time));
            r.Some? ==> Agrees(r.value.table, ObserveAll(h, time, r.value.outputs), time, config) &&
                        AllFit(h, time, read, config, r.value.outputs)
  {
    hide ClassifyCovResponse, FindAnswered, Wrap;
    var i := FindAnswered(t.slots, 0, source, packet);
    CovRegistry.FindAnsweredIsAwaiting(t.slots, 0, source, packet);
    if i < |t.slots| {
      var kind := ClassifyCovResponse(packet, t.slots[i].sub.pendingInvokeId);
      OneOutput(h, time, read, config, Settled(i));
      assert SlotAgrees(t.slots[i], h[i], time, config);
      SettledAgrees(t.slots[i], h[i], time, config, Answered(t.slots[i], kind, Wrap(time)));
      AgreesAt(t, h, time, config, i, Answered(t.slots[i], kind, Wrap(time)), t.nextInvokeId, h[i].(episode := None));
    }
  }

  /** A wait that ends, whatever ended it. */
  lemma SettledAgrees(slot: Slot, held: History, time: nat, config: Config, slot': Slot)
    requires SlotAgrees(slot, held, time, config) && slot.sub.state == AwaitingConfirmedAck
    requires slot' == slot.(sub := slot'.sub, confirmedRetries := 0)
    requires slot'.sub == slot.sub.(state := Active, lastAck := slot'.sub.lastAck)
    ensures held.Held? && held.episode.Some?
    ensures SlotAgrees(slot', held.(episode := None), time, config)
  {
    hide Snapshot, Recollect;
  }

  /** What a sweep does to one slot fits its history. */
  lemma SweepSlotAgrees(
    slot: Slot, held: History, i: nat, h: seq<History>, nextInvokeId: uint8, read: Reader, time: nat,
    config: Config, delivered: bool)
    requires SlotAgrees(slot, held, time, config) && nextInvokeId != 0 && i < |h| && h[i] == held
    ensures match SweepSlot(slot, nextInvokeId, read, Wrap(time), config, delivered)
            case Skip(slot', None) => SlotAgrees(slot', held, time, config)
            case Skip(slot', Some(event)) =>
              (var output := if event == Expired then Dropped(i) else Settled(i);
               Fits(h, time, read, config, output) &&
               SlotAgrees(slot', Observe(h, time, output)[i], time, config))
            case Transmit(sent) =>
              Fits(h, time, read, config, Sent(i, sent.notice)) && sent.nextInvokeId != 0 && held.Held? &&
              SlotAgrees(sent.slot, AfterNotice(held, sent.notice), time, config)
  {
    hide Reached, Wrap, AnyChanged, Collect, Recollect, Send, RetryDeadline, SecondsLeft, Snapshot, AfterNotice;
    var now := Wrap(time);
    var sub := slot.sub;
    if held.Held? {
      ExpiryFits(slot, held, time, config);
      if !HasExpired(sub, now, config) && !BackingOff(slot, now) {
        if sub.state == AwaitingConfirmedAck {
          if AckOverdue(sub, now, config) {
            if slot.confirmedRetries >= config.maxRetries {
              SettledAgrees(slot, held, time, config, slot.(sub := sub.(state := Active), confirmedRetries := 0));
            } else {
              RetransmissionAgrees(slot, held, nextInvokeId, read, time, config, delivered);
            }
          }
        } else if Collect(read, sub).Some? {
          FreshNoticeAgrees(slot, held, nextInvokeId, read, time, config, delivered);
        }
      }
    }
  }

  /** The expiry test and the remaining time of a held slot, under the clock assumption. */
  lemma ExpiryFits(slot: Slot, held: History, time: nat, config: Config)
    requires SlotAgrees(slot, held, time, config) && held.Held?
    ensures config.hasClock && ClockIsExact(held, time) ==>
              (HasExpired(slot.sub, Wrap(time), config) <==> Deadline(held) <= time)
    ensures HasExpired(slot.sub, Wrap(time), config) ==> config.hasClock
    ensures config.hasClock && ClockIsExact(held, time) && time < Deadline(held) ==>
              Remaining(slot.sub, Wrap(time), config) == CeilSeconds(Deadline(held) - time) &&
              1 <= CeilSeconds(Deadline(held) - time) <= held.terms.lifetime
    ensures !config.hasClock ==> Remaining(slot.sub, Wrap(time), config) == 0
  {
    hide Reached, Wrap, SecondsLeft, Snapshot, Recollect;
    if config.hasClock && ClockIsExact(held, time) {
      LifetimeJudgedIff(held.grantedAt, held.terms.lifetime);
      if time < Deadline(held) {
        SecondsLeftIsCeiling(held.grantedAt, held.terms.lifetime, time);
      }
    }
  }

  /** A retransmission repeats the opening values and stays within the configured number. */
  lemma RetransmissionAgrees(
    slot: Slot, held: History, nextInvokeId: uint8, read: Reader, time: nat, config: Config, delivered: bool)
    requires SlotAgrees(slot, held, time, config) && held.Held? && nextInvokeId != 0
    requires slot.sub.state == AwaitingConfirmedAck && slot.confirmedRetries < config.maxRetries
    requires !HasExpired(slot.sub, Wrap(time), config)
    ensures var sent := Send(slot.(confirmedRetries := Increment(slot.confirmedRetries)), nextInvokeId,
                             Recollect(slot.sub, slot.cells), true, Wrap(time), config, delivered);
            NoticeFits(held, time, read, config, sent.notice) && sent.nextInvokeId != 0 &&
            (config.maxRetries <= 255 ==> RetryFits(held, config, sent.notice)) &&
            SlotAgrees(sent.slot, AfterNotice(held, sent.notice), time, config)
  {
    hide Reached, Wrap, RetryDeadline, SecondsLeft;
    ExpiryFits(slot, held, time, config);
    var opening := held.episode.value.opening;
    var values := Recollect(slot.sub, slot.cells);
    RecollectStable(slot.sub, slot.cells, held.lastSent.value);
  }

  /** Storing what a retransmission carried changes neither the cells nor the next retransmission. */
  lemma RecollectStable(sub: Subscription, cells: seq<Cell>, sent: seq<LiveProperty>)
    requires |cells| == PROPERTY_COUNT && Remembers(cells, sub, sent)
    ensures var values := Recollect(sub, cells);
            Stored(cells, values) == cells && Remembers(cells, sub, values)
  {
    forall j | 0 <= j < |sent|
      ensures Snapshot(Restored(cells[j])) == cells[j]
    {
      SnapshotOfRestored(sent[j].value);
    }
    var values := Recollect(sub, cells);
    assert |values| == |sent|;
    assert forall j :: 0 <= j < |cells| ==> Stored(cells, values)[j] == cells[j];
  }

  lemma SnapshotOfRestored(v: LiveValue)
    ensures Snapshot(Restored(Snapshot(v))) == Snapshot(v)
  {}

  /** A fresh notification carries the current values and, when confirmed, opens a wait. */
  lemma FreshNoticeAgrees(
    slot: Slot, held: History, nextInvokeId: uint8, read: Reader, time: nat, config: Config, delivered: bool)
    requires SlotAgrees(slot, held, time, config) && held.Held? && nextInvokeId != 0
    requires slot.sub.state == Active && Collect(read, slot.sub).Some?
    requires !HasExpired(slot.sub, Wrap(time), config)
    ensures var sent := Send(slot.(confirmedRetries := 0), nextInvokeId, Collect(read, slot.sub).value, false,
                             Wrap(time), config, delivered);
            NoticeFits(held, time, read, config, sent.notice) && sent.nextInvokeId != 0 &&
            (config.maxRetries <= 255 ==> RetryFits(held, config, sent.notice)) &&
            SlotAgrees(sent.slot, AfterNotice(held, sent.notice), time, config)
  {
    hide Reached, Wrap, RetryDeadline, SecondsLeft;
    ExpiryFits(slot, held, time, config);
    var values := Collect(read, slot.sub).value;
    var cells := Stored(slot.cells, values);
    StoredIsRemembered(read, slot.sub, slot.cells);
    CollectIff(read, slot.sub);
    hide Collect;
    CarriesTerms(values, read, slot.sub, held.terms);
  }

  lemma CarriesTerms(values: seq<LiveProperty>, read: Reader, sub: Subscription, terms: Subscription)
    requires SameTerms(sub, terms)
    ensures Carries(values, read, sub) <==> Carries(values, read, terms)
  {}

  lemma StoredIsRemembered(read: Reader, sub: Subscription, cells: seq<Cell>)
    requires |cells| == PROPERTY_COUNT && Collect(read, sub).Some?
    ensures var values := Collect(read, sub).value;
            Remembers(Stored(cells, values), sub, values) &&
            Recollect(sub, Stored(cells, values)) == Degraded(values)
  {
    hide Snapshot, Restored;
    var values := Collect(read, sub).value;
    var recollected := Recollect(sub, Stored(cells, values));
    assert |recollected| == |values|;
    assert forall j :: 0 <= j < |values| ==> recollected[j] == Degraded(values)[j];
  }

  lemma {:induction false} SweepAgrees(
    t: Table, from: nat, h: seq<History>, read: Reader, time: nat, config: Config, delivered: bool)
    requires Shaped(t) && from <= |t.slots| && Agrees(t, h, time, config)
    ensures var r := SweepFrom(t, from, read, Wrap(time), config, delivered);
            Agrees(r.table, ObserveAll(h, time, r.outputs), time, config) &&
            AllFit(h, time, read, config, r.outputs)
    decreases |t.slots| - from
  {
    hide SweepSlot, Wrap, SlotAgrees, Fits, AfterNotice, Remaining, NextInvokeId, Collect;
    if from < |t.slots| {
      var now := Wrap(time);
      SweepSlotAgrees(t.slots[from], h[from], from, h, t.nextInvokeId, read, time, config, delivered);
      match SweepSlot(t.slots[from], t.nextInvokeId, read, now, config, delivered)
      case Skip(slot, event) =>
        var t' := t.(slots := t.slots[from := slot]);
        match event {
          case None =>
            AgreesAt(t, h, time, config, from, slot, t.nextInvokeId, h[from]);
            assert h[from := h[from]] == h;
            SweepAgrees(t', from + 1, h, read, time, config, delivered);
            var rest := SweepFrom(t', from + 1, read, now, config, delivered);
            assert [] + rest.outputs == rest.outputs;
          case Some(e) =>
            var output := if e == Expired then Dropped(from) else Settled(from);
            var h' := Observe(h, time, output);
            AgreesAt(t, h, time, config, from, slot, t.nextInvokeId, h'[from]);
            ObservesOneSlot(h, time, output);
            SweepAgrees(t', from + 1, h', read, time, config, delivered);
            FirstOutput(h, time, read, config, output, SweepFrom(t', from + 1, read, now, config, delivered).outputs);
        }
      case Transmit(sent) =>
        OneOutput(h, time, read, config, Sent(from, sent.notice));
        AgreesAt(t, h, time, config, from, sent.slot, sent.nextInvokeId, AfterNotice(h[from], sent.notice));
    }
  }

  lemma ObservesOneSlot(h: seq<History>, time: nat, output: Output)
    requires output.index < |h|
    ensures Observe(h, time, output) == h[output.index := Observe(h, time, output)[output.index]]
  {
    hide AfterNotice;
  }

  // ----- runs

  datatype Event =
    | Ask(source: Endpoint, request: Request, replied: bool)
    | Receive(source: Endpoint, packet: Bytes)
    | Poll(delivered: bool)

  /** One call of the server: when, what the objects read as, and what it is about. */
  datatype Input = Input(time: nat, read: Reader, event: Event)

  function Step(t: Table, input: Input, config: Config): (r: Outcome)
    requires Shaped(t)
  {
    var now := Wrap(input.time);
    match input.event
    case Ask(source, request, replied) => Subscribe(t, source, request, input.read, now, config, replied)
    case Receive(source, packet) =>
      (match Answer(t, source, packet, now)
       case None => Outcome(t, Ignored, [])
       case Some(r) => r)
    case Poll(delivered) => Sweep(t, input.read, now, config, delivered)
  }

  predicate InOrder(inputs: seq<Input>) {
    forall i, j :: 0 <= i < j < |inputs| ==> inputs[i].time <= inputs[j].time
  }

  lemma StepAgrees(t: Table, h: seq<History>, input: Input, config: Config)
    requires Shaped(t) && Agrees(t, h, input.time, config) && CovRegistry.NoDuplicates(t.slots)
    ensures var r := Step(t, input, config);
            Shaped(r.table) && CovRegistry.NoDuplicates(r.table.slots) &&
            Agrees(r.table, ObserveAll(h, input.time, r.outputs), input.time, config) &&
            AllFit(h, input.time, input.read, config, r.outputs)
  {
    hide Decide, Answer, SweepFrom, Wrap, SlotAgrees, CovRegistry.NoDuplicates;
    var now := Wrap(input.time);
    match input.event
    case Ask(source, request, replied) =>
      DecideAgrees(t, h, input.time, config, source, request, input.read);
      CovRegistry.SubscribeRefinesRegistry(t, source, request, input.read, now, config);
      AgreesIsShaped(Step(t, input, config).table,
                     ObserveAll(h, input.time, Step(t, input, config).outputs), input.time, config);
    case Receive(source, packet) =>
      AnswerAgrees(t, h, input.time, input.read, config, source, packet);
      CovRegistry.AnswerKeepsRegistry(t, source, packet, now);
      if Answer(t, source, packet, now).Some? {
        AgreesIsShaped(Step(t, input, config).table,
                     ObserveAll(h, input.time, Step(t, input, config).outputs), input.time, config);
      }
    case Poll(delivered) =>
      SweepAgrees(t, 0, h, input.read, input.time, config, delivered);
      CovRegistry.SweepDropsOnlyExpired(t, input.read, now, config, delivered);
  }

  lemma AgreesIsShaped(t: Table, h: seq<History>, time: nat, config: Config)
    requires Agrees(t, h, time, config)
    ensures Shaped(t)
  {
    forall i | 0 <= i < |t.slots|
      ensures |t.slots[i].cells| == PROPERTY_COUNT
    {
      assert SlotAgrees(t.slots[i], h[i], time, config);
    }
  }

  /** The state after a run, what its observer knows, and whether every output fitted on the way. */
  datatype World = World(table: Table, history: seq<History>, fit: bool)

  function Start(capacity: nat): (w: World)
    ensures Shaped(w.table)
  {
    World(StartTable(capacity), seq(capacity, i => Free), true)
  }

  function After(w: World, input: Input, config: Config): (w': World)
    requires Shaped(w.table)
  {
    var r := Step(w.table, input, config);
    World(r.table, ObserveAll(w.history, input.time, r.outputs),
          w.fit && AllFit(w.history, input.time, input.read, config, r.outputs))
  }

  ghost predicate Good(w: World, time: nat, config: Config) {
    Shaped(w.table) && w.fit && CovRegistry.NoDuplicates(w.table.slots) && Agrees(w.table, w.history, time, config)
  }

  /** The world after the first `n` inputs. */
  function Run(capacity: nat, inputs: seq<Input>, n: nat, config: Config): (w: World)
    requires n <= |inputs|
    ensures Shaped(w.table)
    decreases n
  {
    if n == 0 then Start(capacity)
    else
      var before := Run(capacity, inputs, n - 1, config);
      StepIsShaped(before.table, inputs[n - 1], config);
      After(before, inputs[n - 1], config)
  }

  lemma StepIsShaped(t: Table, input: Input, config: Config)
    requires Shaped(t)
    ensures Shaped(Step(t, input, config).table)
  {
    hide SweepFrom, Wrap, Refusal, ClassifyCovResponse;
    match input.event
    case Ask(source, request, replied) =>
      FindIsInRange(t.slots, RequestKey(source, request), 0, None);
    case Receive(source, packet) =>
    case Poll(delivered) =>
  }

  /**
   Every reachable state of every run: all outputs fitted the observer's history, no key is in the
   table twice, and the table agrees with what the observer knows.
   */
  lemma {:induction false} RunIsGood(capacity: nat, inputs: seq<Input>, n: nat, config: Config)
    requires n <= |inputs| && InOrder(inputs)
    ensures Good(Run(capacity, inputs, n, config), if n == 0 then 0 else inputs[n - 1].time, config)
  {
    hide Step, SlotAgrees;
    if n == 0 {
      StartIsGood(capacity, config);
    } else {
      var before := Run(capacity, inputs, n - 1, config);
      var input := inputs[n - 1];
      RunIsGood(capacity, inputs, n - 1, config);
      AgreesLater(before.table, before.history, if n == 1 then 0 else inputs[n - 2].time, input.time, config);
      StepAgrees(before.table, before.history, input, config);
    }
  }

  lemma StartIsGood(capacity: nat, config: Config)
    ensures Good(Start(capacity), 0, config)
  {
    var w := Start(capacity);
    forall i | 0 <= i < capacity
      ensures SlotAgrees(w.table.slots[i], w.history[i], 0, config)
    {
      assert !Live(w.table.slots[i]);
    }
  }
}
