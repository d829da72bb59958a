/**
 When an acknowledgement can settle the wrong slot: the loop takes the first slot that waits for the
 peer and invoke id, and whether an earlier slot can still wait for an id when it comes round again
 depends on the configuration alone.
 */
module CovIdClash {
  import opened BacnetTypes
  import opened WrappingClock
  import opened Framing
  import opened CovEngine
  import opened CovHistory
  import opened CovExchange
  import opened CovInvokeIds

  // ----- the property

  /** An acknowledgement of a notification that has just gone out settles the slot it went out from. */
  ghost predicate AckFindsSlot(t: Table, output: Output, now: uint32) {
    output.Sent? && output.notice.confirmed && output.notice.delivered && output.index < |t.slots| ==>
      var packet := SimpleAck(output.notice.invokeId, SERVICE_CONFIRMED_COV);
      var answer := Answer(t, t.slots[output.index].sub.peer, packet, now);
      answer.Some? && answer.value.outputs == [Settled(output.index)]
  }

  ghost predicate AcksFindSlots(r: Outcome, now: uint32) {
    forall k :: 0 <= k < |r.outputs| ==> AckFindsSlot(r.table, r.outputs[k], now)
  }

  ghost predicate AcksFindSlotsIn(capacity: nat, inputs: seq<Input>, config: Config) {
    forall n, now: uint32 :: 0 <= n < |inputs| ==>
      AcksFindSlots(Step(Run(capacity, inputs, n, config).table, inputs[n], config), now)
  }

  /** In every run, what goes out can be acknowledged. */
  ghost predicate AcksAlwaysFindSlots(config: Config) {
    forall capacity: nat, inputs: seq<Input> :: InOrder(inputs) ==> AcksFindSlotsIn(capacity, inputs, config)
  }

  /** Every unanswered notification is given up by the next sweep. */
  predicate GivesUpAtOnce(config: Config) {
    config.hasClock && config.apduTimeout == 0 && config.maxRetries == 0
  }

  // ----- with such a configuration no earlier slot waits

  /** Nothing that waits is backing off. */
  ghost predicate Prompt(t: Table) {
    forall i :: 0 <= i < |t.slots| ==> Waiting(t.slots[i]) ==> t.slots[i].retryAt == 0
  }

  predicate NoneWaits(slots: seq<Slot>, to: nat)
    requires to <= |slots|
  {
    forall j :: 0 <= j < to ==> !Waiting(slots[j])
  }

  lemma FindsSender(t: Table, i: nat, now: uint32)
    requires i < |t.slots| && Waiting(t.slots[i]) && NoneWaits(t.slots, i)
    ensures var answer := Answer(t, t.slots[i].sub.peer,
                                 SimpleAck(t.slots[i].sub.pendingInvokeId, SERVICE_CONFIRMED_COV), now);
            answer.Some? && answer.value.outputs == [Settled(i)]
  {
    hide SimpleAck, ClassifyCovResponse, FindAnswered;
    var peer, id := t.slots[i].sub.peer, t.slots[i].sub.pendingInvokeId;
    FindsFirstWaiting(t.slots, 0, peer, id);
    assert Waits(t.slots[i], peer, id);
  }

  /** What a slot does under such a configuration. */
  lemma SlotIsPrompt(slot: Slot, nextInvokeId: uint8, read: Reader, now: uint32, config: Config, delivered: bool)
    requires |slot.cells| == PROPERTY_COUNT && GivesUpAtOnce(config) && (Waiting(slot) ==> slot.retryAt == 0)
    ensures match SweepSlot(slot, nextInvokeId, read, now, config, delivered)
            case Skip(slot', _) => !Waiting(slot')
            case Transmit(sent) =>
              (Waiting(sent.slot) ==> sent.slot.retryAt == 0) &&
              (sent.notice.confirmed && sent.notice.delivered ==>
                 Waiting(sent.slot) && sent.slot.sub.pendingInvokeId == sent.notice.invokeId)
  {
    hide Reached, AnyChanged, Collect, Recollect, Remaining, RetryDeadline, Stored, NextInvokeId;
  }

  lemma NothingSent(r: Outcome, later: uint32)
    requires forall k :: 0 <= k < |r.outputs| ==> !r.outputs[k].Sent?
    ensures AcksFindSlots(r, later)
  {}

  lemma EventSendsNothing(index: nat, event: Option<SlotEvent>, r: Outcome, later: uint32)
    requires AcksFindSlots(r, later)
    ensures AcksFindSlots(r.(outputs := EventOutput(index, event) + r.outputs), later)
  {
    hide AckFindsSlot;
    var before := EventOutput(index, event);
    forall k | 0 <= k < |before + r.outputs| ensures AckFindsSlot(r.table, (before + r.outputs)[k], later) {
      if k < |before| {
        NotSent(r.table, before[k], later);
      } else {
        assert (before + r.outputs)[k] == r.outputs[k - |before|];
      }
    }
  }

  lemma NotSent(t: Table, output: Output, later: uint32)
    requires !output.Sent?
    ensures AckFindsSlot(t, output, later)
  {}

  lemma OneSent(t: Table, i: nat, sent: SendResult, result: PollResult, later: uint32)
    requires Prompt(t) && i < |t.slots| && NoneWaits(t.slots, i) && (Waiting(sent.slot) ==> sent.slot.retryAt == 0)
    requires sent.notice.confirmed && sent.notice.delivered ==>
               Waiting(sent.slot) && sent.slot.sub.pendingInvokeId == sent.notice.invokeId
    ensures var t' := Table(t.slots[i := sent.slot], sent.nextInvokeId);
            Prompt(t') && AcksFindSlots(Outcome(t', result, [Sent(i, sent.notice)]), later)
  {
    hide Answer, SimpleAck;
    if sent.notice.confirmed && sent.notice.delivered {
      FindsSender(Table(t.slots[i := sent.slot], sent.nextInvokeId), i, later);
    }
  }

  lemma {:induction false} SweepIsPrompt(
    t: Table, from: nat, read: Reader, now: uint32, config: Config, delivered: bool, later: uint32)
    requires Shaped(t) && Prompt(t) && GivesUpAtOnce(config) && from <= |t.slots| && NoneWaits(t.slots, from)
    ensures var r := SweepFrom(t, from, read, now, config, delivered); Prompt(r.table) && AcksFindSlots(r, later)
    decreases |t.slots| - from
  {
    hide SweepSlot, AcksFindSlots;
    if from == |t.slots| {
      NothingSent(Outcome(t, NoDatagram, []), later);
    } else {
      SlotIsPrompt(t.slots[from], t.nextInvokeId, read, now, config, delivered);
      match SweepSlot(t.slots[from], t.nextInvokeId, read, now, config, delivered)
      case Skip(slot, event) =>
        var t' := t.(slots := t.slots[from := slot]);
        SweepIsPrompt(t', from + 1, read, now, config, delivered, later);
        EventSendsNothing(from, event, SweepFrom(t', from + 1, read, now, config, delivered), later);
      case Transmit(sent) => OneSent(t, from, sent, if delivered then CovNotificationSent else SendFailed, later);
    }
  }

  lemma StepIsPrompt(t: Table, input: Input, config: Config, later: uint32)
    requires Shaped(t) && Prompt(t) && GivesUpAtOnce(config)
    ensures var r := Step(t, input, config); Prompt(r.table) && AcksFindSlots(r, later)
  {
    hide SweepFrom, Wrap, Refusal, ClassifyCovResponse, AckFindsSlot;
    match input.event
    case Ask(source, request, replied) =>
      FindIsInRange(t.slots, RequestKey(source, request), 0, None);
      NothingSent(Step(t, input, config), later);
    case Receive(source, packet) =>
      NothingSent(Step(t, input, config), later);
    case Poll(delivered) => SweepIsPrompt(t, 0, input.read, Wrap(input.time), config, delivered, later);
  }

  lemma {:induction false} RunIsPrompt(capacity: nat, inputs: seq<Input>, n: nat, config: Config)
    requires n <= |inputs| && GivesUpAtOnce(config)
    ensures Prompt(Run(capacity, inputs, n, config).table)
  {
    hide Step;
    if n > 0 {
      RunIsPrompt(capacity, inputs, n - 1, config);
      StepIsPrompt(Run(capacity, inputs, n - 1, config).table, inputs[n - 1], config, 0);
    }
  }

  // ----- with any other configuration one does, until its id comes round

  const CLASH_PEER := Endpoint(10, 0, 0, 1, 47808)
  const STEADY := ObjectId(5, 1)
  const MOVING := ObjectId(2, 1)

  function ClashRequest(processId: uint32, objectId: ObjectId): Request {
    Request(processId, objectId, true, PRESENT_VALUE, NO_ARRAY_INDEX, true, 1, false, 0.0)
  }

  /** One object keeps its value, the other takes a new one every round. */
  function ClashRead(round: nat): Reader {
    map[(STEADY, PRESENT_VALUE) := Boolean(true), (MOVING, PRESENT_VALUE) := Unsigned(Wrap(round))]
  }

  /** The invoke id count with which the rounds begin: a retransmission that does not go out takes an id too. */
  function FirstRound(config: Config): (count: nat)
    ensures 1 <= count <= 2
  {
    if config.hasClock && config.apduTimeout == 0 then 2 else 1
  }

  /**
   Two confirmed subscriptions of one peer at a standing clock. The first is never answered; the
   second is notified of a change and answered, over and over.
   */
  function ClashInput(i: nat, first: nat): Input {
    if i == 0 then Input(0, ClashRead(0), Ask(CLASH_PEER, ClashRequest(1, STEADY), true))
    else if i == 1 then Input(0, ClashRead(0), CovHistory.Poll(true))
    else if i == 2 then Input(0, ClashRead(0), CovHistory.Poll(false))
    else if i == 3 then Input(0, ClashRead(0), Ask(CLASH_PEER, ClashRequest(2, MOVING), true))
    else
      var round := (i - 4) / 2;
      Input(0, ClashRead(round),
            if i % 2 == 0 then CovHistory.Poll(true)
            else Receive(CLASH_PEER, SimpleAck(IdOf(first + round), SERVICE_CONFIRMED_COV)))
  }

  function Clash(n: nat, first: nat): (inputs: seq<Input>)
    ensures |inputs| == n
  {
    seq(n, i requires 0 <= i => ClashInput(i, first))
  }

  predicate Unexpired(sub: Subscription, config: Config) {
    sub.lifetime == 1 && sub.expiresAt == if config.hasClock then 1000 else 0
  }

  /** It waits for the first id, and no sweep at this clock touches it. */
  predicate Blocked(slot: Slot, config: Config) {
    Waiting(slot) && slot.sub.peer == CLASH_PEER && slot.sub.pendingInvokeId == 1 && slot.sub.lastSent == 0 &&
    Unexpired(slot.sub, config) && |slot.cells| == PROPERTY_COUNT &&
    (slot.retryAt == 1000 || (slot.retryAt == 0 && !(config.hasClock && config.apduTimeout == 0)))
  }

  /** It will notify of the value of this round. */
  predicate Eager(slot: Slot, config: Config, round: nat) {
    var sub := slot.sub;
    sub.state == Active && sub.peer == CLASH_PEER && sub.monitored == MOVING && sub.isProperty &&
    sub.property == PRESENT_VALUE && sub.arrayIndex == NO_ARRAY_INDEX && sub.confirmed && Unexpired(sub, config) &&
    slot.retryAt == 0 && |slot.cells| == PROPERTY_COUNT &&
    (slot.cells[0].valid && slot.cells[0].kind == UnsignedKind ==> slot.cells[0].number != Wrap(round))
  }

  predicate Standoff(t: Table, config: Config, sent: nat, round: nat) {
    |t.slots| == 2 && t.nextInvokeId == IdOf(sent) && Blocked(t.slots[0], config) && Eager(t.slots[1], config, round)
  }

  lemma BlockedIsSkipped(slot: Slot, nextInvokeId: uint8, read: Reader, config: Config, delivered: bool)
    requires Blocked(slot, config)
    ensures SweepSlot(slot, nextInvokeId, read, 0, config, delivered) == Skip(slot, None)
  {
    assert !Reached(0, 1000);
  }

  lemma RoundSends(t: Table, config: Config, sent: nat, round: nat)
    requires Shaped(t) && Standoff(t, config, sent, round)
    ensures var r := Step(t, Input(0, ClashRead(round), CovHistory.Poll(true)), config);
            |r.table.slots| == 2 && r.table.slots[0] == t.slots[0] && r.table.nextInvokeId == IdOf(sent + 1) &&
            (var slot := r.table.slots[1];
             Waiting(slot) && slot.sub.pendingInvokeId == IdOf(sent) &&
             Eager(slot.(sub := slot.sub.(state := Active)), config, round + 1)) &&
            |r.outputs| == 1 && r.outputs[0].Sent? && r.outputs[0].index == 1 &&
            var notice := r.outputs[0].notice;
            notice.confirmed && notice.delivered && notice.invokeId == IdOf(sent)
  {
    var read := ClashRead(round);
    BlockedIsSkipped(t.slots[0], t.nextInvokeId, read, config, true);
    assert t.(slots := t.slots[0 := t.slots[0]]) == t;
    var slot := t.slots[1];
    var values := [PropertyValue(PRESENT_VALUE, NO_ARRAY_INDEX, Unsigned(Wrap(round)))];
    assert Collect(read, slot.sub) == Some(values);
    assert !Reached(0, 1000);
    assert AnyChanged(slot.sub, slot.cells, values, 0);
    var result := Send(slot.(confirmedRetries := 0), t.nextInvokeId, values, false, 0, config, true);
    assert SweepSlot(slot, t.nextInvokeId, read, 0, config, true) == Transmit(result);
    var swept := Outcome(Table(t.slots[1 := result.slot], result.nextInvokeId), CovNotificationSent,
                         [Sent(1, result.notice)]);
    assert SweepFrom(t, 1, read, 0, config, true) == swept;
    assert SweepFrom(t, 0, read, 0, config, true) == swept by {
      assert EventOutput(0, None) + swept.outputs == swept.outputs;
    }
    NextIdIsNext(sent);
    assert result.slot.cells[0] == Snapshot(Unsigned(Wrap(round)));
    NextValueDiffers(round);
  }

  lemma NextValueDiffers(round: nat)
    ensures Wrap(round) != Wrap(round + 1)
  {}

  /** The answer settles the second slot as long as its id is not the one the first still waits for. */
  lemma RoundSettles(t: Table, config: Config, sent: nat, round: nat)
    requires Shaped(t) && |t.slots| == 2 && t.nextInvokeId == IdOf(sent + 1) && Blocked(t.slots[0], config)
    requires Waiting(t.slots[1]) && t.slots[1].sub.pendingInvokeId == IdOf(sent) != 1
    requires Eager(t.slots[1].(sub := t.slots[1].sub.(state := Active)), config, round + 1)
    ensures var packet := SimpleAck(IdOf(sent), SERVICE_CONFIRMED_COV);
            Standoff(Step(t, Input(0, ClashRead(round), Receive(CLASH_PEER, packet)), config).table,
                     config, sent + 1, round + 1)
  {
    hide SimpleAck, ClassifyCovResponse, IdOf, FindAnswered;
    var packet := SimpleAck(IdOf(sent), SERVICE_CONFIRMED_COV);
    FindsFirstWaiting(t.slots, 0, CLASH_PEER, IdOf(sent));
    assert Waits(t.slots[1], CLASH_PEER, IdOf(sent));
    assert FindAnswered(t.slots, 0, CLASH_PEER, packet) == 1;
  }

  // ----- how it begins

  function ClashTerms(processId: uint32, objectId: ObjectId, config: Config): Subscription {
    GrantedTerms(CLASH_PEER, ClashRequest(processId, objectId), 0, config)
  }

  lemma TermsAreUnexpired(processId: uint32, objectId: ObjectId, config: Config)
    ensures Unexpired(ClashTerms(processId, objectId, config), config)
  {}

  /** The first subscription takes the first slot of an empty table. */
  lemma FirstSubscription(config: Config)
    ensures var t := StartTable(2);
            Step(t, ClashInput(0, FirstRound(config)), config).table
            == t.(slots := t.slots[0 := GrantSlot(t.slots[0], ClashTerms(1, STEADY, config))])
  {
    var slots := StartTable(2).slots;
    var key := RequestKey(CLASH_PEER, ClashRequest(1, STEADY));
    assert Find(slots, key, 2, Some(0)) == Found(None, Some(0));
    assert Find(slots, key, 1, Some(0)) == Found(None, Some(0));
    assert Find(slots, key, 0, None) == Found(None, Some(0));
    assert Refusal(ClashRequest(1, STEADY), ClashRead(0)) == None;
  }

  /** What the first slot becomes when its notification goes out. */
  function Notified(config: Config): (slot: Slot)
    ensures Waiting(slot) && slot.sub.peer == CLASH_PEER && slot.sub.pendingInvokeId == 1 && slot.sub.lastSent == 0
    ensures Unexpired(slot.sub, config) && |slot.cells| == PROPERTY_COUNT && slot.retryAt == 0
    ensures slot.confirmedRetries == slot.sendRetries == 0 && slot.sub.isProperty && slot.sub.confirmed
    ensures KeyOf(slot.sub) == RequestKey(CLASH_PEER, ClashRequest(1, STEADY))
  {
    TermsAreUnexpired(1, STEADY, config);
    var granted := GrantSlot(StartTable(2).slots[0], ClashTerms(1, STEADY, config));
    Send(granted, 1, [PropertyValue(PRESENT_VALUE, NO_ARRAY_INDEX, Boolean(true))], false, 0, config, true).slot
  }

  lemma FirstNotification(config: Config)
    ensures var t := StartTable(2);
            var granted := t.(slots := t.slots[0 := GrantSlot(t.slots[0], ClashTerms(1, STEADY, config))]);
            Step(granted, ClashInput(1, FirstRound(config)), config).table
            == Table(t.slots[0 := Notified(config)], IdOf(1))
  {
    var t := StartTable(2);
    var slot := GrantSlot(t.slots[0], ClashTerms(1, STEADY, config));
    var granted := t.(slots := t.slots[0 := slot]);
    var values := [PropertyValue(PRESENT_VALUE, NO_ARRAY_INDEX, Boolean(true))];
    TermsAreUnexpired(1, STEADY, config);
    assert Collect(ClashRead(0), slot.sub) == Some(values);
    assert !Reached(0, 1000);
    assert AnyChanged(slot.sub, slot.cells, values, 0);
    var sent := Send(slot, 1, values, false, 0, config, true);
    assert slot.(confirmedRetries := 0) == slot;
    assert SweepSlot(slot, 1, ClashRead(0), 0, config, true) == Transmit(sent);
  }

  /** A sweep whose send fails: nothing is due, or a retransmission fails and the slot backs off. */
  lemma FailedSweep(config: Config)
    requires !GivesUpAtOnce(config)
    ensures var t := Table(StartTable(2).slots[0 := Notified(config)], IdOf(1));
            var t' := Step(t, ClashInput(2, FirstRound(config)), config).table;
            |t'.slots| == 2 && t'.slots[1] == StartTable(2).slots[1] && t'.nextInvokeId == IdOf(FirstRound(config)) &&
            Blocked(t'.slots[0], config) && KeyOf(t'.slots[0].sub) == KeyOf(Notified(config).sub)
  {
    hide Notified;
    var slot, free := Notified(config), StartTable(2).slots[1];
    var t := Table(StartTable(2).slots[0 := slot], IdOf(1));
    var read := ClashRead(0);
    assert !Reached(0, 1000);
    if config.hasClock && config.apduTimeout == 0 {
      var retried := slot.(confirmedRetries := 1);
      var sent := Send(retried, IdOf(1), Recollect(slot.sub, slot.cells), true, 0, config, false);
      assert SweepSlot(slot, IdOf(1), read, 0, config, false) == Transmit(sent);
      assert RetryDelay(0, 1) == 1000;
    } else {
      assert SweepSlot(slot, IdOf(1), read, 0, config, false) == Skip(slot, None);
      assert t.(slots := t.slots[0 := slot]) == t;
      assert SweepSlot(free, IdOf(1), read, 0, config, false) == Skip(free, None);
      assert t.(slots := t.slots[1 := free]) == t;
      assert SweepFrom(t, 2, read, 0, config, false).table == t;
      assert SweepFrom(t, 1, read, 0, config, false).table == t;
      assert SweepFrom(t, 0, read, 0, config, false).table == t;
    }
  }

  /** The second subscription takes the second slot. */
  lemma SecondSubscription(t: Table, config: Config)
    requires |t.slots| == 2 && t.slots[1] == StartTable(2).slots[1] && t.nextInvokeId == IdOf(FirstRound(config))
    requires Blocked(t.slots[0], config) && KeyOf(t.slots[0].sub) == RequestKey(CLASH_PEER, ClashRequest(1, STEADY))
    ensures Standoff(Step(t, ClashInput(3, FirstRound(config)), config).table, config, FirstRound(config), 0)
  {
    var key := RequestKey(CLASH_PEER, ClashRequest(2, MOVING));
    assert Find(t.slots, key, 2, Some(1)) == Found(None, Some(1));
    assert Find(t.slots, key, 1, None) == Found(None, Some(1));
    assert Find(t.slots, key, 0, None) == Found(None, Some(1));
    assert Refusal(ClashRequest(2, MOVING), ClashRead(0)) == None;
    TermsAreUnexpired(2, MOVING, config);
  }

  function ClashTable(config: Config, n: nat, k: nat): (t: Table)
    requires k <= n
    ensures Shaped(t)
  {
    Run(2, Clash(n, FirstRound(config)), k, config).table
  }

  lemma ClashBegins(config: Config, n: nat)
    requires !GivesUpAtOnce(config) && 4 <= n
    ensures Standoff(ClashTable(config, n, 4), config, FirstRound(config), 0)
  {
    hide Step, Standoff, Blocked, Notified, ClashTerms, ClashInput, After;
    var inputs := Clash(n, FirstRound(config));
    FirstSubscription(config);
    FirstNotification(config);
    FailedSweep(config);
    RunNext(inputs, 0, config);
    RunNext(inputs, 1, config);
    RunNext(inputs, 2, config);
    RunNext(inputs, 3, config);
    SecondSubscription(Run(2, inputs, 3, config).table, config);
  }

  lemma RunNext(inputs: seq<Input>, n: nat, config: Config)
    requires n < |inputs|
    ensures Run(2, inputs, n + 1, config).table == Step(Run(2, inputs, n, config).table, inputs[n], config).table
    ensures n == 0 ==> Run(2, inputs, n, config).table == StartTable(2)
  {
    hide Step;
  }

  // ----- how it goes on

  lemma {:induction false} ClashGoesOn(config: Config, n: nat, round: nat)
    requires !GivesUpAtOnce(config) && 4 + 2 * round <= n && FirstRound(config) + round <= ID_COUNT
    ensures Standoff(ClashTable(config, n, 4 + 2 * round), config, FirstRound(config) + round, round)
    decreases round
  {
    hide Standoff, ClashTable, Step, ClashInput, FirstRound, Clash;
    if round == 0 {
      ClashBegins(config, n);
    } else {
      var before := round - 1;
      ClashGoesOn(config, n, before);
      TwoInputs(config, n, before);
      ClashRound(ClashTable(config, n, 4 + 2 * before), config, FirstRound(config), before);
      assert 6 + 2 * before == 4 + 2 * round && FirstRound(config) + before + 1 == FirstRound(config) + round;
    }
  }

  lemma TwoInputs(config: Config, n: nat, round: nat)
    requires 6 + 2 * round <= n
    ensures var first := FirstRound(config);
            var t' := Step(ClashTable(config, n, 4 + 2 * round), ClashInput(4 + 2 * round, first), config).table;
            Shaped(t') &&
            ClashTable(config, n, 6 + 2 * round) == Step(t', ClashInput(5 + 2 * round, first), config).table
  {
    hide Step, ClashInput, FirstRound;
    var inputs := Clash(n, FirstRound(config));
    RunNext(inputs, 4 + 2 * round, config);
    RunNext(inputs, 5 + 2 * round, config);
  }

  lemma ClashRound(t: Table, config: Config, first: nat, round: nat)
    requires Shaped(t) && Standoff(t, config, first + round, round) && 1 <= first + round < ID_COUNT
    ensures var t' := Step(t, ClashInput(4 + 2 * round, first), config).table;
            Shaped(t') &&
            Standoff(Step(t', ClashInput(5 + 2 * round, first), config).table, config, first + round + 1, round + 1)
  {
    hide Step, Eager, Blocked;
    RoundSends(t, config, first + round, round);
    var input := ClashInput(4 + 2 * round, first);
    assert input == Input(0, ClashRead(round), CovHistory.Poll(true));
    StepIsShaped(t, input, config);
    assert ClashInput(5 + 2 * round, first)
           == Input(0, ClashRead(round), Receive(CLASH_PEER, SimpleAck(IdOf(first + round), SERVICE_CONFIRMED_COV)));
    RoundSettles(Step(t, input, config).table, config, first + round, round);
  }

  // ----- how it ends

  /** The inputs after which the next id is the one the first slot still waits for. */
  function ClashLength(config: Config): (n: nat)
    ensures n == 4 + 2 * (ID_COUNT - FirstRound(config))
  {
    4 + 2 * (ID_COUNT - FirstRound(config))
  }

  function AllRound(config: Config): seq<Input> {
    Clash(ClashLength(config) + 1, FirstRound(config))
  }

  lemma IdsComeRound(config: Config)
    requires !GivesUpAtOnce(config)
    ensures var t := Run(2, AllRound(config), ClashLength(config), config).table;
            Standoff(t, config, ID_COUNT, ID_COUNT - FirstRound(config)) && t.nextInvokeId == 1
  {
    ClashGoesOn(config, ClashLength(config) + 1, ID_COUNT - FirstRound(config));
  }

  /** In this reachable state no exchange of the second slot settles it. */
  lemma ExchangeFails(
    values: seq<LiveProperty>, retransmission: bool, sentAt: uint32, answeredAt: uint32, config: Config,
    device: ObjectId, pattern: real -> uint32)
    requires !GivesUpAtOnce(config) && 1 <= |values| <= PROPERTY_COUNT && (forall p <- values :: Watchable(p))
    ensures var t := Run(2, AllRound(config), ClashLength(config), config).table;
            |t.slots| == 2 && t.slots[1].sub.confirmed && |t.slots[1].cells| == PROPERTY_COUNT &&
            !ExchangeSettles(t, 1, values, retransmission, sentAt, answeredAt, config, device, pattern)
  {
    hide Run, ExchangeSettles, Watchable;
    IdsComeRound(config);
    var t := Run(2, AllRound(config), ClashLength(config), config).table;
    assert Waits(t.slots[0], t.slots[1].sub.peer, t.nextInvokeId);
    ConfirmedExchangeIff(t, 1, values, retransmission, sentAt, answeredAt, config, device, pattern);
  }

  /** The next sweep notifies from the second slot, and the answer to that settles the first. */
  lemma WrongSlotIsSettled(config: Config, now: uint32)
    requires !GivesUpAtOnce(config)
    ensures var t := Run(2, AllRound(config), ClashLength(config), config).table;
            var r := Step(t, AllRound(config)[ClashLength(config)], config);
            |r.outputs| == 1 && r.outputs[0].Sent? && r.outputs[0].index == 1 && |r.table.slots| == 2 &&
            r.table.slots[1].sub.peer == CLASH_PEER && r.outputs[0].notice.confirmed && r.outputs[0].notice.delivered &&
            var answer := Answer(r.table, CLASH_PEER,
                                 SimpleAck(r.outputs[0].notice.invokeId, SERVICE_CONFIRMED_COV), now);
            answer.Some? && answer.value.outputs == [Settled(0)] && |answer.value.table.slots| == 2 &&
            answer.value.table.slots[0].sub.state == Active && Waiting(answer.value.table.slots[1])
  {
    hide Run, Step, SimpleAck, ClassifyCovResponse, FindAnswered;
    IdsComeRound(config);
    var t := Run(2, AllRound(config), ClashLength(config), config).table;
    var round := ID_COUNT - FirstRound(config);
    RoundSends(t, config, ID_COUNT, round);
    assert AllRound(config)[ClashLength(config)] == Input(0, ClashRead(round), CovHistory.Poll(true));
    var r := Step(t, AllRound(config)[ClashLength(config)], config);
    FindsFirstWaiting(r.table.slots, 0, CLASH_PEER, 1);
    assert Waits(r.table.slots[0], CLASH_PEER, 1);
    assert FindAnswered(r.table.slots, 0, CLASH_PEER, SimpleAck(1, SERVICE_CONFIRMED_COV)) == 0;
  }

  lemma ClashHappens(config: Config)
    requires !GivesUpAtOnce(config)
    ensures !AcksAlwaysFindSlots(config)
  {
    hide Run, Step, Answer, SimpleAck;
    var inputs, n := AllRound(config), ClashLength(config);
    WrongSlotIsSettled(config, 0);
    var r := Step(Run(2, inputs, n, config).table, inputs[n], config);
    assert !AckFindsSlot(r.table, r.outputs[0], 0);
    assert !AcksFindSlots(r, 0);
    assert !AcksFindSlotsIn(2, inputs, config);
    assert InOrder(inputs);
  }

  /**
   What the server sends can be acknowledged in every run if and only if an unanswered notification is
   given up by the very next sweep. Otherwise an earlier slot of the same peer can wait while the 255
   ids go round, and then takes the acknowledgement meant for a later one.
   */
  lemma AcksAlwaysFindSlotsIff(config: Config)
    ensures AcksAlwaysFindSlots(config) <==> GivesUpAtOnce(config)
  {
    hide Run, Step, AcksFindSlots;
    if GivesUpAtOnce(config) {
      forall capacity: nat, inputs: seq<Input> | InOrder(inputs)
        ensures AcksFindSlotsIn(capacity, inputs, config)
      {
        forall n, now: uint32 | 0 <= n < |inputs|
          ensures AcksFindSlots(Step(Run(capacity, inputs, n, config).table, inputs[n], config), now)
        {
          RunIsPrompt(capacity, inputs, n, config);
          StepIsPrompt(Run(capacity, inputs, n, config).table, inputs[n], config, now);
        }
      }
    } else {
      ClashHappens(config);
    }
  }
}
