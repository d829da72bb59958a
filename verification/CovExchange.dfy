/**
 Client and server COV sides joined through their packets: a subscription request that reaches the
 table, a notification that reaches the client, and the acknowledgement that settles it.
 */
module CovExchange {
  import opened BacnetTypes
  import opened WrappingClock
  import opened ApplicationValue
  import opened Framing
  import opened CovEngine
  import opened CovRegistry
  import Inbox = CovInbox
  import Messages = CovMessages

  /** What a request read off the wire asks of the engine, given what REAL patterns denote. */
  function Asked(r: Messages.SubscribeRequest, meaning: uint32 -> real): Request {
    Request(r.processId, r.monitored, r.isProperty, r.property, r.arrayIndex, r.confirmed, r.lifetime,
            r.increment.Some?, if r.increment.Some? then meaning(r.increment.value) else 0.0)
  }

  /** A value as it goes on the wire, given how numbers are written as REAL patterns. */
  function Coded(v: LiveValue, pattern: real -> uint32): WireValue {
    match v
    case Empty => Empty
    case Null => Null
    case Boolean(on) => Boolean(on)
    case Unsigned(number) => Unsigned(number)
    case Signed(signed) => Signed(signed)
    case Real(measure) => Real(pattern(measure))
    case BitString(bits, bitCount) => BitString(bits, bitCount)
    case Enumerated(number) => Enumerated(number)
    case CharacterString(text) => CharacterString(text)
    case ObjectIdentifier(objectId) => ObjectIdentifier(objectId)
    case ObjectIdentifierList(text) => ObjectIdentifierList(text)
    case PropertyIdentifierList(text) => PropertyIdentifierList(text)
    case Unsupported(tag) => Unsupported(tag)
  }

  function CodedItems(values: seq<LiveProperty>, pattern: real -> uint32): (items: seq<WireProperty>)
    ensures |items| == |values|
    ensures forall i :: 0 <= i < |values| ==>
              items[i] == PropertyValue(values[i].property, values[i].arrayIndex, Coded(values[i].value, pattern))
  {
    seq(|values|, i requires 0 <= i < |values| =>
      PropertyValue(values[i].property, values[i].arrayIndex, Coded(values[i].value, pattern)))
  }

  /** A request the client may send: valid object, and no increment below zero. */
  predicate Sendable(r: Messages.SubscribeRequest) {
    (r.isProperty || Messages.ObjectForm(r)) && ValidObjectId(r.monitored) &&
    !(r.increment.Some? && Messages.NegativePattern(r.increment.value))
  }

  function WireKey(source: Endpoint, r: Messages.SubscribeRequest): Key {
    Key(source, r.processId, r.monitored, r.isProperty, r.property, r.arrayIndex)
  }

  /** What the client asks to observe can be read now. */
  predicate Observable(r: Messages.SubscribeRequest, read: Reader) {
    r.arrayIndex == NO_ARRAY_INDEX && (r.monitored, r.property) in read &&
    (!r.isProperty ==> (r.monitored, STATUS_FLAGS) in read)
  }

  /** It is a property subscription to a Present_Value that reads as a REAL. */
  predicate RealPresentValue(r: Messages.SubscribeRequest, read: Reader)
    requires Observable(r, read)
  {
    r.isProperty && r.property == PRESENT_VALUE && read[(r.monitored, PRESENT_VALUE)].Real?
  }

  function WireContract(
    r: Messages.SubscribeRequest, meaning: uint32 -> real, now: uint32, config: Config): Contract
  {
    Contract(r.confirmed, r.lifetime, if config.hasClock then Wrap(now + 1000 * r.lifetime) else 0,
             r.increment.Some?, if r.increment.Some? then meaning(r.increment.value) else 0.0)
  }

  /**
   From the client's packet to the server's map. The request is acknowledged if and only if the
   monitored property can be read (with an object's status flags), an increment is asked for a real
   Present_Value only, and it ends a contract, renews one or finds room; any other is refused with
   the error that says why. An acknowledged request then holds, under exactly the key it names, a
   contract with exactly its terms, or with lifetime zero no contract any more; all other keys, and
   on any refusal the whole map, are as before.
   */
  lemma SubscriptionArrives(
    t: Table, source: Endpoint, r: Messages.SubscribeRequest, invokeId: uint8, meaning: uint32 -> real,
    read: Reader, now: uint32, config: Config)
    requires NoDuplicates(t.slots) && Sendable(r)
    ensures var seen := Messages.ParseSubscribe(Messages.SubscribeMessage(r, invokeId));
            seen.Parsed? && seen.request.invokeId == invokeId &&
            var (t', outputs, reply) := Decide(t, source, Asked(seen.request.request, meaning), read, now, config);
            var key, m, m' := WireKey(source, r), Registry(t.slots), Registry(t'.slots);
            NoDuplicates(t'.slots) &&
            reply == (if !Observable(r, read) then ErrorReply(2, 32)
                      else if r.increment.Some? && !RealPresentValue(r, read) then ErrorReply(2, 37)
                      else if r.lifetime != 0 && key !in m && |m| >= |t.slots| then ErrorReply(2, 18)
                      else AckReply) &&
            m' == if !reply.AckReply? then m
                  else if r.lifetime == 0 then m - {key}
                  else m[key := WireContract(r, meaning, now, config)]
  {
    hide Decide, Registry, NoDuplicates, Messages.ParseSubscribe, Messages.SubscribeMessage;
    Messages.SubscribeRoundTripIff(r, invokeId);
    var q := Asked(r, meaning);
    SubscribeRefinesRegistry(t, source, q, read, now, config);
    assert AskedKey(source, q) == WireKey(source, r);
    assert AskedContract(q, now, config) == WireContract(r, meaning, now, config);
  }

  /** The values a live object may be watched for: what the snapshot keeps, within the wire's limits. */
  predicate Watchable(p: LiveProperty) {
    (p.value.Boolean? || p.value.Unsigned? || p.value.Real? || p.value.Enumerated? ||
     (p.value.BitString? && 1 <= p.value.bitCount <= 24 && Stable(BitString(p.value.bits, p.value.bitCount)))) &&
    p.property != OBJECT_LIST && p.property != PROPERTY_LIST
  }

  function NoticePacket(device: ObjectId, sub: Subscription, notice: Notice, pattern: real -> uint32): Bytes {
    Messages.Notification(Messages.CovIdentity(sub.processId, device, sub.monitored, notice.secondsLeft),
                          CodedItems(notice.values, pattern), notice.confirmed, notice.invokeId)
  }

  /** The client reads every value of a notification, in order, for the subscription it belongs to. */
  lemma NotificationArrives(device: ObjectId, sub: Subscription, notice: Notice, pattern: real -> uint32)
    requires 1 <= |notice.values| <= Messages.MAX_KEPT && ValidObjectId(sub.monitored)
    requires forall p <- notice.values :: Watchable(p)
    ensures var seen := Messages.ParseCovNotification(NoticePacket(device, sub, notice, pattern));
            seen.Done? && seen.value.processId == sub.processId && seen.value.monitored == sub.monitored &&
            seen.value.kept == CodedItems(notice.values, pattern) && seen.value.confirmed == notice.confirmed &&
            seen.value.primary == Messages.Primary(CodedItems(notice.values, pattern)) &&
            (notice.confirmed ==> seen.value.invokeId == notice.invokeId)
  {
    hide Messages.ParseCovNotification, Messages.Notification, Messages.Primary;
    var items := CodedItems(notice.values, pattern);
    var id := Messages.CovIdentity(sub.processId, device, sub.monitored, notice.secondsLeft);
    forall i | 0 <= i < |items|
      ensures Encodable(items[i].value) && Faithful(items[i].value, items[i].property, items[i].arrayIndex)
    {
      assert notice.values[i] in notice.values;
      WatchableIsFaithful(notice.values[i], pattern);
    }
    Messages.NotificationRoundTripIff(id, items, notice.confirmed, notice.invokeId);
  }

  /**
   From the server's table to the client's subscription: a notification for the object and process id
   a subscription asked with is taken by that subscription, which takes over the value its property has.
   */
  lemma NotifiedValueArrives(
    device: ObjectId, peer: Endpoint, sub: Subscription, notice: Notice, pattern: real -> uint32,
    request: PropertyRequest, i: nat)
    requires 1 <= |notice.values| <= Messages.MAX_KEPT && ValidObjectId(sub.monitored)
    requires forall p <- notice.values :: Watchable(p)
    requires sub.monitored == request.objectId && sub.processId == Inbox.ProcessIdOf(request.objectId)
    requires i < |notice.values| && Inbox.About(notice.values[i], request)
    requires forall k :: 0 <= k < i ==> !Inbox.About(notice.values[k], request)
    ensures var seen := Messages.ParseCovNotification(NoticePacket(device, sub, notice, pattern));
            seen.Done? &&
            Inbox.Matches(Inbox.Interest(peer, Some(Inbox.ProcessIdOf(request.objectId)), request),
                          Inbox.Incoming(peer, seen.value)) &&
            Inbox.ValueFor(seen.value, request) == Coded(notice.values[i].value, pattern)
  {
    hide Messages.ParseCovNotification, NoticePacket, Messages.Primary, Inbox.ProcessIdOf, Watchable, ValidObjectId;
    NotificationArrives(device, sub, notice, pattern);
    var items := CodedItems(notice.values, pattern);
    assert Inbox.About(items[i], request);
    assert forall k :: 0 <= k < i ==> Inbox.About(items[k], request) == Inbox.About(notice.values[k], request);
  }

  lemma WatchableIsFaithful(p: LiveProperty, pattern: real -> uint32)
    requires Watchable(p)
    ensures var v := Coded(p.value, pattern); Encodable(v) && Faithful(v, p.property, p.arrayIndex)
  {}

  /** The slot waits for an answer from this peer to this invoke id. */
  predicate Waits(slot: Slot, peer: Endpoint, invokeId: uint8) {
    slot.sub.state == AwaitingConfirmedAck && slot.sub.peer == peer && slot.sub.pendingInvokeId == invokeId
  }

  lemma {:induction false} FindsFirstWaiting(slots: seq<Slot>, from: nat, peer: Endpoint, invokeId: uint8)
    requires from <= |slots|
    ensures var i := FindAnswered(slots, from, peer, SimpleAck(invokeId, SERVICE_CONFIRMED_COV));
            (i < |slots| ==> Waits(slots[i], peer, invokeId)) &&
            (forall j :: from <= j < i ==> !Waits(slots[j], peer, invokeId))
    decreases |slots| - from
  {
    hide ClassifyCovResponse, SimpleAck;
    if from < |slots| {
      AcknowledgementIsRecognised(invokeId, SERVICE_CONFIRMED_COV, slots[from].sub.pendingInvokeId);
      FindsFirstWaiting(slots, from + 1, peer, invokeId);
    }
  }

  /** The packet answers what this slot waits for. */
  predicate AnsweredBy(slot: Slot, source: Endpoint, packet: Bytes) {
    slot.sub.state == AwaitingConfirmedAck && slot.sub.peer == source &&
    !ClassifyCovResponse(packet, slot.sub.pendingInvokeId).NoResponse?
  }

  lemma {:induction false} FindsFirstAnswered(slots: seq<Slot>, from: nat, source: Endpoint, packet: Bytes)
    requires from <= |slots|
    ensures var i := FindAnswered(slots, from, source, packet);
            (i < |slots| ==> AnsweredBy(slots[i], source, packet)) &&
            (forall j :: from <= j < i ==> !AnsweredBy(slots[j], source, packet))
    decreases |slots| - from
  {
    hide ClassifyCovResponse;
    if from < |slots| {
      FindsFirstAnswered(slots, from + 1, source, packet);
    }
  }

  /** What is left of a wait: the slot is active with no retransmissions counted, and an ack is dated. */
  function WaitEnded(slot: Slot, acknowledged: bool, now: uint32): Slot {
    slot.(sub := slot.sub.(state := Active, lastAck := if acknowledged then now else slot.sub.lastAck),
          confirmedRetries := 0)
  }

  /** Any packet ends the wait of the first slot it answers, and changes nothing else or nothing at all. */
  lemma AnswerSettlesFirst(t: Table, source: Endpoint, packet: Bytes, now: uint32)
    ensures match Answer(t, source, packet, now)
            case None => forall j :: 0 <= j < |t.slots| ==> !AnsweredBy(t.slots[j], source, packet)
            case Some(r) =>
              exists i :: 0 <= i < |t.slots| && AnsweredBy(t.slots[i], source, packet) &&
                (forall j :: 0 <= j < i ==> !AnsweredBy(t.slots[j], source, packet)) &&
                r.outputs == [Settled(i)] && r.table == t.(slots := t.slots[i :=
                  WaitEnded(t.slots[i], ClassifyCovResponse(packet, t.slots[i].sub.pendingInvokeId).Ack?, now)])
  {
    hide ClassifyCovResponse;
    FindsFirstAnswered(t.slots, 0, source, packet);
  }

  /** An acknowledgement settles the first slot that waits for it, and is ignored if none does. */
  lemma AcknowledgementSettles(t: Table, peer: Endpoint, invokeId: uint8, now: uint32)
    ensures var r := Answer(t, peer, SimpleAck(invokeId, SERVICE_CONFIRMED_COV), now);
            match r
            case None => forall j :: 0 <= j < |t.slots| ==> !Waits(t.slots[j], peer, invokeId)
            case Some(outcome) =>
              exists i :: 0 <= i < |t.slots| && Waits(t.slots[i], peer, invokeId) &&
                (forall j :: 0 <= j < i ==> !Waits(t.slots[j], peer, invokeId)) &&
                outcome.table == t.(slots := t.slots[i := WaitEnded(t.slots[i], true, now)])
  {
    hide ClassifyCovResponse, SimpleAck;
    var packet := SimpleAck(invokeId, SERVICE_CONFIRMED_COV);
    var i := FindAnswered(t.slots, 0, peer, packet);
    FindsFirstWaiting(t.slots, 0, peer, invokeId);
    if i < |t.slots| {
      AcknowledgementIsRecognised(invokeId, SERVICE_CONFIRMED_COV, t.slots[i].sub.pendingInvokeId);
      assert Waits(t.slots[i], peer, invokeId);
    }
  }

  /**
   A confirmed notification, the client's acknowledgement of what it read, and the server's answer
   loop: the slot that sent it is active again with no retransmissions counted, and no other slot
   has changed.
   */
  ghost predicate ExchangeSettles(
    t: Table, i: nat, values: seq<LiveProperty>, retransmission: bool, sentAt: uint32, answeredAt: uint32,
    config: Config, device: ObjectId, pattern: real -> uint32)
    requires i < |t.slots| && |values| <= |t.slots[i].cells|
  {
    var sent := Send(t.slots[i], t.nextInvokeId, values, retransmission, sentAt, config, true);
    var waiting := Table(t.slots[i := sent.slot], sent.nextInvokeId);
    var seen := Messages.ParseCovNotification(NoticePacket(device, t.slots[i].sub, sent.notice, pattern));
    seen.Done? && seen.value.confirmed && seen.value.kept == CodedItems(values, pattern) &&
    var packet := SimpleAck(seen.value.invokeId, SERVICE_CONFIRMED_COV);
    var answer := Answer(waiting, t.slots[i].sub.peer, packet, answeredAt);
    answer.Some? &&
    answer.value.table == waiting.(slots := waiting.slots[i := WaitEnded(sent.slot, true, answeredAt)])
  }

  /** The exchange settles its slot if and only if no earlier slot waits for the same peer and invoke id. */
  lemma ConfirmedExchangeIff(
    t: Table, i: nat, values: seq<LiveProperty>, retransmission: bool, sentAt: uint32, answeredAt: uint32,
    config: Config, device: ObjectId, pattern: real -> uint32)
    requires i < |t.slots| && t.slots[i].sub.confirmed && |t.slots[i].cells| == PROPERTY_COUNT
    requires 1 <= |values| <= PROPERTY_COUNT && ValidObjectId(t.slots[i].sub.monitored)
    requires forall p <- values :: Watchable(p)
    ensures ExchangeSettles(t, i, values, retransmission, sentAt, answeredAt, config, device, pattern)
            <==> forall j :: 0 <= j < i ==> !Waits(t.slots[j], t.slots[i].sub.peer, t.nextInvokeId)
  {
    hide Messages.ParseCovNotification, NoticePacket, Answer, SimpleAck, Stored, Remaining, NextInvokeId;
    var peer := t.slots[i].sub.peer;
    var sent := Send(t.slots[i], t.nextInvokeId, values, retransmission, sentAt, config, true);
    var waiting := Table(t.slots[i := sent.slot], sent.nextInvokeId);
    NotificationArrives(device, t.slots[i].sub, sent.notice, pattern);
    AcknowledgementSettles(waiting, peer, t.nextInvokeId, answeredAt);
    assert Waits(waiting.slots[i], peer, t.nextInvokeId);
    var answer := Answer(waiting, peer, SimpleAck(t.nextInvokeId, SERVICE_CONFIRMED_COV), answeredAt).value.table;
    var f :| 0 <= f < |waiting.slots| && Waits(waiting.slots[f], peer, t.nextInvokeId) &&
             (forall j :: 0 <= j < f ==> !Waits(waiting.slots[j], peer, t.nextInvokeId)) &&
             answer == waiting.(slots := waiting.slots[f := WaitEnded(waiting.slots[f], true, answeredAt)]);
    assert f <= i;
    if f < i {
      assert Waits(t.slots[f], peer, t.nextInvokeId);
      assert answer.slots[f].sub.state == Active;
      assert waiting.slots[f].sub.state == AwaitingConfirmedAck;
    } else {
      assert forall j :: 0 <= j < i ==> waiting.slots[j] == t.slots[j];
    }
  }
}
