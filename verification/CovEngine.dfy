/**
 The server's COV engine as pure steps over its table: a subscription request, an answer to a
 confirmed notification, and one sweep of the table (clauses 13.1, 13.6, 13.14 and 13.15 of
 ASHRAE 135). The class `CovServer` performs these steps in place.
 */
module CovEngine {
  import opened BacnetTypes
  import opened WrappingClock
  import opened Framing

  // ----- the table

  datatype SubscriptionState = Inactive | Active | AwaitingConfirmedAck

  type LiveValue = Value<real>

  type LiveProperty = PropertyValue<real>

  datatype Subscription = Subscription(
    state: SubscriptionState,
    peer: Endpoint,
    processId: uint32,
    monitored: ObjectId,
    property: uint32,
    arrayIndex: uint32,
    isProperty: bool,
    hasIncrement: bool,
    increment: real,
    confirmed: bool,
    lifetime: uint32,
    expiresAt: uint32,
    lastSent: uint32,
    lastAck: uint32,
    pendingInvokeId: uint8)

  const NO_ENDPOINT := Endpoint(0, 0, 0, 0, 47808)

  const EMPTY := Subscription(Inactive, NO_ENDPOINT, 0, ObjectId(0, 0), PRESENT_VALUE, NO_ARRAY_INDEX,
                              false, false, 0.0, false, 0, 0, 0, 0, 0)

  datatype ValueKind =
    | EmptyKind | NullKind | BooleanKind | UnsignedKind | SignedKind | RealKind | BitStringKind
    | EnumeratedKind | TextKind | ObjectIdKind | ObjectIdListKind | PropertyIdListKind | UnsupportedKind

  /** What the table remembers of one value last sent: its type and five of its fields. */
  datatype Cell = Cell(
    valid: bool, kind: ValueKind, on: bool, number: uint32, measure: real, bits: uint32, bitCount: uint8)

  const PROPERTY_COUNT: nat := 2

  datatype Slot = Slot(
    sub: Subscription, cells: seq<Cell>, confirmedRetries: uint8, sendRetries: uint8, retryAt: uint32)

  predicate Live(slot: Slot) {
    slot.sub.state != Inactive
  }

  /** Forgets a subscription. A cancelled slot keeps its send back-off; only a sweep clears that. */
  function Cleared(slot: Slot): Slot {
    Slot(EMPTY, Invalidated(slot.cells), 0, slot.sendRetries, slot.retryAt)
  }

  function Invalidated(cells: seq<Cell>): (r: seq<Cell>)
    ensures |r| == |cells|
    ensures forall j :: 0 <= j < |cells| ==> r[j] == cells[j].(valid := false)
  {
    seq(|cells|, j requires 0 <= j < |cells| => cells[j].(valid := false))
  }

  // ----- values and snapshots

  function Kind(v: LiveValue): ValueKind {
    match v
    case Empty => EmptyKind
    case Null => NullKind
    case Boolean(_) => BooleanKind
    case Unsigned(_) => UnsignedKind
    case Signed(_) => SignedKind
    case Real(_) => RealKind
    case BitString(_, _) => BitStringKind
    case Enumerated(_) => EnumeratedKind
    case CharacterString(_) => TextKind
    case ObjectIdentifier(_) => ObjectIdKind
    case ObjectIdentifierList(_) => ObjectIdListKind
    case PropertyIdentifierList(_) => PropertyIdListKind
    case Unsupported(_) => UnsupportedKind
  }

  function Snapshot(v: LiveValue): Cell {
    Cell(true, Kind(v),
         v.Boolean? && v.on,
         if v.Unsigned? || v.Enumerated? then v.number else 0,
         if v.Real? then v.measure else 0.0,
         if v.BitString? then v.bits else 0,
         if v.BitString? then v.bitCount else 0)
  }

  /** The value a retransmission makes of a cell; fields that are not remembered read as zero. */
  function Restored(cell: Cell): LiveValue {
    match cell.kind
    case EmptyKind => Empty
    case NullKind => Null
    case BooleanKind => Boolean(cell.on)
    case UnsignedKind => Unsigned(cell.number)
    case SignedKind => Signed(0)
    case RealKind => Real(cell.measure)
    case BitStringKind => BitString(cell.bits, cell.bitCount)
    case EnumeratedKind => Enumerated(cell.number)
    case TextKind => CharacterString([])
    case ObjectIdKind => ObjectIdentifier(ObjectId(0, 0))
    case ObjectIdListKind => ObjectIdentifierList([])
    case PropertyIdListKind => PropertyIdentifierList([])
    case UnsupportedKind => Unsupported(0)
  }

  /** Whether a value at position `index` differs enough from the remembered one to notify. */
  predicate ValueChanged(sub: Subscription, cell: Cell, v: LiveValue, index: nat) {
    if !cell.valid || cell.kind != Kind(v) then true
    else
      match v
      case Boolean(on) => cell.on != on
      case Real(measure) =>
        cell.measure != measure &&
        (!sub.hasIncrement || index != 0 ||
         (if measure - cell.measure < 0.0 then cell.measure - measure else measure - cell.measure) >= sub.increment)
      case BitString(bits, count) => cell.bits != bits || cell.bitCount != count
      case Unsigned(n) => cell.number != n
      case Enumerated(n) => cell.number != n
      case _ => true
  }

  predicate AnyChanged(sub: Subscription, cells: seq<Cell>, values: seq<LiveProperty>, from: nat)
    requires from <= |values| <= |cells|
    decreases |values| - from
  {
    from < |values| &&
    (ValueChanged(sub, cells[from], values[from].value, from) || AnyChanged(sub, cells, values, from + 1))
  }

  /** The objects as the application presents them at one instant. */
  type Reader = map<(ObjectId, uint32), LiveValue>

  /** COV never reads array elements. */
  function ReadCov(read: Reader, objectId: ObjectId, property: uint32, arrayIndex: uint32): Option<LiveValue> {
    if arrayIndex == NO_ARRAY_INDEX && (objectId, property) in read then Some(read[(objectId, property)]) else None
  }

  /** The properties every notification of this subscription is about, in the order it carries them. */
  function WatchedProperties(sub: Subscription): seq<uint32> {
    if sub.isProperty then [sub.property] else [PRESENT_VALUE, STATUS_FLAGS]
  }

  /** All of them can be read; nothing can be read under an array index. */
  predicate Readable(read: Reader, sub: Subscription) {
    (sub.isProperty ==> sub.arrayIndex == NO_ARRAY_INDEX) &&
    forall p <- WatchedProperties(sub) :: (sub.monitored, p) in read
  }

  /** Exactly the watched properties, each with what the monitored object reads under it. */
  predicate Carries(values: seq<LiveProperty>, read: Reader, sub: Subscription) {
    var properties := WatchedProperties(sub);
    |values| == |properties| &&
    forall k :: 0 <= k < |values| ==>
      (sub.monitored, properties[k]) in read &&
      values[k] == PropertyValue(properties[k], NO_ARRAY_INDEX, read[(sub.monitored, properties[k])])
  }

  /** What a notification of this subscription carries now, or nothing when a property is unreadable. */
  function Collect(read: Reader, sub: Subscription): (r: Option<seq<LiveProperty>>)
    ensures r.Some? ==> 1 <= |r.value| <= PROPERTY_COUNT
  {
    if sub.isProperty then
      match ReadCov(read, sub.monitored, sub.property, sub.arrayIndex)
      case None => None
      case Some(v) => Some([PropertyValue(sub.property, sub.arrayIndex, v)])
    else
      match (ReadCov(read, sub.monitored, PRESENT_VALUE, NO_ARRAY_INDEX),
             ReadCov(read, sub.monitored, STATUS_FLAGS, NO_ARRAY_INDEX))
      case (Some(v), Some(flags)) =>
        Some([PropertyValue(PRESENT_VALUE, NO_ARRAY_INDEX, v),
              PropertyValue(STATUS_FLAGS, NO_ARRAY_INDEX, flags)])
      case _ => None
  }

  lemma CollectIff(read: Reader, sub: Subscription)
    ensures Collect(read, sub).Some? <==> Readable(read, sub)
    ensures Collect(read, sub).Some? ==> Carries(Collect(read, sub).value, read, sub)
  {
    assert WatchedProperties(sub)[0] in WatchedProperties(sub);
    if !sub.isProperty {
      assert WatchedProperties(sub)[1] in WatchedProperties(sub);
    }
  }

  /** What a retransmission carries: the remembered values under the subscription's properties. */
  function Recollect(sub: Subscription, cells: seq<Cell>): (values: seq<LiveProperty>)
    requires |cells| == PROPERTY_COUNT
    ensures 1 <= |values| <= PROPERTY_COUNT
  {
    if sub.isProperty then [PropertyValue(sub.property, sub.arrayIndex, Restored(cells[0]))]
    else [PropertyValue(PRESENT_VALUE, NO_ARRAY_INDEX, Restored(cells[0])),
          PropertyValue(STATUS_FLAGS, NO_ARRAY_INDEX, Restored(cells[1]))]
  }

  function Stored(cells: seq<Cell>, values: seq<LiveProperty>): (r: seq<Cell>)
    requires |values| <= |cells|
    ensures |r| == |cells|
    ensures forall j :: 0 <= j < |values| ==> r[j] == Snapshot(values[j].value)
    ensures forall j :: |values| <= j < |cells| ==> r[j] == cells[j]
  {
    seq(|cells|, j requires 0 <= j < |cells| => if j < |values| then Snapshot(values[j].value) else cells[j])
  }

  // ----- sending

  datatype Config = Config(hasClock: bool, apduTimeout: uint32, maxRetries: uint32)

  /** One notification handed to the transport. */
  datatype Notice = Notice(
    retransmission: bool, confirmed: bool, invokeId: uint8, secondsLeft: uint32,
    values: seq<LiveProperty>, delivered: bool)

  /** An 8-bit counter: 255 is followed by 0. */
  function Increment(n: uint8): (r: uint8) {
    if n == 255 then 0 else n + 1
  }

  /** 1 to 255 and round again; zero stands for "none". */
  function NextInvokeId(id: uint8, used: bool): (next: uint8)
    ensures next != 0
  {
    var n := if used then Increment(id) else id;
    if n == 0 then 1 else n
  }

  function Remaining(sub: Subscription, now: uint32, config: Config): uint32 {
    if sub.lifetime == 0 || !config.hasClock then 0 else SecondsLeft(sub.expiresAt, now)
  }

  datatype SendResult = SendResult(slot: Slot, nextInvokeId: uint8, notice: Notice)

  function Send(
    slot: Slot, nextInvokeId: uint8, values: seq<LiveProperty>, retransmission: bool,
    now: uint32, config: Config, delivered: bool): SendResult
    requires |values| <= |slot.cells|
  {
    var sub := slot.sub;
    var invokeId := if sub.confirmed then nextInvokeId else 0;
    var notice := Notice(retransmission, sub.confirmed, invokeId, Remaining(sub, now, config), values, delivered);
    var slot' :=
      if delivered then
        slot.(sub := sub.(lastSent := now, pendingInvokeId := invokeId,
                          state := if sub.confirmed then AwaitingConfirmedAck else Active),
              cells := Stored(slot.cells, values), sendRetries := 0, retryAt := 0)
      else
        var retries := if slot.sendRetries < config.maxRetries then Increment(slot.sendRetries) else slot.sendRetries;
        slot.(sendRetries := retries, retryAt := RetryDeadline(now, config.apduTimeout, retries));
    SendResult(slot', NextInvokeId(nextInvokeId, sub.confirmed), notice)
  }

  // ----- the sweep

  /** What one slot does when the sweep reaches it. */
  datatype SlotStep = Skip(slot: Slot, event: Option<SlotEvent>) | Transmit(result: SendResult)

  datatype SlotEvent = Expired | GaveUp

  predicate HasExpired(sub: Subscription, now: uint32, config: Config) {
    sub.lifetime != 0 && config.hasClock && Reached(now, sub.expiresAt)
  }

  predicate BackingOff(slot: Slot, now: uint32) {
    slot.retryAt != 0 && !Reached(now, slot.retryAt)
  }

  predicate AckOverdue(sub: Subscription, now: uint32, config: Config) {
    config.hasClock && Wrap(now - sub.lastSent) >= config.apduTimeout
  }

  /** A slot that waits for an acknowledgement: wait on, retransmit, or give up. */
  function SweepAwaiting(
    slot: Slot, nextInvokeId: uint8, now: uint32, config: Config, delivered: bool): (step: SlotStep)
    requires |slot.cells| == PROPERTY_COUNT
    ensures |(if step.Skip? then step.slot else step.result.slot).cells| == PROPERTY_COUNT
  {
    if !AckOverdue(slot.sub, now, config) then Skip(slot, None)
    else if slot.confirmedRetries >= config.maxRetries then
      Skip(slot.(sub := slot.sub.(state := Active), confirmedRetries := 0), Some(GaveUp))
    else
      Transmit(Send(slot.(confirmedRetries := Increment(slot.confirmedRetries)), nextInvokeId,
                    Recollect(slot.sub, slot.cells), true, now, config, delivered))
  }

  function SweepSlot(
    slot: Slot, nextInvokeId: uint8, read: Reader, now: uint32, config: Config, delivered: bool): (step: SlotStep)
    requires |slot.cells| == PROPERTY_COUNT
    ensures |(if step.Skip? then step.slot else step.result.slot).cells| == PROPERTY_COUNT
  {
    var sub := slot.sub;
    if sub.state == Inactive then Skip(slot, None)
    else if HasExpired(sub, now, config) then
      Skip(Cleared(slot).(sendRetries := 0, retryAt := 0), Some(Expired))
    else if BackingOff(slot, now) then Skip(slot, None)
    else if sub.state == AwaitingConfirmedAck then SweepAwaiting(slot, nextInvokeId, now, config, delivered)
    else
      match Collect(read, sub)
      case None => Skip(slot, None)
      case Some(values) =>
        if !AnyChanged(sub, slot.cells, values, 0) then Skip(slot, None)
        else Transmit(Send(slot.(confirmedRetries := 0), nextInvokeId, values, false, now, config, delivered))
  }

  datatype Table = Table(slots: seq<Slot>, nextInvokeId: uint8)

  const NO_CELL := Cell(false, EmptyKind, false, 0, 0.0, 0, 0)

  /** A table of `n` free slots. */
  function StartTable(n: nat): (t: Table)
    ensures Shaped(t) && |t.slots| == n
  {
    Table(seq(n, i => Slot(EMPTY, [NO_CELL, NO_CELL], 0, 0, 0)), 1)
  }

  predicate Shaped(t: Table) {
    forall i :: 0 <= i < |t.slots| ==> |t.slots[i].cells| == PROPERTY_COUNT
  }

  datatype PollResult =
    | NoDatagram | Ignored | SubscribeCovAckSent | SubscribeCovErrorSent | CovNotificationSent | SendFailed

  /** What an observer of the server sees happen to a slot. */
  datatype Output =
    | Granted(index: nat, terms: Subscription)
    | Cancelled(index: nat)
    | Dropped(index: nat)
    | Settled(index: nat)
    | Sent(index: nat, notice: Notice)

  datatype Outcome = Outcome(table: Table, result: PollResult, outputs: seq<Output>)

  function EventOutput(index: nat, event: Option<SlotEvent>): seq<Output> {
    match event
    case None => []
    case Some(Expired) => [Dropped(index)]
    case Some(GaveUp) => [Settled(index)]
  }

  /** The sweep from slot `from` on: it stops at the first slot that transmits. */
  function SweepFrom(
    t: Table, from: nat, read: Reader, now: uint32, config: Config, delivered: bool): (r: Outcome)
    requires Shaped(t) && from <= |t.slots|
    ensures Shaped(r.table) && |r.table.slots| == |t.slots|
    ensures r.result == NoDatagram || r.result == CovNotificationSent || r.result == SendFailed
    decreases |t.slots| - from
  {
    if from == |t.slots| then Outcome(t, NoDatagram, [])
    else
      match SweepSlot(t.slots[from], t.nextInvokeId, read, now, config, delivered)
      case Skip(slot, event) =>
        var rest := SweepFrom(t.(slots := t.slots[from := slot]), from + 1, read, now, config, delivered);
        Outcome(rest.table, rest.result, EventOutput(from, event) + rest.outputs)
      case Transmit(sent) =>
        Outcome(Table(t.slots[from := sent.slot], sent.nextInvokeId),
                if delivered then CovNotificationSent else SendFailed,
                [Sent(from, sent.notice)])
  }

  function Sweep(t: Table, read: Reader, now: uint32, config: Config, delivered: bool): Outcome
    requires Shaped(t)
  {
    SweepFrom(t, 0, read, now, config, delivered)
  }

  /**
   Outputs about slots from `from` on, every fresh notification carrying what the objects read now
   under the properties of its slot.
   */
  predicate SentTruly(outputs: seq<Output>, from: nat, slots: seq<Slot>, read: Reader) {
    forall o <- outputs ::
      from <= o.index < |slots| &&
      (o.Sent? && !o.notice.retransmission ==> Carries(o.notice.values, read, slots[o.index].sub))
  }

  lemma FreshStepCarries(
    slot: Slot, nextInvokeId: uint8, read: Reader, now: uint32, config: Config, delivered: bool)
    requires |slot.cells| == PROPERTY_COUNT
    ensures var step := SweepSlot(slot, nextInvokeId, read, now, config, delivered);
            step.Transmit? && !step.result.notice.retransmission ==>
              Carries(step.result.notice.values, read, slot.sub)
  {
    hide Collect, Carries, AnyChanged, Recollect, Reached, Wrap, Stored, RetryDeadline, Remaining, NextInvokeId;
    CollectIff(read, slot.sub);
  }

  /** A later slot's notifications, seen after this slot was replaced and its events were put before them. */
  lemma EventsSendTruly(
    i: nat, event: Option<SlotEvent>, rest: seq<Output>, slots: seq<Slot>, slot: Slot, read: Reader)
    requires i < |slots| && SentTruly(rest, i + 1, slots[i := slot], read)
    ensures SentTruly(EventOutput(i, event) + rest, i, slots, read)
  {
    hide Carries;
    var all := EventOutput(i, event) + rest;
    forall k | 0 <= k < |all|
      ensures i <= all[k].index < |slots| &&
              (all[k].Sent? && !all[k].notice.retransmission ==>
                 Carries(all[k].notice.values, read, slots[all[k].index].sub))
    {
      assert all[k] in rest || (all[k].index == i && !all[k].Sent?);
    }
  }

  lemma {:induction false} SweepSendsTruly(
    t: Table, from: nat, read: Reader, now: uint32, config: Config, delivered: bool)
    requires Shaped(t) && from <= |t.slots|
    ensures SentTruly(SweepFrom(t, from, read, now, config, delivered).outputs, from, t.slots, read)
    decreases |t.slots| - from
  {
    hide SweepSlot, Carries, EventOutput;
    if from < |t.slots| {
      FreshStepCarries(t.slots[from], t.nextInvokeId, read, now, config, delivered);
      match SweepSlot(t.slots[from], t.nextInvokeId, read, now, config, delivered)
      case Skip(slot, event) =>
        var t' := t.(slots := t.slots[from := slot]);
        SweepSendsTruly(t', from + 1, read, now, config, delivered);
        hide SentTruly;
        EventsSendTruly(from, event, SweepFrom(t', from + 1, read, now, config, delivered).outputs, t.slots, slot,
                        read);
      case Transmit(_) =>
    }
  }

  // ----- answers to confirmed notifications

  predicate Settles(kind: ResponseKind) {
    kind != NoResponse
  }

  /** The first awaiting slot of that peer whose pending invoke id the packet answers. */
  function FindAnswered(slots: seq<Slot>, from: nat, source: Endpoint, packet: Bytes): (i: nat)
    requires from <= |slots|
    ensures from <= i <= |slots|
    decreases |slots| - from
  {
    if from == |slots| then from
    else if slots[from].sub.state == AwaitingConfirmedAck && slots[from].sub.peer == source &&
            Settles(ClassifyCovResponse(packet, slots[from].sub.pendingInvokeId)) then from
    else FindAnswered(slots, from + 1, source, packet)
  }

  function Answered(slot: Slot, kind: ResponseKind, now: uint32): Slot {
    slot.(sub := if kind == Ack then slot.sub.(state := Active, lastAck := now) else slot.sub.(state := Active),
          confirmedRetries := 0)
  }

  /** The acknowledgement loop; `None` when no slot was waiting for this packet. */
  function Answer(t: Table, source: Endpoint, packet: Bytes, now: uint32): Option<Outcome> {
    var i := FindAnswered(t.slots, 0, source, packet);
    if i == |t.slots| then None
    else
      var kind := ClassifyCovResponse(packet, t.slots[i].sub.pendingInvokeId);
      Some(Outcome(t.(slots := t.slots[i := Answered(t.slots[i], kind, now)]), Ignored, [Settled(i)]))
  }

  // ----- subscription requests

  datatype Request = Request(
    processId: uint32, monitored: ObjectId, isProperty: bool, property: uint32, arrayIndex: uint32,
    confirmed: bool, lifetime: uint32, hasIncrement: bool, increment: real)

  /** The object form always concerns Present_Value. */
  function RequestProperty(q: Request): uint32 {
    if q.isProperty then q.property else PRESENT_VALUE
  }

  /** What the request is answered with. */
  datatype Reply = AckReply | ErrorReply(errorClass: uint32, errorCode: uint32)

  const UNKNOWN_PROPERTY := ErrorReply(2, 32)
  const OUT_OF_RANGE := ErrorReply(2, 37)
  const NO_SPACE := ErrorReply(2, 18)

  /** Why a request is refused before the table is looked at. */
  function Refusal(q: Request, read: Reader): Option<Reply> {
    match ReadCov(read, q.monitored, RequestProperty(q), q.arrayIndex)
    case None => Some(UNKNOWN_PROPERTY)
    case Some(v) =>
      if !q.isProperty && ReadCov(read, q.monitored, STATUS_FLAGS, NO_ARRAY_INDEX) == None then
        Some(UNKNOWN_PROPERTY)
      else if q.hasIncrement && (!q.isProperty || RequestProperty(q) != PRESENT_VALUE || !v.Real?) then
        Some(OUT_OF_RANGE)
      else None
  }

  /** What identifies a subscription. */
  datatype Key = Key(
    peer: Endpoint, processId: uint32, monitored: ObjectId, isProperty: bool, property: uint32, arrayIndex: uint32)

  function KeyOf(sub: Subscription): Key {
    Key(sub.peer, sub.processId, sub.monitored, sub.isProperty, sub.property, sub.arrayIndex)
  }

  function RequestKey(source: Endpoint, q: Request): Key {
    Key(source, q.processId, q.monitored, q.isProperty, RequestProperty(q), q.arrayIndex)
  }

  datatype Found = Found(matched: Option<nat>, free: Option<nat>)

  /** The table scan: the match if there is one, and the first free slot passed on the way. */
  function Find(slots: seq<Slot>, key: Key, from: nat, free: Option<nat>): (f: Found)
    requires from <= |slots|
    decreases |slots| - from
  {
    if from == |slots| then Found(None, free)
    else if !Live(slots[from]) then Find(slots, key, from + 1, if free == None then Some(from) else free)
    else if KeyOf(slots[from].sub) == key then Found(Some(from), free)
    else Find(slots, key, from + 1, free)
  }

  lemma {:induction false} FindIsInRange(slots: seq<Slot>, key: Key, from: nat, free: Option<nat>)
    requires from <= |slots|
    requires free.Some? ==> free.value < from && !Live(slots[free.value])
    ensures var f := Find(slots, key, from, free);
            (f.matched.Some? ==> from <= f.matched.value < |slots| && Live(slots[f.matched.value]) &&
                                 KeyOf(slots[f.matched.value].sub) == key) &&
            (f.free.Some? ==> f.free.value < |slots| && !Live(slots[f.free.value])) &&
            (f.matched.None? ==> forall i :: from <= i < |slots| && Live(slots[i]) ==> KeyOf(slots[i].sub) != key) &&
            (f.matched.None? && f.free.None? ==> forall i :: from <= i < |slots| ==> Live(slots[i])) &&
            (free.Some? ==> f.free.Some?)
    decreases |slots| - from
  {
    if from < |slots| {
      if !Live(slots[from]) {
        FindIsInRange(slots, key, from + 1, if free == None then Some(from) else free);
      } else if KeyOf(slots[from].sub) != key {
        FindIsInRange(slots, key, from + 1, free);
      }
    }
  }

  function GrantedTerms(source: Endpoint, q: Request, now: uint32, config: Config): Subscription {
    EMPTY.(state := Active, peer := source, processId := q.processId, monitored := q.monitored,
           property := RequestProperty(q), arrayIndex := q.arrayIndex, isProperty := q.isProperty,
           hasIncrement := q.hasIncrement, increment := q.increment, confirmed := q.confirmed,
           lifetime := q.lifetime,
           expiresAt := if config.hasClock then Wrap(now + Wrap(q.lifetime * 1000)) else 0)
  }

  function GrantSlot(slot: Slot, terms: Subscription): Slot {
    Slot(terms, Invalidated(slot.cells), 0, 0, 0)
  }

  function Reported(reply: Reply, delivered: bool): PollResult {
    if !delivered then SendFailed else if reply == AckReply then SubscribeCovAckSent else SubscribeCovErrorSent
  }

  /** The table after a request, what happened, and the reply. */
  function Decide(t: Table, source: Endpoint, q: Request, read: Reader, now: uint32, config: Config)
    : (Table, seq<Output>, Reply)
  {
    match Refusal(q, read)
    case Some(reply) => (t, [], reply)
    case None =>
      var f := Find(t.slots, RequestKey(source, q), 0, None);
      FindIsInRange(t.slots, RequestKey(source, q), 0, None);
      if q.lifetime == 0 then
        match f.matched
        case None => (t, [], AckReply)
        case Some(i) => (t.(slots := t.slots[i := Cleared(t.slots[i])]), [Cancelled(i)], AckReply)
      else
        match if f.matched.Some? then f.matched else f.free
        case None => (t, [], NO_SPACE)
        case Some(i) =>
          var terms := GrantedTerms(source, q, now, config);
          (t.(slots := t.slots[i := GrantSlot(t.slots[i], terms)]), [Granted(i, terms)], AckReply)
  }

  function Subscribe(
    t: Table, source: Endpoint, q: Request, read: Reader, now: uint32, config: Config, delivered: bool): Outcome
  {
    var (t', outputs, reply) := Decide(t, source, q, read, now, config);
    Outcome(t', Reported(reply, delivered), outputs)
  }
}
