/** COV notifications and the two subscription requests (clauses 13.1, 13.6, 13.14 and 13.15 of ASHRAE 135). */
module CovMessages {
  import opened BacnetTypes
  import opened ApplicationValue
  import opened ContextTag
  import opened Framing

  const OPEN_LIST: uint8 := 0x4E
  const CLOSE_LIST: uint8 := 0x4F
  const OPEN_ITEM: uint8 := 0x2E
  const CLOSE_ITEM: uint8 := 0x2F

  // ----- notifications: the format

  function PropertyItem(item: WireProperty, tail: Bytes): Bytes {
    ContextUnsigned(0, item.property) +
    (ContextIndex(1, item.arrayIndex) + Bracketed(OPEN_ITEM, item.value, CLOSE_ITEM, tail))
  }

  function PropertyItems(items: seq<WireProperty>, tail: Bytes): Bytes {
    if items == [] then tail else PropertyItem(items[0], PropertyItems(items[1..], tail))
  }

  /** Who subscribed, to what, through which device, and for how much longer. */
  datatype CovIdentity =
    CovIdentity(processId: uint32, device: ObjectId, monitored: ObjectId, secondsLeft: uint32)

  function NotificationParameters(id: CovIdentity, list: Bytes): Bytes {
    ContextUnsigned(0, id.processId) +
    (ContextWord(1, ObjectIdWord(id.device)) +
     (ContextWord(2, ObjectIdWord(id.monitored)) + (ContextUnsigned(3, id.secondsLeft) + list)))
  }

  function PropertyList(items: seq<WireProperty>): Bytes {
    [OPEN_LIST] + PropertyItems(items, [CLOSE_LIST])
  }

  function NotificationApdu(confirmed: bool, invokeId: uint8, parameters: Bytes): Bytes {
    if confirmed then ConfirmedApdu(invokeId, SERVICE_CONFIRMED_COV, parameters) else [0x10, 0x02] + parameters
  }

  function Notification(id: CovIdentity, items: seq<WireProperty>, confirmed: bool, invokeId: uint8): Bytes {
    Frame([NPDU_VERSION, if confirmed then EXPECTING_REPLY else 0] +
          NotificationApdu(confirmed, invokeId, NotificationParameters(id, PropertyList(items))))
  }

  // ----- notifications: the parser

  const MAX_KEPT: nat := 4

  datatype CovNotification = CovNotification(
    processId: uint32, monitored: ObjectId, primary: WireProperty, kept: seq<WireProperty>,
    confirmed: bool, invokeId: uint8)

  /** The last Present_Value, or the first property when there is none. */
  function Primary(items: seq<WireProperty>): (item: WireProperty)
    requires items != []
  {
    var last := |items| - 1;
    if last == 0 || items[last].property == PRESENT_VALUE then items[last] else Primary(items[..last])
  }

  function Kept(items: seq<WireProperty>): seq<WireProperty> {
    if |items| <= MAX_KEPT then items else items[..MAX_KEPT]
  }

  /** A trailing priority is read and dropped. */
  function SkipItemPriority(s: Bytes): (r: Parsed<uint32>)
    ensures r.Done? ==> |r.rest| <= |s|
  {
    if HasContextTag(s, 3) && s[0] % 8 < 5 then ParseContext(s, 3) else Done(0, s)
  }

  function ParseItem(s: Bytes): (r: Parsed<WireProperty>)
    ensures r.Done? ==> |r.rest| < |s|
  {
    var (property, s1) :- ParseContext(s, 0);
    var (arrayIndex, s2) :- ParseIndex(s1, 1);
    var (value, s3) :- ParseBracketed(s2, OPEN_ITEM, CLOSE_ITEM, property, arrayIndex);
    var (_, s4) :- SkipItemPriority(s3);
    Done(PropertyValue(property, arrayIndex, value), s4)
  }

  function ParseItems(s: Bytes): Parsed<seq<WireProperty>>
    decreases |s|
  {
    if s == [] || s[0] == CLOSE_LIST then Done([], s)
    else
      var (first, rest) :- ParseItem(s);
      var (others, end) :- ParseItems(rest);
      Done([first] + others, end)
  }

  /** Service and invoke id; the first byte after the frame header decides which of the two forms it is. */
  function ParseNotificationHead(packet: Bytes): Parsed<Option<uint8>> {
    match OpenFrame(packet, 20, true)
    case Fail => Fail
    case Done(_, apdu) =>
      if apdu == [] then Fail
      else if apdu[0] == 0x10 then
        if |apdu| >= 2 && apdu[1] == 0x02 then Done(None, apdu[2..]) else Fail
      else if apdu[0] / 16 == 0 && |apdu| >= 4 && apdu[3] == SERVICE_CONFIRMED_COV then
        Done(Some(apdu[2]), apdu[4..])
      else Fail
  }

  /**
   The head as the code reads it: of a confirmed header it checks for three bytes and then reads
   four. `beyond` is whatever byte lies behind the packet in memory.
   */
  function ReadHead(packet: Bytes, beyond: uint8): Parsed<Option<uint8>> {
    match OpenFrame(packet, 20, true)
    case Fail => Fail
    case Done(_, apdu) =>
      if apdu == [] then Fail
      else if apdu[0] == 0x10 then
        if |apdu| >= 2 && apdu[1] == 0x02 then Done(None, apdu[2..]) else Fail
      else if apdu[0] / 16 == 0 && |apdu| >= 3 then
        var service := if |apdu| == 3 then beyond else apdu[3];
        if service == SERVICE_CONFIRMED_COV then Done(Some(apdu[2]), if |apdu| == 3 then [] else apdu[4..]) else Fail
      else Fail
  }

  /** The packets of which the code reads one byte too many. */
  predicate ReadsBeyond(packet: Bytes) {
    match OpenFrame(packet, 20, true)
    case Fail => false
    case Done(_, apdu) => |apdu| == 3 && apdu[0] / 16 == 0
  }

  /** Apart from those packets the byte behind has no influence, and those are refused whatever it is. */
  lemma ByteBeyondIsHarmless(packet: Bytes, beyond: uint8)
    ensures !ReadsBeyond(packet) ==> ReadHead(packet, beyond) == ParseNotificationHead(packet)
    ensures ReadsBeyond(packet) ==>
              ParseNotificationHead(packet) == Fail && ParseCovNotification(packet) == Fail &&
              (ReadHead(packet, beyond) == Fail || ReadHead(packet, beyond).rest == [])
  {
    hide OpenFrame, ParseNotificationBody;
  }

  /** Only a packet that names a remote network can be one of them. */
  lemma ReadsBeyondNeedsAddress(packet: Bytes)
    requires ReadsBeyond(packet)
    ensures |packet| >= 20 && ((packet[5] / 32) % 2 == 1 || (packet[5] / 8) % 2 == 1)
  {}

  /** Twenty bytes: an eight-byte source address and three bytes of a confirmed header. */
  lemma SourceAddressExample(network: Bytes, address: Bytes, apdu: Bytes)
    requires |network| == 2 && |address| == 8 && |apdu| == 3 && apdu[0] / 16 == 0
    ensures ReadsBeyond([BVLC_IP, UNICAST, 0, 20] + ([NPDU_VERSION, 0x08] + (network + [8] + (address + apdu))))
  {
    var source := network + [8] + (address + apdu);
    var npdu := [NPDU_VERSION, 0x08] + source;
    var packet := [BVLC_IP, UNICAST, 0, 20] + npdu;
    assert packet[4..] == npdu && npdu[2..] == source && source[2] == 8 && source[11..] == apdu;
    assert SkipAddress(source) == Done(8, apdu);
  }

  function ParseNotificationBody(s: Bytes, invokeId: Option<uint8>): Parsed<CovNotification> {
    var (processId, s1) :- ParseContext(s, 0);
    var (device, s2) :- ParseContext(s1, 1);
    var (monitored, s3) :- ParseContext(s2, 2);
    var (secondsLeft, s4) :- ParseContext(s3, 3);
    var (_, s5) :- ParseByte(s4, OPEN_LIST);
    var (items, s6) :- ParseItems(s5);
    if items == [] || s6 != [CLOSE_LIST] then Fail
    else
      Done(CovNotification(processId, ObjectIdOf(monitored), Primary(items), Kept(items), invokeId.Some?,
                           if invokeId.Some? then invokeId.value else 0), [])
  }

  function ParseCovNotification(packet: Bytes): Parsed<CovNotification> {
    var (invokeId, body) :- ParseNotificationHead(packet);
    ParseNotificationBody(body, invokeId)
  }

  // ----- notifications: round trip

  predicate AllEncodable(items: seq<WireProperty>) {
    forall i :: 0 <= i < |items| ==> Encodable(items[i].value)
  }

  predicate AllFaithful(items: seq<WireProperty>)
    requires AllEncodable(items)
  {
    forall i :: 0 <= i < |items| ==> Faithful(items[i].value, items[i].property, items[i].arrayIndex)
  }

  /** What may follow an item: the next item's property tag or the end of the list. */
  predicate EndsItem(tail: Bytes) {
    tail != [] && (tail[0] == CLOSE_LIST || tail[0] / 16 == 0)
  }

  lemma ItemsStart(items: seq<WireProperty>)
    ensures EndsItem(PropertyItems(items, [CLOSE_LIST]))
    ensures items != [] ==> PropertyItems(items, [CLOSE_LIST])[0] != CLOSE_LIST
  {
    if items != [] {
      var code := ContextUnsigned(0, items[0].property);
      assert PropertyItems(items, [CLOSE_LIST])[0] == code[0];
    }
  }

  lemma ItemIff(item: WireProperty, tail: Bytes)
    requires Encodable(item.value) && EndsItem(tail)
    ensures var r := ParseItem(PropertyItem(item, tail));
            if Faithful(item.value, item.property, item.arrayIndex) then r == Done(item, tail)
            else r.Done? ==> r.value.value != item.value
  {
    hide ParseApplication, EncodeApplication, Faithful, ParseBracketed;
    var s2 := Bracketed(OPEN_ITEM, item.value, CLOSE_ITEM, tail);
    ContextUnsignedRoundTrip(0, item.property, ContextIndex(1, item.arrayIndex) + s2);
    ContextIndexRoundTrip(1, item.arrayIndex, s2);
    BracketedIff(OPEN_ITEM, item.value, CLOSE_ITEM, tail, item.property, item.arrayIndex);
  }

  lemma ConsPrefix(items: seq<WireProperty>, first: WireProperty, more: Parsed<seq<WireProperty>>)
    requires items != []
    ensures more.Done? && items <= [first] + more.value ==> items[0] == first && items[1..] <= more.value
  {
    if more.Done? && items <= [first] + more.value {
      assert forall k :: 0 <= k < |items| - 1 ==> items[1..][k] == ([first] + more.value)[k + 1];
    }
  }

  lemma {:induction false} ItemsIff(items: seq<WireProperty>)
    requires AllEncodable(items)
    ensures var r := ParseItems(PropertyItems(items, [CLOSE_LIST]));
            if AllFaithful(items) then r == Done(items, [CLOSE_LIST])
            else r.Done? ==> !(items <= r.value)
  {
    hide ParseItem, PropertyItem, Faithful, Encodable;
    ItemsStart(items);
    if items != [] {
      var tail := PropertyItems(items[1..], [CLOSE_LIST]);
      ItemsStart(items[1..]);
      ItemIff(items[0], tail);
      ItemsIff(items[1..]);
      assert items == [items[0]] + items[1..];
      ghost var rest := ParseItem(PropertyItems(items, [CLOSE_LIST]));
      if rest.Done? {
        ConsPrefix(items, rest.value, ParseItems(rest.rest));
      }
      if Faithful(items[0].value, items[0].property, items[0].arrayIndex) {
        assert AllFaithful(items) <==> AllFaithful(items[1..]);
      }
    }
  }

  lemma ItemBound(item: WireProperty, tail: Bytes)
    ensures |PropertyItem(item, tail)| <= 268 + |tail|
  {}

  lemma {:induction false} ItemsBound(items: seq<WireProperty>, tail: Bytes)
    ensures |PropertyItems(items, tail)| <= 268 * |items| + |tail|
  {
    hide PropertyItem;
    if items != [] {
      ItemsBound(items[1..], tail);
      ItemBound(items[0], PropertyItems(items[1..], tail));
    }
  }

  lemma NotificationBodyRoundTrip(id: CovIdentity, items: seq<WireProperty>, invokeId: Option<uint8>)
    ensures ParseNotificationBody(NotificationParameters(id, PropertyList(items)), invokeId)
            == match ParseItems(PropertyItems(items, [CLOSE_LIST]))
               case Fail => Fail
               case Done(read, rest) =>
                 if read == [] || rest != [CLOSE_LIST] then Fail
                 else Done(CovNotification(id.processId, ObjectIdOf(ObjectIdWord(id.monitored)),
                                           Primary(read), Kept(read), invokeId.Some?,
                                           if invokeId.Some? then invokeId.value else 0), [])
  {
    hide ParseContext, ContextUnsigned, ContextWord, PropertyItems, ParseItems, ObjectIdWord, ObjectIdOf;
    var list := PropertyList(items);
    var s3 := ContextUnsigned(3, id.secondsLeft) + list;
    var s2 := ContextWord(2, ObjectIdWord(id.monitored)) + s3;
    var s1 := ContextWord(1, ObjectIdWord(id.device)) + s2;
    ContextUnsignedRoundTrip(0, id.processId, s1);
    ContextWordRoundTrip(1, ObjectIdWord(id.device), s2);
    ContextWordRoundTrip(2, ObjectIdWord(id.monitored), s3);
    ContextUnsignedRoundTrip(3, id.secondsLeft, list);
    ByteRoundTrip(OPEN_LIST, PropertyItems(items, [CLOSE_LIST]));
  }

  lemma NotificationHeadRoundTrip(confirmed: bool, invokeId: uint8, parameters: Bytes)
    requires 12 <= |parameters| < 0xFF00
    ensures ParseNotificationHead(Frame([NPDU_VERSION, if confirmed then EXPECTING_REPLY else 0] +
                                        NotificationApdu(confirmed, invokeId, parameters)))
            == Done(if confirmed then Some(invokeId) else None, parameters)
  {
    hide OpenFrame, Frame;
    var apdu := NotificationApdu(confirmed, invokeId, parameters);
    FrameOpens(if confirmed then EXPECTING_REPLY else 0, apdu, 20, true);
    assert apdu[if confirmed then 4 else 2..] == parameters;
  }

  /** What the subscriber should see of a notification. */
  function Expected(id: CovIdentity, items: seq<WireProperty>, confirmed: bool, invokeId: uint8): CovNotification
    requires items != []
  {
    CovNotification(id.processId, id.monitored, Primary(items), Kept(items), confirmed,
                    if confirmed then invokeId else 0)
  }

  /**
   A notification of up to four values is read back exactly - process id, object, every property,
   index and value in order, confirmed flag and invoke id - if and only if the object type fits
   its field and every value is faithful.
   */
  lemma NotificationRoundTripIff(id: CovIdentity, items: seq<WireProperty>, confirmed: bool, invokeId: uint8)
    requires 1 <= |items| <= MAX_KEPT && AllEncodable(items)
    requires id.monitored.instance <= MAX_INSTANCE
    ensures ParseCovNotification(Notification(id, items, confirmed, invokeId))
            == Done(Expected(id, items, confirmed, invokeId), [])
            <==> id.monitored.kind <= MAX_OBJECT_KIND && AllFaithful(items)
  {
    hide ParseItems, PropertyItems, ParseNotificationHead, ParseNotificationBody, Primary, Frame,
         NotificationApdu;
    NotificationReads(id, items, confirmed, invokeId);
    ItemsIff(items);
    ObjectIdRoundTripIff(id.monitored);
  }

  lemma NotificationReads(id: CovIdentity, items: seq<WireProperty>, confirmed: bool, invokeId: uint8)
    requires |items| <= 200
    ensures ParseCovNotification(Notification(id, items, confirmed, invokeId))
            == match ParseItems(PropertyItems(items, [CLOSE_LIST]))
               case Fail => Fail
               case Done(read, rest) =>
                 if read == [] || rest != [CLOSE_LIST] then Fail
                 else Done(CovNotification(id.processId, ObjectIdOf(ObjectIdWord(id.monitored)),
                                           Primary(read), Kept(read), confirmed,
                                           if confirmed then invokeId else 0), [])
  {
    hide ParseItems, PropertyItems, ParseNotificationHead, ParseNotificationBody, Primary, Frame,
         NotificationApdu;
    var parameters := NotificationParameters(id, PropertyList(items));
    ItemsBound(items, [CLOSE_LIST]);
    NotificationHeadRoundTrip(confirmed, invokeId, parameters);
    NotificationBodyRoundTrip(id, items, if confirmed then Some(invokeId) else None);
  }

  /** With more values than the receiver keeps, it keeps the first four and still finds the primary one. */
  lemma LongNotificationRoundTrip(id: CovIdentity, items: seq<WireProperty>, confirmed: bool, invokeId: uint8)
    requires 1 <= |items| <= 200 && AllEncodable(items) && AllFaithful(items)
    requires ValidObjectId(id.monitored)
    ensures ParseCovNotification(Notification(id, items, confirmed, invokeId))
            == Done(Expected(id, items, confirmed, invokeId), [])
  {
    hide ParseItems, PropertyItems, ParseNotificationHead, ParseNotificationBody, Primary, Frame,
         NotificationApdu;
    NotificationReads(id, items, confirmed, invokeId);
    ItemsIff(items);
    ObjectIdRoundTripIff(id.monitored);
  }

  /** The primary value is a Present_Value whenever one was sent, and otherwise the first value. */
  lemma {:induction false} PrimaryPrefersPresentValue(items: seq<WireProperty>)
    requires items != []
    ensures Primary(items) in items
    ensures (exists i :: 0 <= i < |items| && items[i].property == PRESENT_VALUE) ==>
              Primary(items).property == PRESENT_VALUE
    ensures (forall i :: 0 <= i < |items| ==> items[i].property != PRESENT_VALUE) ==>
              Primary(items) == items[0]
  {
    var last := |items| - 1;
    if last > 0 && items[last].property != PRESENT_VALUE {
      PrimaryPrefersPresentValue(items[..last]);
      if i :| 0 <= i < |items| && items[i].property == PRESENT_VALUE {
        assert items[..last][i] == items[i];
      }
    }
  }

  // ----- subscriptions

  datatype SubscribeRequest = SubscribeRequest(
    processId: uint32, monitored: ObjectId, isProperty: bool, property: uint32, arrayIndex: uint32,
    confirmed: bool, lifetime: uint32, increment: Option<uint32>)

  datatype SubscribeHeader = SubscribeHeader(invokeId: uint8, request: SubscribeRequest)

  /** The object form names no property; a parsed one has these in their place. */
  predicate ObjectForm(r: SubscribeRequest) {
    !r.isProperty && r.property == PRESENT_VALUE && r.arrayIndex == NO_ARRAY_INDEX && r.increment == None
  }

  /** A REAL pattern that compares less than zero: sign bit set, neither minus zero nor a NaN. */
  predicate NegativePattern(pattern: uint32) {
    0x8000_0000 < pattern <= 0xFF80_0000
  }

  function IncrementSuffix(increment: Option<uint32>): (s: Bytes)
    ensures |s| <= 5
  {
    match increment
    case None => []
    case Some(pattern) => ContextWord(5, pattern)
  }

  /** Confirmed flag and lifetime, under two consecutive tags. */
  function SubscribeTerms(r: SubscribeRequest, firstTag: TagNumber, tail: Bytes): Bytes
    requires firstTag < 15
  {
    ContextBoolean(firstTag, r.confirmed) + (ContextUnsigned(firstTag + 1, r.lifetime) + tail)
  }

  function PropertyReference(r: SubscribeRequest, tail: Bytes): Bytes {
    [OPEN_ITEM] + (ContextUnsigned(0, r.property) + (ContextIndex(1, r.arrayIndex) + ([CLOSE_ITEM] + tail)))
  }

  function SubscribeTail(r: SubscribeRequest): Bytes {
    if r.isProperty then PropertyReference(r, SubscribeTerms(r, 3, IncrementSuffix(r.increment)))
    else SubscribeTerms(r, 2, [])
  }

  function SubscribeParameters(r: SubscribeRequest): Bytes {
    ContextUnsigned(0, r.processId) + (ContextWord(1, ObjectIdWord(r.monitored)) + SubscribeTail(r))
  }

  function SubscribeService(isProperty: bool): uint8 {
    if isProperty then SERVICE_SUBSCRIBE_COV_PROPERTY else SERVICE_SUBSCRIBE_COV
  }

  function SubscribeMessage(r: SubscribeRequest, invokeId: uint8): Bytes {
    ConfirmedRequest(invokeId, SubscribeService(r.isProperty), SubscribeParameters(r))
  }

  function ParsePropertyReference(s: Bytes): Parsed<(uint32, uint32)> {
    var (_, s1) :- ParseByte(s, OPEN_ITEM);
    var (property, s2) :- ParseContext(s1, 0);
    var (arrayIndex, s3) :- ParseIndex(s2, 1);
    var (_, s4) :- ParseByte(s3, CLOSE_ITEM);
    Done((property, arrayIndex), s4)
  }

  function ParseFlag(s: Bytes, tag: TagNumber): Parsed<bool> {
    if !HasContextTag(s, tag) then Done(false, s)
    else
      var (flag, rest) :- ParseContext(s, tag);
      if flag > 1 then Fail else Done(flag != 0, rest)
  }

  function ParseLifetime(s: Bytes, tag: TagNumber): Parsed<uint32> {
    if HasContextTag(s, tag) then ParseContext(s, tag) else Done(0, s)
  }

  function ParseIncrement(s: Bytes): Parsed<Option<uint32>> {
    if !HasContextTag(s, 5) then Done(None, s)
    else
      var (pattern, rest) :- ParseContextReal(s, 5);
      if NegativePattern(pattern) then Fail else Done(Some(pattern), rest)
  }

  /** Everything after the process id and the object, for one of the two services. */
  function ParseSubscribeTail(s: Bytes, isProperty: bool, processId: uint32, monitored: ObjectId)
    : Parsed<SubscribeRequest>
  {
    var (reference, s1) :-
      if isProperty then ParsePropertyReference(s) else Done((PRESENT_VALUE, NO_ARRAY_INDEX), s);
    var (confirmed, s2) :- ParseFlag(s1, if isProperty then 3 else 2);
    var (lifetime, s3) :- ParseLifetime(s2, if isProperty then 4 else 3);
    var (increment, s4) :- if isProperty then ParseIncrement(s3) else Done(None, s3);
    Done(SubscribeRequest(processId, monitored, isProperty, reference.0, reference.1, confirmed, lifetime,
                          increment), s4)
  }

  function ParseSubscribeParameters(s: Bytes, isProperty: bool): Parsed<SubscribeRequest> {
    var (processId, s1) :- ParseContext(s, 0);
    var (word, s2) :- ParseContext(s1, 1);
    ParseSubscribeTail(s2, isProperty, processId, ObjectIdOf(word))
  }

  function ParseSubscribe(packet: Bytes): RequestParse<SubscribeHeader> {
    match ParseConfirmedHeader(packet)
    case Malformed => Malformed
    case Unrelated => Unrelated
    case Parsed(h) =>
      if h.service != SERVICE_SUBSCRIBE_COV && h.service != SERVICE_SUBSCRIBE_COV_PROPERTY then Unrelated
      else
        match ParseSubscribeParameters(h.parameters, h.service == SERVICE_SUBSCRIBE_COV_PROPERTY)
        case Fail => Malformed
        case Done(r, rest) => if rest == [] then Parsed(SubscribeHeader(h.invokeId, r)) else Malformed
  }

  lemma FlagRoundTrip(tag: TagNumber, on: bool, tail: Bytes)
    ensures ParseFlag(ContextBoolean(tag, on) + tail, tag) == Done(on, tail)
  {
    hide ParseContext, ContextBoolean, HasContextTag;
    ContextBooleanRoundTrip(tag, on, tail);
  }

  lemma LifetimeRoundTrip(tag: TagNumber, lifetime: uint32, tail: Bytes)
    ensures ParseLifetime(ContextUnsigned(tag, lifetime) + tail, tag) == Done(lifetime, tail)
  {
    hide ParseContext, ContextUnsigned, HasContextTag;
    ContextUnsignedRoundTrip(tag, lifetime, tail);
  }

  lemma IncrementRoundTripIff(increment: Option<uint32>)
    ensures ParseIncrement(IncrementSuffix(increment))
            == if increment.Some? && NegativePattern(increment.value) then Fail else Done(increment, [])
  {
    if increment.Some? {
      hide ParseContextReal, ContextWord, HasContextTag;
      var code := ContextWord(5, increment.value);
      ContextWordRoundTrip(5, increment.value, []);
      assert code + [] == code;
    }
  }

  lemma PropertyReferenceRoundTrip(r: SubscribeRequest, tail: Bytes)
    ensures ParsePropertyReference(PropertyReference(r, tail)) == Done((r.property, r.arrayIndex), tail)
  {
    hide ParseContext, ContextUnsigned, ContextIndex, ParseIndex;
    var s3: Bytes := [CLOSE_ITEM] + tail;
    var s2 := ContextIndex(1, r.arrayIndex) + s3;
    ByteRoundTrip(OPEN_ITEM, ContextUnsigned(0, r.property) + s2);
    ContextUnsignedRoundTrip(0, r.property, s2);
    ContextIndexRoundTrip(1, r.arrayIndex, s3);
    ByteRoundTrip(CLOSE_ITEM, tail);
  }

  lemma SubscribeTailRoundTripIff(r: SubscribeRequest, monitored: ObjectId)
    requires r.isProperty || ObjectForm(r)
    ensures ParseSubscribeTail(SubscribeTail(r), r.isProperty, r.processId, monitored)
            == if r.increment.Some? && NegativePattern(r.increment.value) then Fail
               else Done(r.(monitored := monitored), [])
  {
    hide ParseFlag, ParseLifetime, ParseIncrement, ParsePropertyReference, IncrementSuffix, PropertyReference,
         ContextBoolean, ContextUnsigned, NegativePattern;
    var suffix := if r.isProperty then IncrementSuffix(r.increment) else [];
    var tag: TagNumber := if r.isProperty then 3 else 2;
    FlagRoundTrip(tag, r.confirmed, ContextUnsigned(tag + 1, r.lifetime) + suffix);
    LifetimeRoundTrip(tag + 1, r.lifetime, suffix);
    if r.isProperty {
      PropertyReferenceRoundTrip(r, SubscribeTerms(r, 3, suffix));
      IncrementRoundTripIff(r.increment);
    }
  }

  /**
   Either subscription request, object form or property form, is read back field for field if and
   only if the object type fits its field and no negative increment is carried.
   */
  lemma SubscribeRoundTripIff(r: SubscribeRequest, invokeId: uint8)
    requires r.isProperty || ObjectForm(r)
    requires r.monitored.instance <= MAX_INSTANCE
    ensures ParseSubscribe(SubscribeMessage(r, invokeId)) == Parsed(SubscribeHeader(invokeId, r))
            <==> r.monitored.kind <= MAX_OBJECT_KIND &&
                 !(r.increment.Some? && NegativePattern(r.increment.value))
  {
    hide ParseContext, ContextUnsigned, ContextWord, SubscribeTail, ParseSubscribeTail, ParseConfirmedHeader,
         ConfirmedRequest, NegativePattern, ObjectIdOf, ObjectIdWord;
    SubscribeBound(r);
    ConfirmedRequestRoundTrip(invokeId, SubscribeService(r.isProperty), SubscribeParameters(r));
    var word := ObjectIdWord(r.monitored);
    ContextUnsignedRoundTrip(0, r.processId, ContextWord(1, word) + SubscribeTail(r));
    ContextWordRoundTrip(1, word, SubscribeTail(r));
    SubscribeTailRoundTripIff(r, ObjectIdOf(word));
    ObjectIdRoundTripIff(r.monitored);
  }

  lemma SubscribeBound(r: SubscribeRequest)
    ensures |SubscribeParameters(r)| <= 100
  {}
}
