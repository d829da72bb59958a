/** ReadProperty requests and acknowledgements, WriteProperty requests, Priority_Array acknowledgements. */
module PropertyMessages {
  import opened BacnetTypes
  import opened ByteOrder
  import opened ApplicationValue
  import opened ContextTag
  import opened Framing

  // ----- the format

  /** Object, property and optional index, under context tags 0, 1 and 2. */
  function Reference(r: PropertyRequest): (s: Bytes)
    ensures 7 <= |s| <= 15
  {
    ContextWord(0, ObjectIdWord(r.objectId)) + (ContextUnsigned(1, r.property) + ContextIndex(2, r.arrayIndex))
  }

  function ReadPropertyRequest(r: PropertyRequest, invokeId: uint8): Bytes {
    ConfirmedRequest(invokeId, SERVICE_READ_PROPERTY, Reference(r))
  }

  function AckValues(values: Bytes): Bytes {
    [OPEN_VALUE] + (values + [CLOSE_VALUE])
  }

  /** A complex acknowledgement: the echoed reference, then values between the value brackets. */
  function AckApdu(invokeId: uint8, r: PropertyRequest, values: Bytes): Bytes {
    [0x30, invokeId, SERVICE_READ_PROPERTY] + (Reference(r) + AckValues(values))
  }

  function PropertyAck(invokeId: uint8, r: PropertyRequest, values: Bytes): Bytes {
    Frame([NPDU_VERSION, 0] + AckApdu(invokeId, r, values))
  }

  /** The priority a write carries: zero is never put on the wire. */
  function WirePriority(priority: Option<uint8>): Option<uint8> {
    if priority == Some(0) then None else priority
  }

  function PrioritySuffix(priority: Option<uint8>): (s: Bytes)
    ensures |s| <= 2
  {
    match priority
    case None => []
    case Some(p) => Context(4, [p])
  }

  function WriteParameters(r: PropertyRequest, value: WireValue, priority: Option<uint8>): Bytes {
    Reference(r) + Bracketed(OPEN_VALUE, value, CLOSE_VALUE, PrioritySuffix(priority))
  }

  function WritePropertyRequest(r: PropertyRequest, value: WireValue, priority: Option<uint8>, invokeId: uint8)
    : Bytes
  {
    ConfirmedRequest(invokeId, SERVICE_WRITE_PROPERTY, WriteParameters(r, value, WirePriority(priority)))
  }

  /** Values one after the other. */
  function EncodeAll(values: seq<WireValue>): Bytes {
    if values == [] then [] else EncodeApplication(values[0]) + EncodeAll(values[1..])
  }

  predicate AllEncodable(values: seq<WireValue>) {
    forall i :: 0 <= i < |values| ==> Encodable(values[i])
  }

  /** What a Priority_Array acknowledgement answers: the count, one slot, or all of them. */
  function SelectedSlots(slots: seq<WireValue>, arrayIndex: uint32): Option<seq<WireValue>> {
    if arrayIndex == NO_ARRAY_INDEX then Some(slots)
    else if arrayIndex == 0 then Some([Unsigned(|slots| % 0x1_0000_0000)])
    else if arrayIndex - 1 < |slots| then Some([slots[arrayIndex - 1]])
    else None
  }

  // ----- the parsers

  datatype ReadHeader = ReadHeader(invokeId: uint8, request: PropertyRequest)

  datatype WriteHeader =
    WriteHeader(invokeId: uint8, request: PropertyRequest, value: WireValue, priority: Option<uint8>)

  function ParseReadPropertyRequest(packet: Bytes): RequestParse<ReadHeader> {
    match ParseConfirmedHeader(packet)
    case Malformed => Malformed
    case Unrelated => Unrelated
    case Parsed(h) =>
      if h.service != SERVICE_READ_PROPERTY then Unrelated
      else
        match ParseRequestReference(h.parameters)
        case Fail => Malformed
        case Done(r, rest) => if rest == [] then Parsed(ReadHeader(h.invokeId, r)) else Malformed
  }

  /** A request takes whatever follows the property for the index. */
  function ParseRequestReference(s: Bytes): Parsed<PropertyRequest> {
    var (word, s1) :- ParseContext(s, 0);
    var (property, s2) :- ParseContext(s1, 1);
    var (arrayIndex, s3) :- if s2 != [] then ParseContext(s2, 2) else Done(NO_ARRAY_INDEX, s2);
    Done(PropertyRequest(ObjectIdOf(word), property, arrayIndex), s3)
  }

  function ParseReference(s: Bytes): (r: Parsed<PropertyRequest>)
    ensures r.Done? ==> |r.rest| < |s|
  {
    var (word, s1) :- ParseContext(s, 0);
    var (property, s2) :- ParseContext(s1, 1);
    var (arrayIndex, s3) :- ParseIndex(s2, 2);
    Done(PropertyRequest(ObjectIdOf(word), property, arrayIndex), s3)
  }

  function ParsePriority(s: Bytes): Parsed<Option<uint8>> {
    if s == [] then Done(None, s)
    else
      var (p, rest) :- ParseContext(s, 4);
      if p > 255 then Fail else Done(Some(p), rest)
  }

  function ParseWriteParameters(s: Bytes, invokeId: uint8): Parsed<WriteHeader> {
    var (r, s1) :- ParseReference(s);
    var (value, s2) :- ParseBracketed(s1, OPEN_VALUE, CLOSE_VALUE, r.property, r.arrayIndex);
    var (priority, s3) :- ParsePriority(s2);
    Done(WriteHeader(invokeId, r, value, priority), s3)
  }

  function ParseWritePropertyRequest(packet: Bytes): RequestParse<WriteHeader> {
    match ParseConfirmedHeader(packet)
    case Malformed => Malformed
    case Unrelated => Unrelated
    case Parsed(h) =>
      if h.service != SERVICE_WRITE_PROPERTY then Unrelated
      else
        match ParseWriteParameters(h.parameters, h.invokeId)
        case Fail => Malformed
        case Done(w, rest) => if rest == [] then Parsed(w) else Malformed
  }

  /** The part of an acknowledgement before the reference. */
  function ParseAckHead(packet: Bytes, invokeId: uint8): Parsed<uint8> {
    match OpenFrame(packet, 17, false)
    case Fail => Fail
    case Done(_, apdu) =>
      if |apdu| < 3 || apdu[0] / 16 != COMPLEX_ACK || apdu[1] != invokeId ||
         apdu[2] != SERVICE_READ_PROPERTY then Fail
      else Done(apdu[0], apdu[3..])
  }

  /** The echoed reference must name the object and property asked for, and the index if one was. */
  function ParseEcho(s: Bytes, expected: PropertyRequest): Parsed<uint32> {
    var (word, s1) :- ParseContext(s, 0);
    if word != ObjectIdWord(expected.objectId) then Fail
    else
      var (property, s2) :- ParseContext(s1, 1);
      if property != expected.property then Fail
      else
        var (arrayIndex, s3) :- ParseIndex(s2, 2);
        if expected.arrayIndex == NO_ARRAY_INDEX then Done(arrayIndex, s3)
        else if HasContextTag(s2, 2) && arrayIndex == expected.arrayIndex then Done(arrayIndex, s3)
        else Fail
  }

  /** The value of an acknowledgement; bytes after the closing bracket are not looked at. */
  function ParseReadPropertyAck(packet: Bytes, invokeId: uint8, expected: PropertyRequest): Parsed<WireValue> {
    var (_, s0) :- ParseAckHead(packet, invokeId);
    var (arrayIndex, s1) :- ParseEcho(s0, expected);
    ParseBracketed(s1, OPEN_VALUE, CLOSE_VALUE, expected.property, arrayIndex)
  }

  /** `count` values, none of them the closing bracket. */
  function ParseSlots(s: Bytes, count: nat): (r: Parsed<seq<WireValue>>)
    ensures r.Done? ==> |r.value| == count
  {
    if count == 0 then Done([], s)
    else if s == [] || s[0] == CLOSE_VALUE then Fail
    else
      var (first, rest) :- ParseApplication(s, PRIORITY_ARRAY, NO_ARRAY_INDEX);
      var (others, end) :- ParseSlots(rest, count - 1);
      Done([first] + others, end)
  }

  const PRIORITY_SLOTS: nat := 16

  function ParsePriorityArrayBody(s: Bytes, objectId: ObjectId): Parsed<seq<WireValue>> {
    var (word, s1) :- ParseContext(s, 0);
    if word != ObjectIdWord(objectId) then Fail
    else
      var (property, s2) :- ParseContext(s1, 1);
      if property != PRIORITY_ARRAY then Fail
      else
        var (_, s3) :- ParseByte(s2, OPEN_VALUE);
        var (slots, s4) :- ParseSlots(s3, PRIORITY_SLOTS);
        if s4 == [CLOSE_VALUE] then Done(slots, []) else Fail
  }

  function ParsePriorityArrayAck(packet: Bytes, invokeId: uint8, expected: PropertyRequest)
    : Parsed<seq<WireValue>>
  {
    if expected.property != PRIORITY_ARRAY || expected.arrayIndex != NO_ARRAY_INDEX then Fail
    else
      var (_, s0) :- ParseAckHead(packet, invokeId);
      ParsePriorityArrayBody(s0, expected.objectId)
  }

  // ----- round trips

  lemma ReferenceParts(r: PropertyRequest, tail: Bytes)
    ensures Reference(r) + tail
            == ContextWord(0, ObjectIdWord(r.objectId)) +
               (ContextUnsigned(1, r.property) + (ContextIndex(2, r.arrayIndex) + tail))
  {}

  lemma ReferenceRoundTrip(r: PropertyRequest, tail: Bytes)
    requires !HasContextTag(tail, 2)
    ensures ParseReference(Reference(r) + tail)
            == Done(PropertyRequest(ObjectIdOf(ObjectIdWord(r.objectId)), r.property, r.arrayIndex), tail)
  {
    ReferenceParts(r, tail);
    ContextWordRoundTrip(0, ObjectIdWord(r.objectId),
                         ContextUnsigned(1, r.property) + (ContextIndex(2, r.arrayIndex) + tail));
    ContextUnsignedRoundTrip(1, r.property, ContextIndex(2, r.arrayIndex) + tail);
    ContextIndexRoundTrip(2, r.arrayIndex, tail);
  }

  lemma RequestReferenceRoundTrip(r: PropertyRequest)
    ensures ParseRequestReference(Reference(r))
            == Done(PropertyRequest(ObjectIdOf(ObjectIdWord(r.objectId)), r.property, r.arrayIndex), [])
  {
    ReferenceParts(r, []);
    assert Reference(r) + [] == Reference(r);
    var s2 := ContextIndex(2, r.arrayIndex) + [];
    ContextWordRoundTrip(0, ObjectIdWord(r.objectId), ContextUnsigned(1, r.property) + s2);
    ContextUnsignedRoundTrip(1, r.property, s2);
    if r.arrayIndex == NO_ARRAY_INDEX {
      assert s2 == [];
    } else {
      ContextUnsignedRoundTrip(2, r.arrayIndex, []);
    }
  }

  /** A ReadProperty request comes back as sent exactly when the object type fits its 10 bits. */
  lemma ReadPropertyRequestRoundTripIff(r: PropertyRequest, invokeId: uint8)
    requires r.objectId.instance <= MAX_INSTANCE
    ensures ParseReadPropertyRequest(ReadPropertyRequest(r, invokeId)) == Parsed(ReadHeader(invokeId, r))
            <==> r.objectId.kind <= MAX_OBJECT_KIND
  {
    ConfirmedRequestRoundTrip(invokeId, SERVICE_READ_PROPERTY, Reference(r));
    RequestReferenceRoundTrip(r);
    ObjectIdRoundTripIff(r.objectId);
  }

  lemma ReferenceFaithful(r: PropertyRequest, tail: Bytes)
    requires ValidObjectId(r.objectId) && !HasContextTag(tail, 2)
    ensures ParseReference(Reference(r) + tail) == Done(r, tail)
  {
    ReferenceRoundTrip(r, tail);
    ObjectIdRoundTripIff(r.objectId);
  }

  lemma PriorityRoundTrip(priority: Option<uint8>)
    ensures ParsePriority(PrioritySuffix(priority)) == Done(priority, [])
  {
    match priority
    case None =>
    case Some(p) =>
      var code: Bytes := [p];
      assert BigEndian(code) == p by { assert code[..0] == []; }
      ContextFrame(4, code, []);
      assert Context(4, code) + [] == Context(4, code);
  }

  lemma WriteParametersIff(r: PropertyRequest, value: WireValue, wire: Option<uint8>, invokeId: uint8)
    requires ValidObjectId(r.objectId) && Encodable(value)
    ensures var p := ParseWriteParameters(WriteParameters(r, value, wire), invokeId);
            if Faithful(value, r.property, r.arrayIndex) then p == Done(WriteHeader(invokeId, r, value, wire), [])
            else p.Done? ==> p.value.value != value
  {
    hide ParseReference, Reference, ParsePriority, Faithful, Encodable, ParseBracketed;
    var suffix := PrioritySuffix(wire);
    ReferenceFaithful(r, Bracketed(OPEN_VALUE, value, CLOSE_VALUE, suffix));
    BracketedIff(OPEN_VALUE, value, CLOSE_VALUE, suffix, r.property, r.arrayIndex);
    PriorityRoundTrip(wire);
  }

  /** A valid write comes back with its value and wire priority exactly when the value is faithful. */
  lemma WritePropertyRoundTripIff(
    r: PropertyRequest, value: WireValue, priority: Option<uint8>, invokeId: uint8)
    requires ValidObjectId(r.objectId) && Encodable(value)
    ensures ParseWritePropertyRequest(WritePropertyRequest(r, value, priority, invokeId))
            == Parsed(WriteHeader(invokeId, r, value, WirePriority(priority)))
            <==> Faithful(value, r.property, r.arrayIndex)
  {
    var wire := WirePriority(priority);
    ConfirmedRequestRoundTrip(invokeId, SERVICE_WRITE_PROPERTY, WriteParameters(r, value, wire));
    WriteParametersIff(r, value, wire, invokeId);
  }

  /** The acknowledgement answers this request: same transaction, object, property, and index if asked. */
  predicate Answers(invokeId: uint8, r: PropertyRequest, expectedId: uint8, expected: PropertyRequest) {
    invokeId == expectedId && r.objectId == expected.objectId && r.property == expected.property &&
    (expected.arrayIndex == NO_ARRAY_INDEX || r.arrayIndex == expected.arrayIndex)
  }

  lemma AckFits(invokeId: uint8, r: PropertyRequest, values: Bytes)
    requires |values| <= 0xFF00
    ensures |PropertyAck(invokeId, r, values)| <= 0xFFFF
  {}

  lemma AckHeadRoundTrip(invokeId: uint8, r: PropertyRequest, values: Bytes, expectedId: uint8)
    requires |PropertyAck(invokeId, r, values)| <= 0xFFFF
    ensures ParseAckHead(PropertyAck(invokeId, r, values), expectedId)
            == if invokeId == expectedId
               then Done(0x30, Reference(r) + AckValues(values)) else Fail
  {
    var apdu := AckApdu(invokeId, r, values);
    FrameOpens(0, apdu, 17, false);
    assert apdu[3..] == Reference(r) + AckValues(values);
  }

  lemma EchoRoundTrip(r: PropertyRequest, expected: PropertyRequest, tail: Bytes)
    requires ValidObjectId(r.objectId) && ValidObjectId(expected.objectId) && !HasContextTag(tail, 2)
    ensures ParseEcho(Reference(r) + tail, expected)
            == if r.objectId == expected.objectId && r.property == expected.property &&
                  (expected.arrayIndex == NO_ARRAY_INDEX || r.arrayIndex == expected.arrayIndex)
               then Done(r.arrayIndex, tail) else Fail
  {
    var s2 := ContextIndex(2, r.arrayIndex) + tail;
    ReferenceParts(r, tail);
    ContextWordRoundTrip(0, ObjectIdWord(r.objectId), ContextUnsigned(1, r.property) + s2);
    ContextUnsignedRoundTrip(1, r.property, s2);
    ContextIndexRoundTrip(2, r.arrayIndex, tail);
    ObjectIdRoundTripIff(r.objectId);
    ObjectIdRoundTripIff(expected.objectId);
    if r.arrayIndex == NO_ARRAY_INDEX {
      assert s2 == tail;
    } else {
      ContextUnsignedRoundTrip(2, r.arrayIndex, tail);
    }
  }

  /**
   The requester takes the value out of an acknowledgement exactly when the acknowledgement
   answers its request and the value is faithful for the echoed reference.
   */
  lemma ReadPropertyAckAcceptedIff(
    invokeId: uint8, r: PropertyRequest, value: WireValue, expectedId: uint8, expected: PropertyRequest)
    requires ValidObjectId(r.objectId) && ValidObjectId(expected.objectId) && Encodable(value)
    ensures ParseReadPropertyAck(PropertyAck(invokeId, r, EncodeApplication(value)), expectedId, expected)
            == Done(value, [])
            <==> Answers(invokeId, r, expectedId, expected) && Faithful(value, r.property, r.arrayIndex)
    ensures !Answers(invokeId, r, expectedId, expected) ==>
              ParseReadPropertyAck(PropertyAck(invokeId, r, EncodeApplication(value)), expectedId, expected) == Fail
  {
    var values := EncodeApplication(value);
    assert [CLOSE_VALUE] + [] == [CLOSE_VALUE];
    assert AckValues(values) == Bracketed(OPEN_VALUE, value, CLOSE_VALUE, []);
    AckFits(invokeId, r, values);
    AckHeadRoundTrip(invokeId, r, values, expectedId);
    EchoRoundTrip(r, expected, AckValues(values));
    BracketedIff(OPEN_VALUE, value, CLOSE_VALUE, [], r.property, r.arrayIndex);
  }

  /** A whole exchange: the server answers the request it parsed, the client reads the value back. */
  lemma ReadPropertyExchange(r: PropertyRequest, invokeId: uint8, value: WireValue)
    requires ValidObjectId(r.objectId) && Encodable(value) && Faithful(value, r.property, r.arrayIndex)
    ensures var seen := ParseReadPropertyRequest(ReadPropertyRequest(r, invokeId));
            seen.Parsed? &&
            ParseReadPropertyAck(PropertyAck(seen.request.invokeId, seen.request.request, EncodeApplication(value)),
                                 invokeId, r) == Done(value, [])
  {
    ReadPropertyRequestRoundTripIff(r, invokeId);
    ReadPropertyAckAcceptedIff(invokeId, r, value, invokeId, r);
  }

  predicate AllStable(values: seq<WireValue>) {
    forall i :: 0 <= i < |values| ==> Stable(values[i])
  }

  lemma {:induction false} SlotsRoundTrip(values: seq<WireValue>, tail: Bytes)
    requires AllEncodable(values) && AllStable(values)
    ensures ParseSlots(EncodeAll(values) + tail, |values|) == Done(values, tail)
  {
    if values == [] {
      assert EncodeAll(values) + tail == tail;
    } else {
      var rest := EncodeAll(values[1..]) + tail;
      assert EncodeAll(values) + tail == EncodeApplication(values[0]) + rest;
      LeadByte(values[0]);
      FaithfulIff(values[0], rest, PRIORITY_ARRAY, NO_ARRAY_INDEX);
      SlotsRoundTrip(values[1..], tail);
      assert [values[0]] + values[1..] == values;
    }
  }

  lemma {:induction false} EncodeAllBound(values: seq<WireValue>)
    ensures |EncodeAll(values)| <= 256 * |values|
  {
    if values != [] {
      EncodeAllBound(values[1..]);
    }
  }

  /** All sixteen slots come back, in order, to the requester that asked for this object's array. */
  lemma PriorityArrayRoundTrip(
    invokeId: uint8, objectId: ObjectId, slots: seq<WireValue>, expectedId: uint8, expected: PropertyRequest)
    requires ValidObjectId(objectId) && ValidObjectId(expected.objectId)
    requires |slots| == PRIORITY_SLOTS && AllEncodable(slots) && AllStable(slots)
    ensures var r := PropertyRequest(objectId, PRIORITY_ARRAY, NO_ARRAY_INDEX);
            ParsePriorityArrayAck(PropertyAck(invokeId, r, EncodeAll(slots)), expectedId, expected)
            == if expectedId == invokeId && expected == r then Done(slots, []) else Fail
  {
    var r := PropertyRequest(objectId, PRIORITY_ARRAY, NO_ARRAY_INDEX);
    if expected.property == PRIORITY_ARRAY && expected.arrayIndex == NO_ARRAY_INDEX {
      var s3 := EncodeAll(slots) + [CLOSE_VALUE];
      var s2: Bytes := [OPEN_VALUE] + s3;
      hide PropertyAck;
      EncodeAllBound(slots);
      AckFits(invokeId, r, EncodeAll(slots));
      AckHeadRoundTrip(invokeId, r, EncodeAll(slots), expectedId);
      ReferenceParts(r, s2);
      assert ContextIndex(2, r.arrayIndex) + s2 == s2;
      ContextWordRoundTrip(0, ObjectIdWord(objectId), ContextUnsigned(1, PRIORITY_ARRAY) + s2);
      ContextUnsignedRoundTrip(1, PRIORITY_ARRAY, s2);
      ByteRoundTrip(OPEN_VALUE, s3);
      SlotsRoundTrip(slots, [CLOSE_VALUE]);
      ObjectIdRoundTripIff(objectId);
      ObjectIdRoundTripIff(expected.objectId);
    }
  }
}
