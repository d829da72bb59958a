/** The priority array of a commandable object as a client sees it across the wire. */
module PriorityArrayView {
  import opened BacnetTypes
  import opened ApplicationValue
  import opened CommandPriority
  import opened CommandableOutput
  import opened PropertyMessages

  /** How a present value is put on the wire: an enumeration for binary objects, a REAL for analog ones. */
  function BinaryCode(v: bool): WireValue {
    Enumerated(if v then 1 else 0)
  }

  function AnalogCode(pattern: uint32): WireValue {
    Real(pattern)
  }

  /** The entry of one slot; a slot past the end has none. */
  function CommandPriorityEntry<T>(c: Commands<T>, index: nat, code: T -> WireValue): Option<WireValue>
    requires Shaped(c)
  {
    if index >= SLOT_COUNT then None
    else Some(if c.occupied[index] then code(c.slots[index]) else Null)
  }

  function Entries<T>(c: Commands<T>, code: T -> WireValue): (s: seq<WireValue>)
    requires Shaped(c)
    ensures |s| == SLOT_COUNT
    ensures forall k :: 0 <= k < SLOT_COUNT ==> s[k] == if c.occupied[k] then code(c.slots[k]) else Null
  {
    seq(SLOT_COUNT, k requires 0 <= k < SLOT_COUNT => CommandPriorityEntry(c, k, code).value)
  }

  /** What a client concludes from the sixteen slots: the first that is not Null, else the default. */
  function CommandInEffect(slots: seq<WireValue>, default: WireValue): WireValue {
    if slots == [] then default
    else if slots[0] != Null then slots[0]
    else CommandInEffect(slots[1..], default)
  }

  /** Every present value travels as one value that is not Null and comes back unchanged. */
  ghost predicate GoodCode<T(!new)>(code: T -> WireValue) {
    forall v: T :: code(v) != Null && Encodable(code(v)) && Stable(code(v))
  }

  lemma {:induction false} FirstNotNull(slots: seq<WireValue>, default: WireValue, k: nat)
    requires k <= |slots|
    requires forall j :: 0 <= j < k ==> slots[j] == Null
    requires k < |slots| ==> slots[k] != Null
    ensures CommandInEffect(slots, default) == if k < |slots| then slots[k] else default
  {
    if k > 0 {
      FirstNotNull(slots[1..], default, k - 1);
    }
  }

  /** What a client may conclude from the slots it read about the commands they came from. */
  ghost predicate Pictures<T>(slots: seq<WireValue>, c: Commands<T>, code: T -> WireValue)
    requires Shaped(c)
  {
    |slots| == SLOT_COUNT &&
    (forall k :: 0 <= k < SLOT_COUNT ==> (slots[k] == Null <==> !c.occupied[k])) &&
    CommandInEffect(slots, code(c.relinquishDefault)) == code(EffectiveValue(c)) &&
    ((forall k :: 0 <= k < SLOT_COUNT ==> slots[k] == Null) <==> EffectivePriority(c) == 0)
  }

  lemma EntriesPicture<T(!new)>(c: Commands<T>, code: T -> WireValue)
    requires Shaped(c) && GoodCode(code)
    ensures Pictures(Entries(c, code), c, code)
    ensures AllEncodable(Entries(c, code)) && AllStable(Entries(c, code))
  {
    hide *;
    EntriesTravel(c, code);
    EntriesShow(c, code);
  }

  lemma EntriesShow<T(!new)>(c: Commands<T>, code: T -> WireValue)
    requires Shaped(c) && GoodCode(code)
    ensures Pictures(Entries(c, code), c, code)
  {
    hide Encodable, Stable, Entries, FirstOccupied;
    var k := FirstOccupied(c.occupied, 0);
    var slots := Entries(c, code);
    assert forall j :: 0 <= j < SLOT_COUNT ==> (slots[j] == Null <==> !c.occupied[j]);
    hide GoodCode;
    FirstNotNull(slots, code(c.relinquishDefault), k);
  }

  lemma EntriesTravel<T(!new)>(c: Commands<T>, code: T -> WireValue)
    requires Shaped(c) && GoodCode(code)
    ensures AllEncodable(Entries(c, code)) && AllStable(Entries(c, code))
  {
    assert Encodable(Null) && Stable(Null);
    hide Encodable, Stable;
  }

  lemma CodesAreGood()
    ensures GoodCode(BinaryCode) && GoodCode(AnalogCode)
  {}

  /** Any sixteen-slot state, acknowledged by the server and parsed by the client that asked. */
  lemma PriorityArrayEndToEnd<T(!new)>(c: Commands<T>, code: T -> WireValue, objectId: ObjectId, invokeId: uint8)
    requires Shaped(c) && GoodCode(code) && ValidObjectId(objectId)
    ensures var r := PropertyRequest(objectId, PRIORITY_ARRAY, NO_ARRAY_INDEX);
            var seen := ParsePriorityArrayAck(PropertyAck(invokeId, r, EncodeAll(Entries(c, code))), invokeId, r);
            seen.Done? && Pictures(seen.value, c, code)
  {
    hide PropertyAck, EncodeAll, ParsePriorityArrayAck, Pictures, AllEncodable, AllStable, GoodCode;
    EntriesPicture(c, code);
    var r := PropertyRequest(objectId, PRIORITY_ARRAY, NO_ARRAY_INDEX);
    PriorityArrayRoundTrip(invokeId, objectId, Entries(c, code), invokeId, r);
  }

  lemma BinaryPriorityArray(c: Commands<bool>, objectId: ObjectId, invokeId: uint8)
    requires Shaped(c) && ValidObjectId(objectId)
    ensures var r := PropertyRequest(objectId, PRIORITY_ARRAY, NO_ARRAY_INDEX);
            var ack := PropertyAck(invokeId, r, EncodeAll(Entries(c, BinaryCode)));
            var seen := ParsePriorityArrayAck(ack, invokeId, r);
            seen.Done? && Pictures(seen.value, c, BinaryCode)
  {
    CodesAreGood();
    PriorityArrayEndToEnd(c, BinaryCode, objectId, invokeId);
  }

  lemma AnalogPriorityArray(c: Commands<uint32>, objectId: ObjectId, invokeId: uint8)
    requires Shaped(c) && ValidObjectId(objectId)
    ensures var r := PropertyRequest(objectId, PRIORITY_ARRAY, NO_ARRAY_INDEX);
            var ack := PropertyAck(invokeId, r, EncodeAll(Entries(c, AnalogCode)));
            var seen := ParsePriorityArrayAck(ack, invokeId, r);
            seen.Done? && Pictures(seen.value, c, AnalogCode)
  {
    CodesAreGood();
    PriorityArrayEndToEnd(c, AnalogCode, objectId, invokeId);
  }

  /** Reading one slot by its index, 1 to 16, gives what reading the whole array gives there. */
  lemma SlotReadAgrees<T(!new)>(
    c: Commands<T>, code: T -> WireValue, objectId: ObjectId, invokeId: uint8, index: uint32)
    requires Shaped(c) && GoodCode(code) && ValidObjectId(objectId) && 1 <= index <= SLOT_COUNT
    ensures var r := PropertyRequest(objectId, PRIORITY_ARRAY, index);
            var selected := SelectedSlots(Entries(c, code), index);
            selected.Some? &&
            ParseReadPropertyAck(PropertyAck(invokeId, r, EncodeAll(selected.value)), invokeId, r)
            == Done(Entries(c, code)[index - 1], [])
  {
    hide PropertyAck, ParseReadPropertyAck, EncodeApplication, ParseApplication, Encodable, Stable, TagOf;
    EntriesPicture(c, code);
    var r := PropertyRequest(objectId, PRIORITY_ARRAY, index);
    var value := Entries(c, code)[index - 1];
    var none: seq<WireValue> := [];
    assert [value][1..] == none;
    assert EncodeAll([value]) == EncodeApplication(value) + [] == EncodeApplication(value);
    ReadPropertyAckAcceptedIff(invokeId, r, value, invokeId, r);
  }

  // ----- writing across the wire and reading back

  /** How the server takes a present value out of a write request. */
  function DecodeBinary(v: WireValue): Option<bool> {
    if v.Enumerated? && v.number <= 1 then Some(v.number == 1) else None
  }

  function DecodeAnalog(v: WireValue): Option<uint32> {
    if v.Real? then Some(v.measure) else None
  }

  ghost predicate Decodes<T(!new)>(code: T -> WireValue, decode: WireValue -> Option<T>) {
    forall v: T :: decode(code(v)) == Some(v)
  }

  lemma DecodersFit()
    ensures Decodes(BinaryCode, DecodeBinary) && Decodes(AnalogCode, DecodeAnalog)
  {}

  /** A present value is taken if and only if it is one that objects of the kind send. */
  lemma DecodedIff(v: WireValue)
    ensures DecodeBinary(v).Some? <==> v == Enumerated(0) || v == Enumerated(1)
    ensures DecodeBinary(v).Some? <==> exists on :: v == BinaryCode(on)
    ensures DecodeAnalog(v).Some? <==> exists pattern: uint32 :: v == AnalogCode(pattern)
  {
    if v == Enumerated(0) || v == Enumerated(1) {
      assert v == BinaryCode(v.number == 1);
    }
    if v.Real? {
      assert v == AnalogCode(v.measure);
    }
  }

  /** The slot a write is about: the one it names, and without a name the lowest. */
  function WrittenSlot(priority: Option<uint8>): uint8 {
    if priority.None? then 16 else priority.value
  }

  predicate ProperPriority(priority: Option<uint8>) {
    priority.Some? ==> 1 <= priority.value <= 16
  }

  /** What a client asks for: a value, or Null to relinquish, at a priority or without one. */
  function PresentValueWrite<T>(
    objectId: ObjectId, value: Option<T>, code: T -> WireValue, priority: Option<uint8>, invokeId: uint8): Bytes
  {
    WritePropertyRequest(PropertyRequest(objectId, PRESENT_VALUE, NO_ARRAY_INDEX),
                         if value.Some? then code(value.value) else Null, priority, invokeId)
  }

  /** The command a client means, `any` standing for the value that a relinquish ignores. */
  function Meant<T>(value: Option<T>, priority: Option<uint8>, any: T): Command<T> {
    if value.Some? then Write(WrittenSlot(priority), value.value) else Relinquish(WrittenSlot(priority), any)
  }

  /** The packet of a write, parsed by the server, asks for the very command the client means. */
  lemma WriteArrives<T(!new)>(
    objectId: ObjectId, value: Option<T>, code: T -> WireValue, decode: WireValue -> Option<T>,
    priority: Option<uint8>, invokeId: uint8, any: T)
    requires ValidObjectId(objectId) && ProperPriority(priority) && GoodCode(code) && Decodes(code, decode)
    ensures var seen := ParseWritePropertyRequest(PresentValueWrite(objectId, value, code, priority, invokeId));
            seen.Parsed? && seen.request.invokeId == invokeId && seen.request.request.objectId == objectId &&
            var q := seen.request;
            RequestedCommand(q.request.property, q.request.arrayIndex, q.value, decode, any, q.priority)
            == Right(Meant(value, priority, any))
  {
    assert Encodable(Null) && Stable(Null);
    hide ParseWritePropertyRequest, WritePropertyRequest, Encodable, Stable, TagOf;
    var r := PropertyRequest(objectId, PRESENT_VALUE, NO_ARRAY_INDEX);
    WritePropertyRoundTripIff(r, if value.Some? then code(value.value) else Null, priority, invokeId);
  }

  /**
   The server takes a command out of the client's write and carries it out, and whoever then reads
   the priority array finds that slot as written - slot 16 when the write named none - every other
   slot as it was, and concludes the value now in effect.
   */
  ghost predicate ReadsBack<T(!new)>(
    o: Output<T>, l: Listeners, objectId: ObjectId, value: Option<T>, code: T -> WireValue,
    decode: WireValue -> Option<T>, priority: Option<uint8>, any: T, writeId: uint8, readId: uint8)
    requires Shaped(o.commands) && ListenersShaped(l)
  {
    var q := ParseWritePropertyRequest(PresentValueWrite(objectId, value, code, priority, writeId));
    q.Parsed? &&
    var asked := RequestedCommand(q.request.request.property, q.request.request.arrayIndex, q.request.value,
                                  decode, any, q.request.priority);
    asked.Right? &&
    var after := Perform(o, asked.right, l).output.commands;
    var r := PropertyRequest(objectId, PRIORITY_ARRAY, NO_ARRAY_INDEX);
    var seen := ParsePriorityArrayAck(PropertyAck(readId, r, EncodeAll(Entries(after, code))), readId, r);
    var k := if priority.None? then 15 else priority.value - 1;
    seen.Done? && Pictures(seen.value, after, code) && 0 <= k < SLOT_COUNT &&
    seen.value[k] == (if value.Some? then code(value.value) else Null) &&
    (forall j :: 0 <= j < SLOT_COUNT && j != k ==> seen.value[j] == Entries(o.commands, code)[j])
  }

  /** The whole round, for every state of the object: a write or a relinquish reads back. */
  lemma WriteThenReadBack<T(!new)>(
    o: Output<T>, l: Listeners, objectId: ObjectId, value: Option<T>, code: T -> WireValue,
    decode: WireValue -> Option<T>, priority: Option<uint8>, any: T, writeId: uint8, readId: uint8)
    requires Shaped(o.commands) && ListenersShaped(l)
    requires ValidObjectId(objectId) && ProperPriority(priority) && GoodCode(code) && Decodes(code, decode)
    ensures ReadsBack(o, l, objectId, value, code, decode, priority, any, writeId, readId)
  {
    hide PropertyAck, EncodeAll, ParsePriorityArrayAck, ParseWritePropertyRequest, PresentValueWrite, GoodCode, Decodes,
         WriteEvents, EffectiveValue, EffectivePriority, RequestedCommand, CommandInEffect, AllEncodable, AllStable;
    WriteArrives(objectId, value, code, decode, priority, writeId, any);
    var after := Perform(o, Meant(value, priority, any), l).output.commands;
    EntriesPicture(after, code);
    var r := PropertyRequest(objectId, PRIORITY_ARRAY, NO_ARRAY_INDEX);
    PriorityArrayRoundTrip(readId, objectId, Entries(after, code), readId, r);
  }

  lemma BinaryWriteThenReadBack(
    o: Output<bool>, l: Listeners, objectId: ObjectId, value: Option<bool>, priority: Option<uint8>, writeId: uint8,
    readId: uint8)
    requires Shaped(o.commands) && ListenersShaped(l) && ValidObjectId(objectId) && ProperPriority(priority)
    ensures ReadsBack(o, l, objectId, value, BinaryCode, DecodeBinary, priority, false, writeId, readId)
  {
    CodesAreGood();
    DecodersFit();
    WriteThenReadBack(o, l, objectId, value, BinaryCode, DecodeBinary, priority, false, writeId, readId);
  }

  lemma AnalogWriteThenReadBack(
    o: Output<uint32>, l: Listeners, objectId: ObjectId, value: Option<uint32>, priority: Option<uint8>,
    writeId: uint8, readId: uint8)
    requires Shaped(o.commands) && ListenersShaped(l) && ValidObjectId(objectId) && ProperPriority(priority)
    ensures ReadsBack(o, l, objectId, value, AnalogCode, DecodeAnalog, priority, 0, writeId, readId)
  {
    CodesAreGood();
    DecodersFit();
    WriteThenReadBack(o, l, objectId, value, AnalogCode, DecodeAnalog, priority, 0, writeId, readId);
  }
}
