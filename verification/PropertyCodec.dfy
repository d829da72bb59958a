/** The ReadProperty, WriteProperty and Priority_Array builders and parsers, working in place. */
module PropertyCodec {
  import opened BacnetTypes
  import opened ByteOrder
  import opened ApplicationValue
  import opened ValueCodec
  import opened ContextTag
  import opened Framing
  import opened PropertyMessages

  // ----- building

  method WriteReference(buffer: array<uint8>, offset: nat, r: PropertyRequest) returns (next: nat)
    requires offset + |Reference(r)| <= buffer.Length
    modifies buffer
    ensures next == offset + |Reference(r)|
    ensures buffer[..next] == old(buffer[..offset]) + Reference(r)
  {
    next := WriteContextWord(buffer, offset, 0, ObjectIdWord(r.objectId));
    next := WriteContextUnsigned(buffer, next, 1, r.property);
    next := WriteContextIndex(buffer, next, 2, r.arrayIndex);
    Regroup(old(buffer[..offset]), ContextWord(0, ObjectIdWord(r.objectId)),
            ContextUnsigned(1, r.property), ContextIndex(2, r.arrayIndex));
  }

  /** A builder that asks for `minimum` bytes before it writes `prefix` bytes unchecked. */
  predicate StaysInside(length: nat, minimum: nat, prefix: nat) {
    length < minimum || prefix <= length
  }

  /** The fixed start of every confirmed request, length still open. */
  method WriteConfirmedHead(buffer: array<uint8>, invokeId: uint8, service: uint8) returns (next: nat)
    requires buffer.Length >= 10
    modifies buffer
    ensures next == 10
    ensures buffer[..next] == [BVLC_IP, UNICAST, 0, 0] +
                              ([NPDU_VERSION, EXPECTING_REPLY] + ConfirmedApdu(invokeId, service, []))
  {
    next := PutBytes(buffer, 0, [BVLC_IP, UNICAST, 0, 0, NPDU_VERSION, EXPECTING_REPLY,
                                 0x00, 0x05, invokeId, service]);
  }

  lemma ConfirmedLayout(invokeId: uint8, service: uint8, parameters: Bytes)
    ensures [BVLC_IP, UNICAST, 0, 0] + ([NPDU_VERSION, EXPECTING_REPLY] + ConfirmedApdu(invokeId, service, []))
            + parameters
            == [BVLC_IP, UNICAST, 0, 0] +
               ([NPDU_VERSION, EXPECTING_REPLY] + ConfirmedApdu(invokeId, service, parameters))
  {}

  const MAX_READ_REQUEST := 25

  method BuildReadPropertyRequest(buffer: array<uint8>, r: PropertyRequest, invokeId: uint8)
    returns (size: nat)
    modifies buffer
    ensures size == if buffer.Length < MAX_READ_REQUEST || r.objectId.instance > MAX_INSTANCE then 0
                    else |ReadPropertyRequest(r, invokeId)|
    ensures size > 0 ==> size <= buffer.Length && buffer[..size] == ReadPropertyRequest(r, invokeId)
  {
    if buffer.Length < MAX_READ_REQUEST || r.objectId.instance > MAX_INSTANCE {
      return 0;
    }
    var next := WriteConfirmedHead(buffer, invokeId, SERVICE_READ_PROPERTY);
    size := WriteReference(buffer, next, r);
    ConfirmedLayout(invokeId, SERVICE_READ_PROPERTY, Reference(r));
    PatchLength(buffer, size,
                [NPDU_VERSION, EXPECTING_REPLY] + ConfirmedApdu(invokeId, SERVICE_READ_PROPERTY, Reference(r)));
  }

  /** A value between brackets, when it has an encoding and everything fits in the buffer. */
  method WriteBracketedValue(buffer: array<uint8>, offset: nat, value: WireValue) returns (ok: bool, next: nat)
    requires offset <= buffer.Length
    modifies buffer
    ensures ok == (Encodable(value) && offset + |EncodeApplication(value)| + 2 <= buffer.Length)
    ensures ok ==> next == offset + |EncodeApplication(value)| + 2 &&
                   buffer[..next] == old(buffer[..offset]) + AckValues(EncodeApplication(value))
  {
    next := offset;
    if offset + 2 > buffer.Length {
      return false, next;
    }
    next := PutByte(buffer, offset, OPEN_VALUE);
    var size := EncodeApplicationValue(buffer, next, buffer.Length - next - 1, value);
    if size == 0 {
      return false, next;
    }
    next := PutByte(buffer, next + size, CLOSE_VALUE);
    ok := true;
    Regroup(old(buffer[..offset]), [OPEN_VALUE], EncodeApplication(value), [CLOSE_VALUE]);
  }

  /** Everything of an acknowledgement up to its values. */
  method WriteAckPrefix(buffer: array<uint8>, invokeId: uint8, r: PropertyRequest) returns (next: nat)
    requires buffer.Length >= 9 + |Reference(r)|
    modifies buffer
    ensures next == 9 + |Reference(r)|
    ensures buffer[..next] == [BVLC_IP, UNICAST, 0, 0] +
                              ([NPDU_VERSION, 0] + ([0x30, invokeId, SERVICE_READ_PROPERTY] + Reference(r)))
  {
    ghost var head: Bytes := [BVLC_IP, UNICAST, 0, 0, NPDU_VERSION, 0, 0x30, invokeId, SERVICE_READ_PROPERTY];
    next := PutBytes(buffer, 0, [BVLC_IP, UNICAST, 0, 0, NPDU_VERSION, 0, 0x30, invokeId, SERVICE_READ_PROPERTY]);
    next := WriteReference(buffer, next, r);
    assert buffer[..next] == head + Reference(r);
  }

  lemma AckLayout(invokeId: uint8, r: PropertyRequest, values: Bytes)
    ensures [BVLC_IP, UNICAST, 0, 0] +
            ([NPDU_VERSION, 0] + ([0x30, invokeId, SERVICE_READ_PROPERTY] + Reference(r))) + AckValues(values)
            == [BVLC_IP, UNICAST, 0, 0] + ([NPDU_VERSION, 0] + AckApdu(invokeId, r, values))
  {}

  /** The acknowledgement of one value. */
  method BuildReadPropertyAck(buffer: array<uint8>, invokeId: uint8, r: PropertyRequest, value: WireValue)
    returns (size: nat)
    requires ValidObjectId(r.objectId) ==> StaysInside(buffer.Length, 20, 9 + |Reference(r)|)
    modifies buffer
    ensures var message := PropertyAck(invokeId, r, EncodeApplication(value));
            size == (if ValidObjectId(r.objectId) && Encodable(value) && 20 <= buffer.Length &&
                        |message| <= buffer.Length then |message| else 0) &&
            (size > 0 ==> buffer[..size] == message)
  {
    if r.objectId.kind > MAX_OBJECT_KIND || r.objectId.instance > MAX_INSTANCE || buffer.Length < 20 {
      return 0;
    }
    var next := WriteAckPrefix(buffer, invokeId, r);
    var ok;
    ok, next := WriteBracketedValue(buffer, next, value);
    if !ok {
      return 0;
    }
    size := next;
    AckLayout(invokeId, r, EncodeApplication(value));
    PatchLength(buffer, size, [NPDU_VERSION, 0] + AckApdu(invokeId, r, EncodeApplication(value)));
  }

  /** When a write is refused before anything is built. */
  predicate WriteRefused(r: PropertyRequest, priority: Option<uint8>) {
    !ValidObjectId(r.objectId) ||
    (priority.Some? && (priority.value > 16 || (priority.value == 0 && r.property == PRESENT_VALUE)))
  }

  lemma WriteLayout(invokeId: uint8, r: PropertyRequest, value: WireValue, wire: Option<uint8>)
    ensures [BVLC_IP, UNICAST, 0, 0] +
            ([NPDU_VERSION, EXPECTING_REPLY] + ConfirmedApdu(invokeId, SERVICE_WRITE_PROPERTY, []))
            + Reference(r) + AckValues(EncodeApplication(value)) + PrioritySuffix(wire)
            == [BVLC_IP, UNICAST, 0, 0] +
               ([NPDU_VERSION, EXPECTING_REPLY] +
                ConfirmedApdu(invokeId, SERVICE_WRITE_PROPERTY, WriteParameters(r, value, wire)))
  {
    var head := [BVLC_IP, UNICAST, 0, 0] +
                ([NPDU_VERSION, EXPECTING_REPLY] + ConfirmedApdu(invokeId, SERVICE_WRITE_PROPERTY, []));
    var code, suffix := EncodeApplication(value), PrioritySuffix(wire);
    BracketSuffix(code, suffix);
    Regroup(head, Reference(r), AckValues(code), suffix);
    ConfirmedLayout(invokeId, SERVICE_WRITE_PROPERTY, WriteParameters(r, value, wire));
  }

  lemma BracketSuffix(code: Bytes, suffix: Bytes)
    ensures AckValues(code) + suffix == [OPEN_VALUE] + (code + ([CLOSE_VALUE] + suffix))
  {}

  method BuildWritePropertyRequest(
    buffer: array<uint8>, r: PropertyRequest, value: WireValue, priority: Option<uint8>, invokeId: uint8)
    returns (size: nat)
    requires !WriteRefused(r, priority) ==> StaysInside(buffer.Length, 24, 10 + |Reference(r)|)
    modifies buffer
    ensures var message := WritePropertyRequest(r, value, priority, invokeId);
            size == (if !WriteRefused(r, priority) && Encodable(value) && 24 <= buffer.Length &&
                        |message| <= buffer.Length then |message| else 0) &&
            (size > 0 ==> buffer[..size] == message)
  {
    var encodePriority := priority.Some? && priority.value != 0;
    if buffer.Length < 24 || r.objectId.kind > MAX_OBJECT_KIND || r.objectId.instance > MAX_INSTANCE ||
       (priority.Some? && priority.value > 16) ||
       (priority.Some? && priority.value == 0 && r.property == PRESENT_VALUE) {
      return 0;
    }
    var next := WriteConfirmedHead(buffer, invokeId, SERVICE_WRITE_PROPERTY);
    next := WriteReference(buffer, next, r);
    ghost var wire := WirePriority(priority);
    assert |WritePropertyRequest(r, value, priority, invokeId)|
        == next + |EncodeApplication(value)| + 2 + |PrioritySuffix(wire)|;
    var ok;
    ok, next := WriteBracketedValue(buffer, next, value);
    if !ok {
      return 0;
    }
    size := next;
    if encodePriority {
      if next + 2 > buffer.Length {
        return 0;
      }
      PriorityIsOneByte(priority.value);
      size := WriteContextUnsigned(buffer, next, 4, priority.value);
    }
    WriteLayout(invokeId, r, value, wire);
    assert encodePriority <==> wire.Some?;
    assert wire.None? ==> PrioritySuffix(wire) == [] && buffer[..size] + [] == buffer[..size];
    PatchLength(buffer, size,
                [NPDU_VERSION, EXPECTING_REPLY] +
                ConfirmedApdu(invokeId, SERVICE_WRITE_PROPERTY, WriteParameters(r, value, wire)));
  }

  lemma PriorityIsOneByte(p: uint8)
    ensures ContextUnsigned(4, p) == Context(4, [p])
  {
    assert ToBytes(p, 1) == [p] by { assert ToBytes(p / 256, 0) == []; }
  }

  /** The encodings of the first `n` values. */
  ghost function EncodeFirst(values: seq<WireValue>, n: nat): Bytes
    requires n <= |values|
  {
    if n == 0 then [] else EncodeFirst(values, n - 1) + EncodeApplication(values[n - 1])
  }

  lemma {:induction false} EncodeFirstThenRest(values: seq<WireValue>, n: nat)
    requires n <= |values|
    ensures EncodeAll(values) == EncodeFirst(values, n) + EncodeAll(values[n..])
  {
    hide EncodeApplication;
    if n == 0 {
      assert values[0..] == values;
    } else {
      EncodeFirstThenRest(values, n - 1);
      assert values[n - 1..][1..] == values[n..];
      AppendGroups(EncodeFirst(values, n - 1), EncodeApplication(values[n - 1]), EncodeAll(values[n..]));
    }
  }

  lemma AppendGroups(a: Bytes, b: Bytes, c: Bytes)
    ensures a + b + c == a + (b + c)
  {}

  /** Appends values until one has no encoding or no longer fits before the closing bracket. */
  method WriteValues(buffer: array<uint8>, offset: nat, values: seq<WireValue>) returns (ok: bool, next: nat)
    requires offset < buffer.Length
    modifies buffer
    ensures ok == (AllEncodable(values) && offset + |EncodeAll(values)| + 1 <= buffer.Length)
    ensures ok ==> next == offset + |EncodeAll(values)| &&
                   buffer[..next] == old(buffer[..offset]) + EncodeAll(values)
  {
    hide EncodeApplication, EncodeAll;
    next := offset;
    ok := true;
    ghost var before := buffer[..offset];
    for i := 0 to |values|
      invariant offset <= next < buffer.Length
      invariant forall k :: 0 <= k < i ==> Encodable(values[k])
      invariant next == offset + |EncodeFirst(values, i)|
      invariant buffer[..next] == before + EncodeFirst(values, i)
    {
      EncodeFirstThenRest(values, i + 1);
      var size := EncodeApplicationValue(buffer, next, buffer.Length - next - 1, values[i]);
      if size == 0 {
        return false, next;
      }
      AppendGroups(before, EncodeFirst(values, i), EncodeApplication(values[i]));
      next := next + size;
    }
    EncodeFirstIsAll(values);
  }

  lemma EncodeFirstIsAll(values: seq<WireValue>)
    ensures EncodeFirst(values, |values|) == EncodeAll(values)
  {
    EncodeFirstThenRest(values, |values|);
    assert values[|values|..] == [];
  }

  /** The acknowledgement of a whole Priority_Array, its length, or one slot. */
  method BuildPriorityArrayAck(buffer: array<uint8>, invokeId: uint8, r: PropertyRequest, slots: seq<WireValue>)
    returns (size: nat)
    requires ValidObjectId(r.objectId) && r.property == PRIORITY_ARRAY && slots != [] ==>
               StaysInside(buffer.Length, 16, 9 + |Reference(r)|)
    modifies buffer
    ensures var selected := SelectedSlots(slots, r.arrayIndex);
            if r.property == PRIORITY_ARRAY && slots != [] && 16 <= buffer.Length &&
               ValidObjectId(r.objectId) && selected.Some? && AllEncodable(selected.value) &&
               |PropertyAck(invokeId, r, EncodeAll(selected.value))| <= buffer.Length &&
               |PropertyAck(invokeId, r, EncodeAll(selected.value))| <= 0xFFFF
            then size == |PropertyAck(invokeId, r, EncodeAll(selected.value))| &&
                 buffer[..size] == PropertyAck(invokeId, r, EncodeAll(selected.value))
            else size == 0
  {
    if r.property != PRIORITY_ARRAY || slots == [] || buffer.Length < 16 ||
       r.objectId.kind > MAX_OBJECT_KIND || r.objectId.instance > MAX_INSTANCE {
      return 0;
    }
    var next := WriteAckPrefix(buffer, invokeId, r);
    ghost var prefix := buffer[..next];
    if next + 2 > buffer.Length {
      return 0;
    }
    next := PutByte(buffer, next, OPEN_VALUE);
    var values;
    if r.arrayIndex == 0 {
      values := [Unsigned(|slots| % 0x1_0000_0000)];
    } else if r.arrayIndex != NO_ARRAY_INDEX {
      if r.arrayIndex - 1 >= |slots| {
        return 0;
      }
      values := [slots[r.arrayIndex - 1]];
    } else {
      values := slots;
    }
    assert |PropertyAck(invokeId, r, EncodeAll(values))| == next + |EncodeAll(values)| + 1;
    var ok;
    ok, next := WriteValues(buffer, next, values);
    if !ok {
      return 0;
    }
    next := PutByte(buffer, next, CLOSE_VALUE);
    if next > 0xFFFF {
      return 0;
    }
    size := next;
    Regroup(prefix, [OPEN_VALUE], EncodeAll(values), [CLOSE_VALUE]);
    AckLayout(invokeId, r, EncodeAll(values));
    PatchLength(buffer, size, [NPDU_VERSION, 0] + AckApdu(invokeId, r, EncodeAll(values)));
  }

  /**
   The buffer lengths that pass a builder's check although some request overruns them: 20 to 23 bytes
   for an acknowledgement, 24 for a write request, 16 to 20 for a Priority_Array acknowledgement.
   */
  lemma OverrunWindows(length: nat)
    ensures (exists r: PropertyRequest :: ValidObjectId(r.objectId) && !StaysInside(length, 20, 9 + |Reference(r)|))
            <==> 20 <= length < 24
    ensures (exists r: PropertyRequest :: ValidObjectId(r.objectId) && !StaysInside(length, 24, 10 + |Reference(r)|))
            <==> length == 24
    ensures (exists r: PropertyRequest :: ValidObjectId(r.objectId) && r.property == PRIORITY_ARRAY &&
                                          !StaysInside(length, 16, 9 + |Reference(r)|))
            <==> 16 <= length < 21
  {
    var long := PropertyRequest(ObjectId(0, 0), 0x1_0000, 0x1_0000);
    var longArray := PropertyRequest(ObjectId(0, 0), PRIORITY_ARRAY, 0x1_0000);
    ReferenceSize(long);
    ReferenceSize(longArray);
    forall r: PropertyRequest
      ensures |Reference(r)| <= 15 && (r.property == PRIORITY_ARRAY ==> |Reference(r)| <= 12)
    {
      ReferenceSize(r);
    }
  }

  lemma ReferenceSize(r: PropertyRequest)
    ensures |Reference(r)| == 6 + UnsignedLength(r.property) +
                              (if r.arrayIndex == NO_ARRAY_INDEX then 0 else 1 + UnsignedLength(r.arrayIndex))
    ensures UnsignedLength(PRIORITY_ARRAY) == 1 && UnsignedLength(0x1_0000) == 4
  {}

  // ----- parsing

  method ReadReadPropertyRequest(buffer: Bytes) returns (status: RequestParse<ReadHeader>)
    ensures status == ParseReadPropertyRequest(buffer)
  {
    var confirmed, offset := ReadConfirmedHeader(buffer);
    if confirmed.Malformed? {
      return Malformed;
    }
    if confirmed.Unrelated? || confirmed.request.service != SERVICE_READ_PROPERTY {
      return Unrelated;
    }
    var ok, word := false, 0;
    ok, word, offset := ReadContextValue(buffer, offset, 0);
    if !ok {
      return Malformed;
    }
    var property;
    ok, property, offset := ReadContextValue(buffer, offset, 1);
    if !ok {
      return Malformed;
    }
    var arrayIndex := NO_ARRAY_INDEX;
    if offset < |buffer| {
      ok, arrayIndex, offset := ReadContextValue(buffer, offset, 2);
      if !ok {
        return Malformed;
      }
    }
    if offset != |buffer| {
      return Malformed;
    }
    status := Parsed(ReadHeader(confirmed.request.invokeId, PropertyRequest(ObjectIdOf(word), property, arrayIndex)));
  }

  method ReadReference(buffer: Bytes, offset: nat) returns (ok: bool, r: PropertyRequest, next: nat)
    requires offset <= |buffer|
    ensures Agrees(ParseReference(buffer[offset..]), buffer, ok, r, next)
  {
    r, next := PropertyRequest(ObjectId(0, 0), 0, 0), offset;
    var word;
    ok, word, next := ReadContextValue(buffer, offset, 0);
    if !ok {
      return;
    }
    var property;
    ok, property, next := ReadContextValue(buffer, next, 1);
    if !ok {
      return;
    }
    var arrayIndex;
    ok, arrayIndex, next := ReadIndex(buffer, next, 2);
    r := PropertyRequest(ObjectIdOf(word), property, arrayIndex);
  }

  method ReadBracketed(buffer: Bytes, offset: nat, open: uint8, close: uint8, property: uint32, arrayIndex: uint32)
    returns (ok: bool, value: WireValue, next: nat)
    requires offset <= |buffer|
    ensures Agrees(ParseBracketed(buffer[offset..], open, close, property, arrayIndex), buffer, ok, value, next)
  {
    value := Empty;
    ok, next := ReadByte(buffer, offset, open);
    if !ok {
      return;
    }
    ok, value, next := ReadApplicationValue(buffer, next, property, arrayIndex);
    if !ok {
      return;
    }
    ok, next := ReadByte(buffer, next, close);
  }

  method ReadWritePropertyRequest(buffer: Bytes) returns (status: RequestParse<WriteHeader>)
    ensures status == ParseWritePropertyRequest(buffer)
  {
    var confirmed, offset := ReadConfirmedHeader(buffer);
    if confirmed.Malformed? {
      return Malformed;
    }
    if confirmed.Unrelated? || confirmed.request.service != SERVICE_WRITE_PROPERTY {
      return Unrelated;
    }
    var ok, r := false, PropertyRequest(ObjectId(0, 0), 0, 0);
    ok, r, offset := ReadReference(buffer, offset);
    if !ok {
      return Malformed;
    }
    var value;
    ok, value, offset := ReadBracketed(buffer, offset, OPEN_VALUE, CLOSE_VALUE, r.property, r.arrayIndex);
    if !ok {
      return Malformed;
    }
    var priority: Option<uint8> := None;
    if offset < |buffer| {
      var p;
      ok, p, offset := ReadContextValue(buffer, offset, 4);
      if !ok || p > 255 {
        return Malformed;
      }
      priority := Some(p);
    }
    if offset != |buffer| {
      return Malformed;
    }
    status := Parsed(WriteHeader(confirmed.request.invokeId, r, value, priority));
  }

  method ReadAckHead(buffer: Bytes, invokeId: uint8) returns (ok: bool, next: nat)
    ensures match ParseAckHead(buffer, invokeId)
            case Fail => !ok
            case Done(_, rest) => ok && next <= |buffer| && rest == buffer[next..]
  {
    ok, next := ReadFrame(buffer, 17, false);
    if !ok || next + 3 > |buffer| || buffer[next] / 16 != COMPLEX_ACK || buffer[next + 1] != invokeId ||
       buffer[next + 2] != SERVICE_READ_PROPERTY {
      return false, next;
    }
    Slices(buffer, next, 3, 0);
    next := next + 3;
  }

  method ReadEcho(buffer: Bytes, offset: nat, expected: PropertyRequest)
    returns (ok: bool, arrayIndex: uint32, next: nat)
    requires offset <= |buffer|
    ensures Agrees(ParseEcho(buffer[offset..], expected), buffer, ok, arrayIndex, next)
  {
    arrayIndex := NO_ARRAY_INDEX;
    var word;
    ok, word, next := ReadContextValue(buffer, offset, 0);
    if !ok || word != ObjectIdWord(expected.objectId) {
      return false, arrayIndex, next;
    }
    var property;
    ok, property, next := ReadContextValue(buffer, next, 1);
    if !ok || property != expected.property {
      return false, arrayIndex, next;
    }
    var has := HasContext(buffer, next, 2);
    if has {
      ok, arrayIndex, next := ReadContextValue(buffer, next, 2);
      if !ok || (expected.arrayIndex != NO_ARRAY_INDEX && arrayIndex != expected.arrayIndex) {
        return false, arrayIndex, next;
      }
    } else if expected.arrayIndex != NO_ARRAY_INDEX {
      return false, arrayIndex, next;
    }
  }

  method ReadReadPropertyAck(buffer: Bytes, invokeId: uint8, expected: PropertyRequest)
    returns (ok: bool, value: WireValue, next: nat)
    ensures Agrees(ParseReadPropertyAck(buffer, invokeId, expected), buffer, ok, value, next)
  {
    value := Empty;
    ok, next := ReadAckHead(buffer, invokeId);
    if !ok {
      return;
    }
    var arrayIndex;
    ok, arrayIndex, next := ReadEcho(buffer, next, expected);
    if !ok {
      return;
    }
    ok, value, next := ReadBracketed(buffer, next, OPEN_VALUE, CLOSE_VALUE, expected.property, arrayIndex);
  }

  lemma SlotRead(s: Bytes, count: nat, value: WireValue, rest: Bytes, values: seq<WireValue>)
    requires count > 0 && s != [] && s[0] != CLOSE_VALUE
    requires ParseApplication(s, PRIORITY_ARRAY, NO_ARRAY_INDEX) == Done(value, rest)
    ensures Prepend(values, ParseSlots(s, count))
            == Prepend(values + [value], ParseSlots(rest, count - 1))
  {
    assert ParseSlots(s, count) == Prepend([value], ParseSlots(rest, count - 1));
    PrependOne(values, value, ParseSlots(rest, count - 1));
  }

  method ReadSlots(buffer: Bytes, offset: nat, count: nat)
    returns (ok: bool, values: seq<WireValue>, next: nat)
    requires offset <= |buffer|
    ensures Agrees(ParseSlots(buffer[offset..], count), buffer, ok, values, next)
  {
    hide ParseApplication;
    values, next := [], offset;
    ghost var whole := ParseSlots(buffer[offset..], count);
    PrependNothing(whole);
    for slot := 0 to count
      invariant next <= |buffer|
      invariant whole == Prepend(values, ParseSlots(buffer[next..], count - slot))
    {
      if next >= |buffer| || buffer[next] == CLOSE_VALUE {
        return false, values, next;
      }
      var fine, value, after := ReadApplicationValue(buffer, next, PRIORITY_ARRAY, NO_ARRAY_INDEX);
      if !fine {
        return false, values, next;
      }
      SlotRead(buffer[next..], count - slot, value, buffer[after..], values);
      values := values + [value];
      next := after;
    }
    ok := true;
    assert values + [] == values;
  }

  method ReadPriorityArrayAck(buffer: Bytes, invokeId: uint8, expected: PropertyRequest)
    returns (ok: bool, slots: seq<WireValue>)
    ensures var p := ParsePriorityArrayAck(buffer, invokeId, expected);
            ok == p.Done? && (ok ==> slots == p.value)
  {
    slots := [];
    if expected.property != PRIORITY_ARRAY || expected.arrayIndex != NO_ARRAY_INDEX {
      return false, slots;
    }
    var next;
    ok, next := ReadAckHead(buffer, invokeId);
    if !ok {
      return false, slots;
    }
    ok, slots := ReadPriorityArrayBody(buffer, next, expected.objectId);
  }

  method ReadPriorityArrayBody(buffer: Bytes, offset: nat, objectId: ObjectId)
    returns (ok: bool, slots: seq<WireValue>)
    requires offset <= |buffer|
    ensures var p := ParsePriorityArrayBody(buffer[offset..], objectId);
            ok == p.Done? && (ok ==> slots == p.value)
  {
    hide ParseContext, ParseSlots;
    slots := [];
    var next, word, property;
    ok, word, next := ReadContextValue(buffer, offset, 0);
    if !ok || word != ObjectIdWord(objectId) {
      return false, slots;
    }
    ok, property, next := ReadContextValue(buffer, next, 1);
    if !ok || property != PRIORITY_ARRAY {
      return false, slots;
    }
    ok, next := ReadByte(buffer, next, OPEN_VALUE);
    if !ok {
      return false, slots;
    }
    ok, slots, next := ReadSlots(buffer, next, PRIORITY_SLOTS);
    ok := ok && next + 1 == |buffer| && buffer[next] == CLOSE_VALUE;
  }
}
