/**
 The messages byte for byte. Round trips show that the two sides agree with each other; these show
 that they agree with what clause 20 and Annex J of ASHRAE 135 put on the wire.
 */
module WireFormat {
  import opened BacnetTypes
  import opened ByteOrder
  import opened ApplicationValue
  import opened ContextTag
  import opened Framing
  import opened PropertyMessages
  import Cov = CovMessages
  import Discovery = DiscoveryMessages

  // ----- pieces

  /** Four bytes, most significant first. */
  function WordOctets(word: uint32): (s: Bytes)
    ensures |s| == 4
  {
    [word / 0x100_0000, word / 0x1_0000 % 0x100, word / 0x100 % 0x100, word % 0x100]
  }

  /** Ten bits of type and 22 of instance. */
  function ObjectOctets(o: ObjectId): (s: Bytes)
    requires ValidObjectId(o)
    ensures |s| == 4
  {
    [o.kind / 4, o.kind % 4 * 64 + o.instance / 0x1_0000, o.instance / 0x100 % 0x100, o.instance % 0x100]
  }

  lemma NextByte(v: nat, low: uint8, n: nat)
    ensures ToBytes(v * 0x100 + low, n + 1) == ToBytes(v, n) + [low]
  {
    assert (v * 0x100 + low) / 256 == v && (v * 0x100 + low) % 256 == low;
  }

  lemma FourBytes(a: uint8, b: uint8, c: uint8, d: uint8)
    ensures ToBytes(((a * 0x100 + b) * 0x100 + c) * 0x100 + d, 4) == [a, b, c, d]
  {
    hide ToBytes;
    var v := a * 0x100 + b;
    NextByte(v * 0x100 + c, d, 3);
    NextByte(v, c, 2);
    NextByte(a, b, 1);
    LastByte(a);
  }

  lemma LastByte(v: uint32)
    ensures ToBytes(v, 1) == [v % 0x100]
  {
    assert ToBytes(v / 256, 0) == [];
  }

  lemma OneByte(v: uint32)
    requires v < 0x100
    ensures ToBytes(v, MinimalLength(v)) == [v]
    ensures ToBytes(v, UnsignedLength(v)) == [v]
  {
    LastByte(v);
    hide ToBytes;
  }

  lemma WordBytes(word: uint32)
    ensures ToBytes(word, 4) == WordOctets(word)
  {
    hide ToBytes;
    var high, middle := word / 0x100_0000, word / 0x1_0000;
    assert middle == high * 0x100 + middle % 0x100 && word / 0x100 == middle * 0x100 + word / 0x100 % 0x100;
    FourBytes(high, middle % 0x100, word / 0x100 % 0x100, word % 0x100);
  }

  lemma ObjectBytes(o: ObjectId)
    requires ValidObjectId(o)
    ensures ToBytes(ObjectIdWord(o), 4) == ObjectOctets(o)
  {
    hide ToBytes, ObjectIdWord;
    var a, q := o.kind / 4, o.kind % 4;
    var high, low, d := o.instance / 0x1_0000, o.instance / 0x100 % 0x100, o.instance % 0x100;
    InstanceParts(o.instance);
    WholeWord(o);
    FourBytes(a, q * 64 + high, low, d);
    assert ((a * 0x100 + (q * 64 + high)) * 0x100 + low) * 0x100 + d == o.kind * 0x40_0000 + o.instance;
  }

  lemma InstanceParts(n: uint32)
    ensures n == n / 0x1_0000 * 0x1_0000 + n / 0x100 % 0x100 * 0x100 + n % 0x100
  {
    assert n / 0x100 / 0x100 == n / 0x1_0000;
  }

  lemma WholeWord(o: ObjectId)
    requires ValidObjectId(o)
    ensures ObjectIdWord(o) == o.kind * 0x40_0000 + o.instance
  {}

  /** A one-byte parameter, an object and a word under a context tag. */
  lemma ContextPieces(tag: TagNumber, v: uint32, o: ObjectId, word: uint32)
    requires v < 0x100 && ValidObjectId(o)
    ensures ContextUnsigned(tag, v) == [tag * 16 + 9, v]
    ensures ContextWord(tag, ObjectIdWord(o)) == [tag * 16 + 12] + ObjectOctets(o)
    ensures ContextWord(tag, word) == [tag * 16 + 12] + WordOctets(word)
  {
    hide ToBytes;
    OneByte(v);
    ObjectBytes(o);
    WordBytes(word);
  }

  // ----- values

  /** The values that a client reads and writes most, as they stand in a message. */
  lemma ValueBytes(on: bool, v: uint32, pattern: uint32, o: ObjectId)
    requires v < 0x100 && ValidObjectId(o)
    ensures EncodeApplication(Null) == [0x00]
    ensures EncodeApplication(Boolean(on)) == [if on then 0x11 else 0x10]
    ensures EncodeApplication(Unsigned(v)) == [0x21, v]
    ensures EncodeApplication(Enumerated(v)) == [0x91, v]
    ensures EncodeApplication(Real(pattern)) == [0x44] + WordOctets(pattern)
    ensures EncodeApplication(ObjectIdentifier(o)) == [0xC4] + ObjectOctets(o)
    ensures EncodeApplication(Signed(-2)) == [0x31, 0xFE]
    ensures EncodeApplication(CharacterString([0x41, 0x42])) == [0x73, 0x00, 0x41, 0x42]
  {
    hide ToBytes;
    OneByte(v);
    OneByte(0xFE);
    ObjectBytes(o);
    WordBytes(pattern);
    LastByte(0xFFFF_FFFE);
  }

  // ----- messages

  lemma RequestBytes(invokeId: uint8, service: uint8, parameters: Bytes)
    requires |parameters| + 10 < 0x100
    ensures ConfirmedRequest(invokeId, service, parameters)
            == [0x81, 0x0A, 0x00, |parameters| + 10, 0x01, 0x04, 0x00, 0x05, invokeId, service] + parameters
  {}

  lemma ReferenceBytes(o: ObjectId, property: uint32)
    requires ValidObjectId(o) && property < 0x100
    ensures Reference(PropertyRequest(o, property, NO_ARRAY_INDEX)) == [0x0C] + ObjectOctets(o) + [0x19, property]
  {
    hide ContextUnsigned, ContextWord, ObjectIdWord, ObjectOctets;
    ContextPieces(0, 0, o, 0);
    ContextPieces(1, property, o, 0);
  }

  lemma ReadPropertyBytes(o: ObjectId, property: uint32, invokeId: uint8)
    requires ValidObjectId(o) && property < 0x100
    ensures ReadPropertyRequest(PropertyRequest(o, property, NO_ARRAY_INDEX), invokeId)
            == [0x81, 0x0A, 0x00, 0x11, 0x01, 0x04, 0x00, 0x05, invokeId, 0x0C] +
               ([0x0C] + ObjectOctets(o) + [0x19, property])
  {
    hide Reference, ConfirmedRequest, ObjectOctets;
    ReferenceBytes(o, property);
    RequestBytes(invokeId, 0x0C, Reference(PropertyRequest(o, property, NO_ARRAY_INDEX)));
  }

  lemma ReadPropertyAckBytes(o: ObjectId, property: uint32, pattern: uint32, invokeId: uint8)
    requires ValidObjectId(o) && property < 0x100
    ensures PropertyAck(invokeId, PropertyRequest(o, property, NO_ARRAY_INDEX), EncodeApplication(Real(pattern)))
            == [0x81, 0x0A, 0x00, 0x17, 0x01, 0x00, 0x30, invokeId, 0x0C] +
               (([0x0C] + ObjectOctets(o) + [0x19, property]) + ([0x3E] + ([0x44] + WordOctets(pattern) + [0x3F])))
  {
    hide Reference, EncodeApplication, ObjectOctets, WordOctets;
    ReferenceBytes(o, property);
    ValueBytes(true, 0, pattern, o);
    var r := PropertyRequest(o, property, NO_ARRAY_INDEX);
    assert [0x44] + WordOctets(pattern) == EncodeApplication(Real(pattern));
    assert |AckApdu(invokeId, r, EncodeApplication(Real(pattern)))| == 17;
  }

  lemma WriteParametersBytes(o: ObjectId, property: uint32, pattern: uint32, priority: Option<uint8>)
    requires ValidObjectId(o) && property < 0x100 && (priority.Some? ==> 1 <= priority.value <= 16)
    ensures WriteParameters(PropertyRequest(o, property, NO_ARRAY_INDEX), Real(pattern), WirePriority(priority))
            == ([0x0C] + ObjectOctets(o) + [0x19, property]) +
               ([0x3E] + (([0x44] + WordOctets(pattern)) +
                          ([0x3F] + (if priority.Some? then [0x49, priority.value] else []))))
  {
    hide Reference, EncodeApplication, ObjectOctets, WordOctets;
    ReferenceBytes(o, property);
    ValueBytes(true, 0, pattern, o);
    assert PrioritySuffix(WirePriority(priority)) == if priority.Some? then [0x49, priority.value] else [];
  }

  lemma WritePropertyBytes(o: ObjectId, property: uint32, pattern: uint32, priority: Option<uint8>, invokeId: uint8)
    requires ValidObjectId(o) && property < 0x100 && (priority.Some? ==> 1 <= priority.value <= 16)
    ensures WritePropertyRequest(PropertyRequest(o, property, NO_ARRAY_INDEX), Real(pattern), priority, invokeId)
            == [0x81, 0x0A, 0x00, if priority.Some? then 0x1A else 0x18, 0x01, 0x04, 0x00, 0x05, invokeId, 0x0F] +
               (([0x0C] + ObjectOctets(o) + [0x19, property]) +
                ([0x3E] + (([0x44] + WordOctets(pattern)) +
                           ([0x3F] + (if priority.Some? then [0x49, priority.value] else [])))))
  {
    hide WriteParameters, ConfirmedRequest, ObjectOctets, WordOctets, WirePriority;
    WriteParametersBytes(o, property, pattern, priority);
    RequestBytes(invokeId, 0x0F,
                 WriteParameters(PropertyRequest(o, property, NO_ARRAY_INDEX), Real(pattern), WirePriority(priority)));
  }

  /** SubscribeCOV for an object. */
  lemma SubscribeBytes(processId: uint32, o: ObjectId, confirmed: bool, lifetime: uint32, invokeId: uint8)
    requires ValidObjectId(o) && processId < 0x100 && lifetime < 0x100
    ensures Cov.SubscribeMessage(Cov.SubscribeRequest(processId, o, false, PRESENT_VALUE, NO_ARRAY_INDEX, confirmed,
                                                      lifetime, None), invokeId)
            == [0x81, 0x0A, 0x00, 0x15, 0x01, 0x04, 0x00, 0x05, invokeId, 0x05] +
               ([0x09, processId] + (([0x1C] + ObjectOctets(o)) +
                                     [0x29, if confirmed then 1 else 0, 0x39, lifetime]))
  {
    hide ContextUnsigned, ContextWord, ObjectIdWord, ObjectOctets, ConfirmedRequest;
    var r := Cov.SubscribeRequest(processId, o, false, PRESENT_VALUE, NO_ARRAY_INDEX, confirmed, lifetime, None);
    ContextPieces(0, processId, o, 0);
    ContextPieces(1, 0, o, 0);
    ContextPieces(3, lifetime, o, 0);
    assert Cov.SubscribeTail(r) == [0x29, if confirmed then 1 else 0, 0x39, lifetime];
    RequestBytes(invokeId, 0x05, Cov.SubscribeParameters(r));
  }

  /** SubscribeCOVProperty, with an increment. */
  lemma SubscribePropertyBytes(
    processId: uint32, o: ObjectId, property: uint32, confirmed: bool, lifetime: uint32, pattern: uint32,
    invokeId: uint8)
    requires ValidObjectId(o) && processId < 0x100 && property < 0x100 && lifetime < 0x100
    ensures Cov.SubscribeMessage(Cov.SubscribeRequest(processId, o, true, property, NO_ARRAY_INDEX, confirmed,
                                                      lifetime, Some(pattern)), invokeId)
            == [0x81, 0x0A, 0x00, 0x1E, 0x01, 0x04, 0x00, 0x05, invokeId, 0x1C] +
               ([0x09, processId] + (([0x1C] + ObjectOctets(o)) +
                                     ([0x2E, 0x09, property, 0x2F, 0x39, if confirmed then 1 else 0, 0x49, lifetime] +
                                      ([0x5C] + WordOctets(pattern)))))
  {
    hide ContextUnsigned, ContextWord, ObjectIdWord, ObjectOctets, WordOctets, ConfirmedRequest;
    var r := Cov.SubscribeRequest(processId, o, true, property, NO_ARRAY_INDEX, confirmed, lifetime, Some(pattern));
    ContextPieces(0, processId, o, 0);
    ContextPieces(0, property, o, 0);
    ContextPieces(1, 0, o, 0);
    ContextPieces(4, lifetime, o, 0);
    ContextPieces(5, 0, o, pattern);
    assert Cov.SubscribeTail(r)
           == [0x2E, 0x09, property, 0x2F, 0x39, if confirmed then 1 else 0, 0x49, lifetime] +
              ([0x5C] + WordOctets(pattern));
    hide Cov.SubscribeTail;
    RequestBytes(invokeId, 0x1C, Cov.SubscribeParameters(r));
  }

  // ----- notifications

  function FlagOctet(a: bool, b: bool, c: bool, d: bool): uint8 {
    (if a then 0x80 else 0) + (if b then 0x40 else 0) + (if c then 0x20 else 0) + (if d then 0x10 else 0)
  }

  function FlagsOf(bits: uint32): uint8 {
    FlagOctet(bits % 2 == 1, bits / 2 % 2 == 1, bits / 4 % 2 == 1, bits / 8 % 2 == 1)
  }

  lemma PackedFlags(a: bool, b: bool, c: bool, d: bool)
    ensures PackBits([a, b, c, d]) == [FlagOctet(a, b, c, d)]
  {
    var none: seq<bool> := [];
    assert [a, b, c, d][..3] == [a, b, c] && [a, b, c][..2] == [a, b] && [a, b][..1] == [a] && [a][..0] == none;
    MaskBits();
    hide SetMaskBit;
    assert PackBits([a]) == [if a then 0x80 else 0];
    assert PackBits([a, b]) == [FlagOctet(a, b, false, false)];
    assert PackBits([a, b, c]) == [FlagOctet(a, b, c, false)];
  }

  /** A multiple of a higher power of two has this bit clear. */
  lemma {:induction false} BitIsClear(v: nat, i: nat, k: nat)
    requires v == k * Pow2(i + 1)
    ensures !Bit(v, i)
  {
    if i == 0 {
      assert Pow2(1) == 2;
    } else {
      assert v == 2 * (k * Pow2(i));
      BitIsClear(v / 2, i - 1, k);
    }
  }

  lemma MaskBits()
    ensures SetMaskBit(0, 0) == 0x80
    ensures forall v: uint8 :: v % 0x80 == 0 ==> SetMaskBit(v, 1) == v + 0x40
    ensures forall v: uint8 :: v % 0x40 == 0 ==> SetMaskBit(v, 2) == v + 0x20
    ensures forall v: uint8 :: v % 0x20 == 0 ==> SetMaskBit(v, 3) == v + 0x10
  {
    assert Pow2(4) == 0x10 && Pow2(5) == 0x20;
    assert Pow2(6) == 0x40 && Pow2(7) == 0x80;
    BitIsClear(0, 7, 0);
    forall v: uint8 | v % 0x80 == 0
      ensures SetMaskBit(v, 1) == v + 0x40
    {
      BitIsClear(v, 6, v / 0x80);
    }
    forall v: uint8 | v % 0x40 == 0
      ensures SetMaskBit(v, 2) == v + 0x20
    {
      BitIsClear(v, 5, v / 0x40);
    }
    forall v: uint8 | v % 0x20 == 0
      ensures SetMaskBit(v, 3) == v + 0x10
    {
      BitIsClear(v, 4, v / 0x20);
    }
  }

  /** Four status flags: four padding bits, then the flags from the top of one byte. */
  lemma StatusFlagsBytes(bits: uint32)
    ensures EncodeApplication(BitString(bits, 4))
            == [0x82, 0x04, FlagsOf(bits)]
  {
    FourBits(bits);
    var a, b, c, d := bits % 2 == 1, bits / 2 % 2 == 1, bits / 4 % 2 == 1, bits / 8 % 2 == 1;
    hide Bits;
    PackedFlags(a, b, c, d);
    hide PackBits, FlagOctet;
  }

  lemma NextBit(v: nat, n: nat)
    ensures Bits(v, n + 1) == [v % 2 == 1] + Bits(v / 2, n)
  {}

  lemma FourBits(v: uint32)
    ensures Bits(v, 4) == [v % 2 == 1, v / 2 % 2 == 1, v / 4 % 2 == 1, v / 8 % 2 == 1]
  {
    NextBit(v, 3);
    NextBit(v / 2, 2);
    NextBit(v / 4, 1);
    NextBit(v / 8, 0);
    hide Bits;
    assert v / 2 / 2 == v / 4 && v / 4 / 2 == v / 8;
  }

  lemma ItemHead(property: uint32, rest: Bytes)
    requires property < 0x100
    ensures ContextUnsigned(0, property) + (ContextIndex(1, NO_ARRAY_INDEX) + ([0x2E] + rest))
            == [0x09, property, 0x2E] + rest
  {
    hide ContextUnsigned;
    ContextPieces(0, property, ObjectId(0, 0), 0);
  }

  lemma ValueItemBytes(pattern: uint32, tail: Bytes)
    ensures Cov.PropertyItem(PropertyValue(PRESENT_VALUE, NO_ARRAY_INDEX, Real(pattern)), tail)
            == [0x09, 0x55, 0x2E] + (([0x44] + WordOctets(pattern)) + ([0x2F] + tail))
  {
    hide EncodeApplication, WordOctets, ContextUnsigned, ContextIndex;
    ValueBytes(true, 0, pattern, ObjectId(0, 0));
    ItemHead(PRESENT_VALUE, EncodeApplication(Real(pattern)) + ([0x2F] + tail));
  }

  lemma FlagsItemBytes(bits: uint32, tail: Bytes)
    ensures Cov.PropertyItem(PropertyValue(STATUS_FLAGS, NO_ARRAY_INDEX, BitString(bits, 4)), tail)
            == [0x09, 0x6F, 0x2E] + ([0x82, 0x04, FlagsOf(bits)] + ([0x2F] + tail))
  {
    hide EncodeApplication, ContextUnsigned, ContextIndex, FlagsOf;
    StatusFlagsBytes(bits);
    ItemHead(STATUS_FLAGS, EncodeApplication(BitString(bits, 4)) + ([0x2F] + tail));
  }

  /** What an analog object's notification carries: Present_Value and Status_Flags, each in its brackets. */
  lemma NotifiedValuesBytes(pattern: uint32, bits: uint32)
    ensures Cov.PropertyList([PropertyValue(PRESENT_VALUE, NO_ARRAY_INDEX, Real(pattern)),
                              PropertyValue(STATUS_FLAGS, NO_ARRAY_INDEX, BitString(bits, 4))])
            == [0x4E] + ([0x09, 0x55, 0x2E] + (([0x44] + WordOctets(pattern)) + ([0x2F] +
                         ([0x09, 0x6F, 0x2E] + ([0x82, 0x04, FlagsOf(bits)] + ([0x2F] + [0x4F]))))))
  {
    hide Cov.PropertyItem, WordOctets, FlagsOf;
    var value := PropertyValue(PRESENT_VALUE, NO_ARRAY_INDEX, Real(pattern));
    var flags := PropertyValue(STATUS_FLAGS, NO_ARRAY_INDEX, BitString(bits, 4));
    FlagsItemBytes(bits, [0x4F]);
    ValueItemBytes(pattern, Cov.PropertyItem(flags, [0x4F]));
    var none: seq<WireProperty> := [];
    assert [value, flags][1..] == [flags] && [flags][1..] == none;
    assert Cov.PropertyItems(none, [0x4F]) == [0x4F];
    assert Cov.PropertyItems([flags], [0x4F]) == Cov.PropertyItem(flags, [0x4F]);
  }

  /** A whole notification of an analog object, confirmed or not. */
  lemma NotificationBytes(
    processId: uint32, device: ObjectId, o: ObjectId, secondsLeft: uint32, pattern: uint32, bits: uint32,
    confirmed: bool, invokeId: uint8)
    requires ValidObjectId(device) && ValidObjectId(o) && processId < 0x100 && secondsLeft < 0x100
    ensures Cov.Notification(Cov.CovIdentity(processId, device, o, secondsLeft),
                             [PropertyValue(PRESENT_VALUE, NO_ARRAY_INDEX, Real(pattern)),
                              PropertyValue(STATUS_FLAGS, NO_ARRAY_INDEX, BitString(bits, 4))], confirmed, invokeId)
            == (if confirmed then [0x81, 0x0A, 0x00, 0x2A, 0x01, 0x04, 0x00, 0x05, invokeId, 0x01]
                else [0x81, 0x0A, 0x00, 0x28, 0x01, 0x00, 0x10, 0x02]) +
               ([0x09, processId] + (([0x1C] + ObjectOctets(device)) + (([0x2C] + ObjectOctets(o)) +
                ([0x39, secondsLeft] +
                 ([0x4E] + ([0x09, 0x55, 0x2E] + (([0x44] + WordOctets(pattern)) + ([0x2F] +
                            ([0x09, 0x6F, 0x2E] + ([0x82, 0x04, FlagsOf(bits)] + ([0x2F] + [0x4F])))))))))))
  {
    hide ContextUnsigned, ContextWord, ObjectIdWord, ObjectOctets, WordOctets, FlagsOf, Cov.PropertyList;
    ContextPieces(0, processId, device, 0);
    ContextPieces(1, 0, device, 0);
    ContextPieces(2, 0, o, 0);
    ContextPieces(3, secondsLeft, o, 0);
    NotifiedValuesBytes(pattern, bits);
  }

  // ----- discovery

  lemma TwoBytes(v: uint32)
    requires 0x100 <= v < 0x1_0000
    ensures ToBytes(v, MinimalLength(v)) == [v / 0x100, v % 0x100]
  {
    hide ToBytes;
    NextByte(v / 0x100, v % 0x100, 1);
    LastByte(v / 0x100);
  }

  /** I-Am, for a maximum APDU of more than 255 bytes and a one-byte vendor. */
  lemma IAmBytes(d: Discovery.DeviceInfo)
    requires d.instance <= MAX_INSTANCE && 0x100 <= d.maxApdu < 0x1_0000 && d.vendor < 0x100
    ensures Discovery.IAm(d)
            == [0x81, 0x0A, 0x00, 0x14, 0x01, 0x00, 0x10, 0x00] +
               (([0xC4] + ObjectOctets(ObjectId(8, d.instance))) +
                [0x22, d.maxApdu / 0x100, d.maxApdu % 0x100, 0x91, d.segmentation, 0x21, d.vendor])
  {
    hide ToBytes, ObjectOctets, ObjectIdWord;
    ObjectBytes(ObjectId(8, d.instance));
    TwoBytes(d.maxApdu);
    OneByte(d.segmentation);
    OneByte(d.vendor);
    assert Discovery.IAmBody(d)
           == ([0xC4] + ObjectOctets(ObjectId(8, d.instance))) +
              [0x22, d.maxApdu / 0x100, d.maxApdu % 0x100, 0x91, d.segmentation, 0x21, d.vendor];
    hide Discovery.IAmBody;
  }
}
