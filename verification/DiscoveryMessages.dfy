/** The I-Am announcement. */
module DiscoveryMessages {
  import opened BacnetTypes
  import opened ByteOrder
  import opened ApplicationValue
  import opened ValueCodec
  import opened Framing

  datatype DeviceInfo = DeviceInfo(instance: uint32, maxApdu: uint32, segmentation: uint8, vendor: uint16)

  function DeviceIdCode(instance: uint32): Bytes
  {
    [0xC4] + ToBytes(ObjectIdWord(ObjectId(DEVICE, instance)), 4)
  }

  function IAmBody(d: DeviceInfo): Bytes {
    DeviceIdCode(d.instance) +
    (EncodeInteger(TAG_UNSIGNED, d.maxApdu) +
     (EncodeInteger(TAG_ENUMERATED, d.segmentation) + EncodeInteger(TAG_UNSIGNED, d.vendor)))
  }

  function IAm(d: DeviceInfo): Bytes {
    Frame([NPDU_VERSION, 0] + ([0x10, 0x00] + IAmBody(d)))
  }

  /** Bytes after the vendor are not looked at. */
  function ParseIAmBody(s: Bytes): Parsed<DeviceInfo> {
    var (word, s1) :- ParseInteger(s, TAG_OBJECT_IDENTIFIER);
    if ObjectIdOf(word).kind != DEVICE then Fail
    else
      var (maxApdu, s2) :- ParseInteger(s1, TAG_UNSIGNED);
      var (segmentation, s3) :- ParseInteger(s2, TAG_ENUMERATED);
      if segmentation > 255 then Fail
      else
        var (vendor, s4) :- ParseInteger(s3, TAG_UNSIGNED);
        if vendor > 0xFFFF then Fail
        else Done(DeviceInfo(ObjectIdOf(word).instance, maxApdu, segmentation, vendor), s4)
  }

  function ParseIAm(packet: Bytes): Parsed<DeviceInfo> {
    match OpenFrame(packet, 14, true)
    case Fail => Fail
    case Done(_, apdu) =>
      if |apdu| < 2 || apdu[0] != 0x10 || apdu[1] != 0x00 then Fail else ParseIAmBody(apdu[2..])
  }

  lemma IAmBodyRoundTrip(d: DeviceInfo, tail: Bytes)
    requires d.instance <= MAX_INSTANCE
    ensures ParseIAmBody(IAmBody(d) + tail) == Done(d, tail)
  {
    hide ParseInteger, EncodeInteger, ToBytes;
    var word := ObjectIdWord(ObjectId(DEVICE, d.instance));
    var s3 := EncodeInteger(TAG_UNSIGNED, d.vendor) + tail;
    var s2 := EncodeInteger(TAG_ENUMERATED, d.segmentation) + s3;
    var s1 := EncodeInteger(TAG_UNSIGNED, d.maxApdu) + s2;
    assert IAmBody(d) + tail == DeviceIdCode(d.instance) + s1;
    ObjectIdWordRoundTrip(word, s1);
    ObjectIdRoundTripIff(ObjectId(DEVICE, d.instance));
    IntegerRoundTrip(TAG_UNSIGNED, d.maxApdu, s2);
    IntegerRoundTrip(TAG_ENUMERATED, d.segmentation, s3);
    IntegerRoundTrip(TAG_UNSIGNED, d.vendor, tail);
  }

  /** Every announcement that can be built is understood as it was meant. */
  lemma IAmRoundTrip(d: DeviceInfo)
    requires d.instance <= MAX_INSTANCE
    ensures ParseIAm(IAm(d)) == Done(d, [])
  {
    hide ParseIAmBody, IAmBody, OpenFrame, Frame;
    IAmSize(d);
    var apdu: Bytes := [0x10, 0x00] + IAmBody(d);
    FrameOpens(0, apdu, 14, true);
    assert apdu[2..] == IAmBody(d);
    assert IAmBody(d) + [] == IAmBody(d);
    IAmBodyRoundTrip(d, []);
  }

  lemma IAmSize(d: DeviceInfo)
    ensures 11 <= |IAmBody(d)| <= 20
  {}

  // ----- in place

  lemma Nested(a: Bytes, b: Bytes, c: Bytes, d: Bytes, e: Bytes)
    ensures a + b + c + d + e == a + (b + (c + (d + e)))
  {}

  /** The device identifier and its three properties, at the sizes already worked out. */
  method WriteIAmBody(
    buffer: array<uint8>, offset: nat, d: DeviceInfo, maxApduSize: nat, segmentationSize: nat, vendorSize: nat)
    returns (size: nat)
    requires d.instance <= MAX_INSTANCE && offset + |IAmBody(d)| <= buffer.Length
    requires maxApduSize == MinimalLength(d.maxApdu) + 1
    requires segmentationSize == MinimalLength(d.segmentation) + 1
    requires vendorSize == MinimalLength(d.vendor) + 1
    modifies buffer
    ensures size == offset + |IAmBody(d)| && buffer[..size] == old(buffer[..offset]) + IAmBody(d)
  {
    hide IAmBody, EncodeInteger, ToBytes, IAm;
    IAmLayout(d);
    var written := WriteTagged(buffer, offset, 0xC4, ObjectIdWord(ObjectId(DEVICE, d.instance)), 4);
    var at := offset + written;
    written := WriteInteger(buffer, at, maxApduSize, TAG_UNSIGNED, d.maxApdu);
    at := at + written;
    written := WriteInteger(buffer, at, segmentationSize, TAG_ENUMERATED, d.segmentation);
    at := at + written;
    written := WriteInteger(buffer, at, vendorSize, TAG_UNSIGNED, d.vendor);
    size := at + written;
    Nested(old(buffer[..offset]), DeviceIdCode(d.instance), EncodeInteger(TAG_UNSIGNED, d.maxApdu),
           EncodeInteger(TAG_ENUMERATED, d.segmentation), EncodeInteger(TAG_UNSIGNED, d.vendor));
  }

  method BuildIAm(buffer: array<uint8>, d: DeviceInfo) returns (size: nat)
    modifies buffer
    ensures size == if buffer.Length < |IAm(d)| || d.instance > MAX_INSTANCE then 0 else |IAm(d)|
    ensures size > 0 ==> buffer[..size] == IAm(d)
  {
    hide IAmBody, EncodeInteger, ToBytes, Frame;
    var maxApduSize := MinimalLength(d.maxApdu) + 1;
    var segmentationSize := MinimalLength(d.segmentation) + 1;
    var vendorSize := MinimalLength(d.vendor) + 1;
    var required := 13 + maxApduSize + segmentationSize + vendorSize;
    IAmLayout(d);
    if buffer.Length < required || d.instance > MAX_INSTANCE {
      return 0;
    }
    var at := PutBytes(buffer, 0, [BVLC_IP, UNICAST, 0, 0, NPDU_VERSION, 0, 0x10, 0x00]);
    size := WriteIAmBody(buffer, at, d, maxApduSize, segmentationSize, vendorSize);
    assert buffer[..size] == [BVLC_IP, UNICAST, 0, 0] + ([NPDU_VERSION, 0] + ([0x10, 0x00] + IAmBody(d)));
    PatchLength(buffer, size, [NPDU_VERSION, 0] + ([0x10, 0x00] + IAmBody(d)));
  }

  lemma IAmLayout(d: DeviceInfo)
    ensures |EncodeInteger(TAG_UNSIGNED, d.maxApdu)| == MinimalLength(d.maxApdu) + 1
    ensures |EncodeInteger(TAG_ENUMERATED, d.segmentation)| == MinimalLength(d.segmentation) + 1
    ensures |EncodeInteger(TAG_UNSIGNED, d.vendor)| == MinimalLength(d.vendor) + 1
    ensures IAmBody(d) == DeviceIdCode(d.instance) +
                          (EncodeInteger(TAG_UNSIGNED, d.maxApdu) +
                           (EncodeInteger(TAG_ENUMERATED, d.segmentation) + EncodeInteger(TAG_UNSIGNED, d.vendor)))
    ensures |IAm(d)| == 13 + MinimalLength(d.maxApdu) + 1 + MinimalLength(d.segmentation) + 1
                        + MinimalLength(d.vendor) + 1
  {}

  method ReadIAm(buffer: Bytes) returns (ok: bool, d: DeviceInfo)
    ensures match ParseIAm(buffer)
            case Fail => !ok
            case Done(info, _) => ok && d == info
  {
    hide ParseInteger, OpenFrame;
    d := DeviceInfo(0, 0, 0, 0);
    var next;
    ok, next := ReadFrame(buffer, 14, true);
    if !ok || next + 2 > |buffer| || buffer[next] != 0x10 || buffer[next + 1] != 0x00 {
      return false, d;
    }
    Slices(buffer, next, 2, 0);
    var word;
    ok, word, next := ReadInteger(buffer, next + 2, TAG_OBJECT_IDENTIFIER);
    if !ok || ObjectIdOf(word).kind != DEVICE {
      return false, d;
    }
    var maxApdu, segmentation, vendor;
    ok, maxApdu, next := ReadInteger(buffer, next, TAG_UNSIGNED);
    if !ok {
      return false, d;
    }
    ok, segmentation, next := ReadInteger(buffer, next, TAG_ENUMERATED);
    if !ok || segmentation > 255 {
      return false, d;
    }
    ok, vendor, next := ReadInteger(buffer, next, TAG_UNSIGNED);
    if !ok || vendor > 0xFFFF {
      return false, d;
    }
    d := DeviceInfo(ObjectIdOf(word).instance, maxApdu, segmentation, vendor);
  }
}
