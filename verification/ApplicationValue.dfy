/**
 Application-tagged values (clause 20.2 of ASHRAE 135). Functions over byte strings give the
 format; the methods below them build and parse it at a running offset.
 */
module ApplicationValue {
  import opened BacnetTypes
  import opened ByteOrder

  /** A value as it travels: a REAL is its 32-bit pattern. */
  type WireValue = Value<uint32>

  type WireProperty = PropertyValue<uint32>

  /** The result of a parser on a byte string: what it read and what it left. */
  datatype Parsed<+T> = Fail | Done(value: T, rest: Bytes)
  {
    predicate IsFailure() { Fail? }

    function PropagateFailure<U>(): Parsed<U>
      requires Fail?
    {
      Fail
    }

    function Extract(): (T, Bytes)
      requires Done?
    {
      (value, rest)
    }
  }

  /** A parser method at offset `next` of `buffer` did what the parser `p` says. */
  ghost predicate Agrees<T>(p: Parsed<T>, buffer: Bytes, ok: bool, value: T, next: nat) {
    match p
    case Fail => !ok
    case Done(v, rest) => ok && value == v && next <= |buffer| && rest == buffer[next..]
  }

  /** What a list parser yields, with the elements read before it in front. */
  ghost function Prepend<T>(values: seq<T>, p: Parsed<seq<T>>): Parsed<seq<T>> {
    match p
    case Fail => Fail
    case Done(more, rest) => Done(values + more, rest)
  }

  lemma PrependNothing<T>(p: Parsed<seq<T>>)
    ensures Prepend([], p) == p
  {
    if p.Done? {
      assert [] + p.value == p.value;
    }
  }

  lemma PrependOne<T>(values: seq<T>, value: T, p: Parsed<seq<T>>)
    ensures Prepend(values, Prepend([value], p)) == Prepend(values + [value], p)
  {
    if p.Done? {
      assert values + ([value] + p.value) == values + [value] + p.value;
    }
  }

  const TAG_NULL := 0
  const TAG_BOOLEAN := 1
  const TAG_UNSIGNED := 2
  const TAG_SIGNED := 3
  const TAG_REAL := 4
  const TAG_CHARACTER_STRING := 7
  const TAG_BIT_STRING := 8
  const TAG_ENUMERATED := 9
  const TAG_OBJECT_IDENTIFIER := 12

  type TagNumber = x: int | 0 <= x < 16

  const OPEN_VALUE: uint8 := 0x3E
  const CLOSE_VALUE: uint8 := 0x3F

  // ----- the format

  const INSTANCES := 0x40_0000

  /** Type in the upper 10 bits, instance in the lower 22; whatever does not fit is cut off. */
  function ObjectIdWord(objectId: ObjectId): (word: uint32)
  {
    (objectId.kind % 1024) * INSTANCES + objectId.instance % INSTANCES
  }

  function ObjectIdOf(word: uint32): (objectId: ObjectId)
  {
    ObjectId(word / INSTANCES, word % INSTANCES)
  }

  predicate ValidObjectId(objectId: ObjectId) {
    objectId.kind <= MAX_OBJECT_KIND && objectId.instance <= MAX_INSTANCE
  }

  /** An object identifier survives the 32-bit word exactly when both parts fit their fields. */
  lemma ObjectIdRoundTripIff(objectId: ObjectId)
    ensures ObjectIdOf(ObjectIdWord(objectId)) == objectId <==> ValidObjectId(objectId)
  {}

  function SignedLength(v: int32): (n: nat)
    ensures 1 <= n <= 4
  {
    if -128 <= v <= 127 then 1
    else if -32768 <= v <= 32767 then 2
    else if -8388608 <= v <= 8388607 then 3
    else 4
  }

  /** Sign extension of an `n`-byte word. */
  function SignExtend(raw: nat, n: nat): int {
    if 2 * raw >= Radix(n) then raw - Radix(n) else raw
  }

  predicate Encodable(v: WireValue) {
    match v
    case Null | Boolean(_) | Unsigned(_) | Signed(_) | Real(_) | Enumerated(_) => true
    case BitString(_, count) => 1 <= count <= 24
    case CharacterString(text) => |text| <= 253
    case ObjectIdentifier(objectId) => ValidObjectId(objectId)
    case _ => false
  }

  function EncodeInteger(tag: TagNumber, raw: uint32): Bytes {
    [tag * 16 + MinimalLength(raw)] + ToBytes(raw, MinimalLength(raw))
  }

  function TextHeader(length: nat): Bytes
    requires length <= 253
  {
    if length + 1 <= 4 then [0x70 + length + 1, 0] else [0x75, length + 1, 0]
  }

  function EncodeBitString(flags: seq<bool>): (s: Bytes)
    requires 1 <= |flags| <= 24
    ensures 3 <= |s| <= 5 && s[0] / 16 == TAG_BIT_STRING
  {
    var content := FlagContent(flags);
    [0x80 + |content|] + content
  }

  /** The count of padding bits, then the bits. */
  function FlagContent(flags: seq<bool>): (content: Bytes)
    requires 1 <= |flags| <= 24
    ensures 2 <= |content| <= 4
  {
    var packed := PackBits(flags);
    [|packed| * 8 - |flags|] + packed
  }

  /** The encoding of a value; the empty string when it has none. */
  function EncodeApplication(v: WireValue): (s: Bytes)
    ensures s != [] <==> Encodable(v)
    ensures |s| <= 256
  {
    match v
    case Null => [0x00]
    case Boolean(on) => [if on then 0x11 else 0x10]
    case Unsigned(n) => EncodeInteger(TAG_UNSIGNED, n)
    case Signed(n) =>
      var length := SignedLength(n);
      [0x30 + length] + ToBytes(n % 0x1_0000_0000, length)
    case Enumerated(n) => EncodeInteger(TAG_ENUMERATED, n)
    case Real(pattern) => [0x44] + ToBytes(pattern, 4)
    case BitString(bits, count) =>
      if count == 0 || count > 24 then [] else EncodeBitString(Bits(bits, count))
    case CharacterString(text) => if |text| > 253 then [] else TextHeader(|text|) + text
    case ObjectIdentifier(objectId) =>
      if ValidObjectId(objectId) then [0xC4] + ToBytes(ObjectIdWord(objectId), 4) else []
    case _ => []
  }

  // ----- the parsers

  /** An application tag with one to four content bytes. */
  function ParseInteger(s: Bytes, tag: TagNumber): (r: Parsed<uint32>)
    ensures r.Done? ==> |r.rest| < |s|
  {
    if s == [] || (s[0] / 8) % 2 == 1 || s[0] / 16 != tag then Fail else TakeInteger(s[0] % 8, s[1..])
  }

  /** `n` big-endian bytes, one to four of them. */
  function TakeInteger(n: nat, s: Bytes): (r: Parsed<uint32>)
    ensures r.Done? ==> |r.rest| < |s|
  {
    if n == 0 || n > 4 || n > |s| then Fail
    else
      FourBytesFit(s[..n]);
      Done(BigEndian(s[..n]), s[n..])
  }

  lemma FourBytesFit(s: Bytes)
    requires |s| <= 4
    ensures BigEndian(s) < 0x1_0000_0000
  {
    BigEndianBound(s);
    RadixValues();
    assert Radix(0) == 1;
    assert |s| in {0, 1, 2, 3, 4};
  }

  function ParseSigned(s: Bytes): (r: Parsed<int32>)
    ensures r.Done? ==> |r.rest| < |s|
  {
    var (raw, rest) :- ParseInteger(s, TAG_SIGNED);
    var n := s[0] % 8;
    SignExtendFits(s[1..][..n]);
    Done(SignExtend(BigEndian(s[1..][..n]), n), rest)
  }

  lemma SignExtendFits(s: Bytes)
    requires 1 <= |s| <= 4
    ensures -0x8000_0000 <= SignExtend(BigEndian(s), |s|) < 0x8000_0000
  {
    BigEndianBound(s);
    RadixValues();
    assert |s| in {1, 2, 3, 4};
  }

  /** A tag whose length is in the tag byte or in one byte after it, content present. */
  function ParseHeader(s: Bytes, tag: TagNumber): (r: Parsed<nat>)
    ensures r.Done? ==> |r.rest| < |s| && r.value <= |r.rest|
  {
    if s == [] || (s[0] / 8) % 2 == 1 || s[0] / 16 != tag then Fail
    else
      var length := s[0] % 8;
      if length < 5 && length <= |s| - 1 then Done(length, s[1..])
      else if length == 5 && |s| >= 2 && s[1] <= |s| - 2 then Done(s[1], s[2..])
      else Fail
  }

  function ParseReal(s: Bytes): (r: Parsed<uint32>)
    ensures r.Done? ==> |r.rest| < |s|
  {
    var (length, rest) :- ParseHeader(s, TAG_REAL);
    if length != 4 then Fail
    else
      FourBytesFit(rest[..4]);
      Done(BigEndian(rest[..4]), rest[4..])
  }

  /** One byte counting the unused low bits, then one to four bytes of bits. */
  predicate BitStringContent(content: Bytes) {
    2 <= |content| <= 5 && content[0] <= 7
  }

  function BitStringOf(content: Bytes): WireValue
    requires BitStringContent(content)
  {
    var count := (|content| - 1) * 8 - content[0];
    var bits := UnpackBits(content[1..], count);
    FromBitsBound(bits);
    Pow2Monotone(count, 32);
    Pow2At32();
    BitString(FromBits(bits), count)
  }

  function ParseBitString(s: Bytes): (r: Parsed<WireValue>)
    ensures r.Done? ==> |r.rest| < |s|
  {
    var (length, rest) :- ParseHeader(s, TAG_BIT_STRING);
    if !BitStringContent(rest[..length]) then Fail
    else Done(BitStringOf(rest[..length]), rest[length..])
  }

  const MAX_TEXT := 511

  function ParseText(s: Bytes): (r: Parsed<WireValue>)
    ensures r.Done? ==> |r.rest| < |s|
  {
    var (length, rest) :- ParseHeader(s, TAG_CHARACTER_STRING);
    if length == 0 then Fail
    else
      var kept := if length - 1 < MAX_TEXT then length - 1 else MAX_TEXT;
      Done(CharacterString(rest[1..1 + kept]), rest[length..])
  }

  function ParseUnsupported(s: Bytes): (r: Parsed<WireValue>)
    ensures r.Done? ==> |r.rest| < |s|
  {
    if s == [] then Fail
    else
      var (length, rest) :- ParseHeader(s, s[0] / 16);
      Done(Unsupported(s[0] / 16), rest[length..])
  }

  // ----- lists, which are kept as text

  const COMMA: uint8 := 0x2C
  const SEMICOLON: uint8 := 0x3B

  /** Decimal digits, without leading zeros. */
  function Decimal(n: nat): (digits: Bytes)
    ensures digits != []
  {
    (if n < 10 then [] else Decimal(n / 10)) + [0x30 + n % 10]
  }

  /** What pieces of text make of a text of bounded length: the first that does not fit ends it. */
  datatype Appended = Appended(text: Bytes, complete: bool)

  function Append(text: Bytes, pieces: seq<Bytes>): (r: Appended)
    ensures text <= r.text
    ensures |text| <= MAX_TEXT ==> |r.text| <= MAX_TEXT
    decreases |pieces|
  {
    if pieces == [] then Appended(text, true)
    else if |text| + |pieces[0]| > MAX_TEXT then Appended(text, false)
    else Append(text + pieces[0], pieces[1..])
  }

  function Separator(text: Bytes): seq<Bytes> {
    if text == [] then [] else [[SEMICOLON]]
  }

  function ObjectIdPieces(text: Bytes, objectId: ObjectId): seq<Bytes> {
    Separator(text) + [Decimal(objectId.kind), [COMMA], Decimal(objectId.instance)]
  }

  function PropertyPieces(text: Bytes, property: uint32): seq<Bytes> {
    Separator(text) + [Decimal(property)]
  }

  /** Object identifiers up to the closing tag; the one whose text does not fit ends the list after it. */
  function ParseObjectIdList(s: Bytes, text: Bytes): (r: Parsed<Bytes>)
    ensures r.Done? ==> |r.rest| <= |s|
    decreases |s|
  {
    if s == [] || s[0] == CLOSE_VALUE then Done(text, s)
    else
      var (word, rest) :- ParseInteger(s, TAG_OBJECT_IDENTIFIER);
      var a := Append(text, ObjectIdPieces(text, ObjectIdOf(word)));
      if a.complete then ParseObjectIdList(rest, a.text) else Done(a.text, rest)
  }

  /** Property identifiers up to the closing tag; one whose text does not fit makes the list fail. */
  function ParsePropertyIdList(s: Bytes, text: Bytes): (r: Parsed<Bytes>)
    ensures r.Done? ==> |r.rest| <= |s|
    decreases |s|
  {
    if s == [] || s[0] == CLOSE_VALUE then Done(text, s)
    else
      var (property, rest) :- ParseInteger(s, TAG_ENUMERATED);
      var a := Append(text, PropertyPieces(text, property));
      if a.complete then ParsePropertyIdList(rest, a.text) else Fail
  }

  /** Values that an un-indexed list property turns into a list. */
  predicate ListDecoded(property: uint32, arrayIndex: uint32, tag: TagNumber) {
    arrayIndex == NO_ARRAY_INDEX &&
    (property == PROPERTY_LIST || (property == OBJECT_LIST && tag == TAG_OBJECT_IDENTIFIER))
  }

  /** A value dispatched on its application tag. */
  function ParseTagged(s: Bytes): (r: Parsed<WireValue>)
    requires s != []
    ensures r.Done? ==> |r.rest| <= |s|
  {
    var tag := s[0] / 16;
    if tag == TAG_NULL then
      var (length, rest) :- ParseHeader(s, TAG_NULL);
      if length != 0 then Fail else Done(Null, rest)
    else if tag == TAG_BOOLEAN then
      if (s[0] / 8) % 2 == 1 then Fail else Done(Boolean(s[0] % 8 != 0), s[1..])
    else if tag == TAG_UNSIGNED then
      var (n, rest) :- ParseInteger(s, TAG_UNSIGNED);
      Done(Unsigned(n), rest)
    else if tag == TAG_SIGNED then
      var (n, rest) :- ParseSigned(s);
      Done(Signed(n), rest)
    else if tag == TAG_REAL then
      var (pattern, rest) :- ParseReal(s);
      Done(Real(pattern), rest)
    else if tag == TAG_CHARACTER_STRING then ParseText(s)
    else if tag == TAG_BIT_STRING then ParseBitString(s)
    else if tag == TAG_ENUMERATED then
      var (n, rest) :- ParseInteger(s, TAG_ENUMERATED);
      Done(Enumerated(n), rest)
    else if tag == TAG_OBJECT_IDENTIFIER then
      var (word, rest) :- ParseInteger(s, TAG_OBJECT_IDENTIFIER);
      Done(ObjectIdentifier(ObjectIdOf(word)), rest)
    else ParseUnsupported(s)
  }

  /** The property value at the head of `s`, for the given property and array index. */
  function ParseApplication(s: Bytes, property: uint32, arrayIndex: uint32): (r: Parsed<WireValue>)
    ensures r.Done? ==> |r.rest| <= |s|
  {
    if s == [] then Fail
    else
      var tag := s[0] / 16;
      if ListDecoded(property, arrayIndex, tag) then
        if property == OBJECT_LIST then
          var (text, rest) :- ParseObjectIdList(s, []);
          if text == [] then Fail else Done(ObjectIdentifierList(text), rest)
        else
          var (text, rest) :- ParsePropertyIdList(s, []);
          if text == [] then Fail else Done(PropertyIdentifierList(text), rest)
      else if property == DEVICE_ADDRESS_BINDING && s[0] == CLOSE_VALUE then Done(Empty, s)
      else ParseTagged(s)
  }

  // ----- round trips

  lemma Peel(lead: uint8, code: Bytes, tail: Bytes)
    ensures var s := [lead] + code + tail;
            s[0] == lead && s[1..] == code + tail &&
            (code + tail)[..|code|] == code && (code + tail)[|code|..] == tail
  {}

  /** Application class, tag number and length field of a tag byte. */
  predicate LeadIs(lead: uint8, tag: TagNumber, length: nat) {
    lead / 16 == tag && (lead / 8) % 2 == 0 && lead % 8 == length
  }

  lemma LeadParts(tag: TagNumber, length: nat)
    requires length < 8
    ensures tag * 16 + length < 256 && LeadIs(tag * 16 + length, tag, length)
  {}

  lemma IntegerFrame(lead: uint8, tag: TagNumber, code: Bytes, tail: Bytes)
    requires 1 <= |code| <= 4 && LeadIs(lead, tag, |code|)
    ensures BigEndian(code) < 0x1_0000_0000
    ensures ParseInteger([lead] + code + tail, tag) == Done(BigEndian(code), tail)
  {
    hide TakeInteger, BigEndian;
    Peel(lead, code, tail);
    TakeFrame(code, tail);
  }

  lemma TakeFrame(code: Bytes, tail: Bytes)
    requires 1 <= |code| <= 4
    ensures BigEndian(code) < 0x1_0000_0000
    ensures TakeInteger(|code|, code + tail) == Done(BigEndian(code), tail)
  {
    hide BigEndian;
    FourBytesFit(code);
    Peel(0, code, tail);
  }

  lemma IntegerRoundTrip(tag: TagNumber, raw: uint32, tail: Bytes)
    ensures ParseInteger(EncodeInteger(tag, raw) + tail, tag) == Done(raw, tail)
  {
    hide ParseInteger, TakeInteger, ToBytes, BigEndian, LeadIs;
    var n := MinimalLength(raw);
    BytesRoundTrip(raw, n);
    LeadParts(tag, n);
    IntegerFrame(tag * 16 + n, tag, ToBytes(raw, n), tail);
  }

  /** The low `n` bytes of a two's complement word depend only on the value modulo 256^n. */
  lemma {:induction false} LowBytes(v: nat, w: nat, n: nat, k: nat)
    requires v == w + k * Radix(n)
    ensures ToBytes(v, n) == ToBytes(w, n)
  {
    if n > 0 {
      var r := Radix(n - 1);
      assert k * Radix(n) == 256 * (k * r);
      LowBytes(v / 256, w / 256, n - 1, k);
    }
  }

  lemma SignedBytes(v: int32)
    ensures var n := SignedLength(v);
            SignExtend(BigEndian(ToBytes(v % 0x1_0000_0000, n)), n) == v
  {
    hide ToBytes, BigEndian;
    var n := SignedLength(v);
    RadixValues();
    if v >= 0 {
      BytesRoundTrip(v, n);
    } else {
      var k := if n == 1 then 0xFF_FFFF else if n == 2 then 0xFFFF else if n == 3 then 0xFF else 0;
      assert v % 0x1_0000_0000 == (v + Radix(n)) + k * Radix(n);
      LowBytes(v % 0x1_0000_0000, v + Radix(n), n, k);
      BytesRoundTrip(v + Radix(n), n);
    }
  }

  lemma SignedFrame(code: Bytes, tail: Bytes)
    requires 1 <= |code| <= 4
    ensures var r := ParseSigned([0x30 + |code|] + code + tail);
            r.Done? && r.value == SignExtend(BigEndian(code), |code|) && r.rest == tail
  {
    LeadParts(TAG_SIGNED, |code|);
    IntegerFrame(0x30 + |code|, TAG_SIGNED, code, tail);
    Peel(0x30 + |code|, code, tail);
  }

  lemma SignedRoundTrip(v: int32, tail: Bytes)
    ensures ParseSigned(EncodeApplication(Signed(v)) + tail) == Done(v, tail)
  {
    SignedBytes(v);
    SignedFrame(ToBytes(v % 0x1_0000_0000, SignedLength(v)), tail);
  }

  lemma HeaderRoundTrip(lead: uint8, tag: TagNumber, content: Bytes, tail: Bytes)
    requires |content| < 5 && LeadIs(lead, tag, |content|)
    ensures ParseHeader([lead] + content + tail, tag) == Done(|content|, content + tail)
  {
    Peel(lead, content, tail);
  }

  lemma RealRoundTrip(pattern: uint32, tail: Bytes)
    ensures ParseReal(EncodeApplication(Real(pattern)) + tail) == Done(pattern, tail)
  {
    var code := ToBytes(pattern, 4);
    RadixValues();
    BytesRoundTrip(pattern, 4);
    HeaderRoundTrip(0x44, TAG_REAL, code, tail);
    assert (code + tail)[..4] == code && (code + tail)[4..] == tail;
  }

  lemma ObjectIdWordRoundTrip(word: uint32, tail: Bytes)
    ensures ParseInteger([0xC4] + ToBytes(word, 4) + tail, TAG_OBJECT_IDENTIFIER) == Done(word, tail)
  {
    RadixValues();
    BytesRoundTrip(word, 4);
    IntegerFrame(0xC4, TAG_OBJECT_IDENTIFIER, ToBytes(word, 4), tail);
  }

  /** What the receiver reads for an encodable value outside the list properties. */
  function Received(v: WireValue): WireValue
    requires Encodable(v)
  {
    match v
    case BitString(bits, count) => OfFlags(Bits(bits, count))
    case _ => v
  }

  function OfFlags(flags: seq<bool>): WireValue
    requires |flags| <= 32
  {
    FromBitsBound(flags);
    Pow2Monotone(|flags|, 32);
    Pow2At32();
    BitString(FromBits(flags), |flags|)
  }

  lemma BitStringFrame(content: Bytes, tail: Bytes)
    requires |content| <= 4 && BitStringContent(content)
    ensures ParseBitString([0x80 + |content|] + content + tail) == Done(BitStringOf(content), tail)
  {
    LeadParts(TAG_BIT_STRING, |content|);
    HeaderRoundTrip(0x80 + |content|, TAG_BIT_STRING, content, tail);
    Peel(0x80 + |content|, content, tail);
  }

  lemma BitStringContentRoundTrip(flags: seq<bool>)
    requires 1 <= |flags| <= 24
    ensures BitStringContent(FlagContent(flags)) && BitStringOf(FlagContent(flags)) == OfFlags(flags)
  {
    assert FlagContent(flags)[1..] == PackBits(flags);
    PackedBitsRoundTrip(flags);
  }

  lemma BitStringRoundTrip(flags: seq<bool>, tail: Bytes)
    requires 1 <= |flags| <= 24
    ensures ParseBitString(EncodeBitString(flags) + tail) == Done(OfFlags(flags), tail)
  {
    hide ParseBitString, FlagContent, OfFlags, BitStringContent, BitStringOf;
    BitStringContentRoundTrip(flags);
    BitStringFrame(FlagContent(flags), tail);
  }

  lemma TextHeaderRoundTrip(text: Bytes, tail: Bytes)
    requires |text| <= 253
    ensures ParseHeader(TextHeader(|text|) + text + tail, TAG_CHARACTER_STRING)
            == Done(|text| + 1, [0] + text + tail)
  {
    var s := TextHeader(|text|) + text + tail;
    assert s[if |text| + 1 <= 4 then 1 else 2..] == [0] + text + tail;
  }

  lemma TextRoundTrip(text: Bytes, tail: Bytes)
    requires |text| <= 253
    ensures ParseText(EncodeApplication(CharacterString(text)) + tail) == Done(CharacterString(text), tail)
  {
    hide ParseHeader;
    var s := TextHeader(|text|) + text + tail;
    var rest: Bytes := [0] + text + tail;
    assert s[if |text| + 1 <= 4 then 1 else 2..] == rest;
    TextHeaderRoundTrip(text, tail);
    assert rest[1..1 + |text|] == text;
    assert rest[|text| + 1..] == tail;
  }

  /** A bit string with a bit set beyond its count is the one value that changes on the way. */
  predicate Stable(v: WireValue) {
    v.BitString? ==> v.bits < Pow2(v.bitCount)
  }

  lemma ReceivedIff(v: WireValue)
    requires Encodable(v)
    ensures Received(v) == v <==> Stable(v)
  {
    if v.BitString? {
      BitsRoundTripIff(v.bits, v.bitCount);
    }
  }

  function TagOf(v: WireValue): TagNumber
    requires Encodable(v)
  {
    EncodeApplication(v)[0] / 16
  }

  lemma TaggedRoundTrip(v: WireValue, tail: Bytes)
    requires Encodable(v)
    ensures ParseTagged(EncodeApplication(v) + tail) == Done(Received(v), tail)
  {
    hide ParseInteger, ParseSigned, ParseReal, ParseText, ParseBitString, ParseUnsupported, ObjectIdWord, ObjectIdOf;
    var code := EncodeApplication(v);
    var s := code + tail;
    assert s[0] == code[0];
    match v
    case Null => assert s[1..] == tail;
    case Boolean(on) => assert s[1..] == tail;
    case Unsigned(n) => IntegerRoundTrip(TAG_UNSIGNED, n, tail);
    case Signed(n) => SignedRoundTrip(n, tail);
    case Enumerated(n) => IntegerRoundTrip(TAG_ENUMERATED, n, tail);
    case Real(pattern) => RealRoundTrip(pattern, tail);
    case BitString(bits, count) => BitStringRoundTrip(Bits(bits, count), tail);
    case CharacterString(text) => TextRoundTrip(text, tail);
    case ObjectIdentifier(objectId) =>
      ObjectIdWordRoundTrip(ObjectIdWord(objectId), tail);
      ObjectIdRoundTripIff(objectId);
  }

  /**
   Encoded values are self-delimiting: whatever follows, the parser takes exactly the encoding and
   returns the value, for every property that is not read as a list.
   */
  lemma SelfDelimiting(v: WireValue, tail: Bytes, property: uint32, arrayIndex: uint32)
    requires Encodable(v) && !ListDecoded(property, arrayIndex, TagOf(v))
    ensures ParseApplication(EncodeApplication(v) + tail, property, arrayIndex) == Done(Received(v), tail)
  {
    TaggedRoundTrip(v, tail);
    LeadByte(v);
    assert (EncodeApplication(v) + tail)[0] == EncodeApplication(v)[0];
  }

  lemma LeadByte(v: WireValue)
    requires Encodable(v)
    ensures EncodeApplication(v)[0] != CLOSE_VALUE
  {}

  /** The condition under which a value comes back: no list property, no stray high bit. */
  predicate Faithful(v: WireValue, property: uint32, arrayIndex: uint32)
    requires Encodable(v)
  {
    Stable(v) && !ListDecoded(property, arrayIndex, TagOf(v))
  }

  /** The receiver gets the very value if and only if that condition holds. */
  lemma FaithfulIff(v: WireValue, tail: Bytes, property: uint32, arrayIndex: uint32)
    requires Encodable(v)
    ensures var r := ParseApplication(EncodeApplication(v) + tail, property, arrayIndex);
            (r.Done? && r.value == v <==> Faithful(v, property, arrayIndex)) &&
            (Faithful(v, property, arrayIndex) ==> r == Done(v, tail))
  {
    var s := EncodeApplication(v) + tail;
    assert s[0] == EncodeApplication(v)[0];
    if !ListDecoded(property, arrayIndex, TagOf(v)) {
      SelfDelimiting(v, tail, property, arrayIndex);
      ReceivedIff(v);
    }
  }
}
