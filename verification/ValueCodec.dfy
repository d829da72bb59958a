/** The builder and the parsers of application values, working in place at a running offset. */
module ValueCodec {
  import opened BacnetTypes
  import opened ByteOrder
  import opened ApplicationValue

  // ----- building

  /** `buffer[offset++] = value`. */
  method PutByte(buffer: array<uint8>, offset: nat, value: uint8) returns (next: nat)
    requires offset < buffer.Length
    modifies buffer
    ensures next == offset + 1
    ensures buffer[..next] == old(buffer[..offset]) + [value]
  {
    buffer[offset] := value;
    next := offset + 1;
  }

  /** `memcpy(buffer + offset, source, count)`. */
  method PutBytes(buffer: array<uint8>, offset: nat, source: Bytes) returns (next: nat)
    requires offset + |source| <= buffer.Length
    modifies buffer
    ensures next == offset + |source|
    ensures buffer[..next] == old(buffer[..offset]) + source
  {
    forall i | 0 <= i < |source| {
      buffer[offset + i] := source[i];
    }
    next := offset + |source|;
    assert buffer[offset..next] == source;
    assert buffer[..next] == buffer[..offset] + buffer[offset..next];
  }

  lemma Regroup(a: Bytes, b: Bytes, c: Bytes, d: Bytes)
    ensures a + b + c + d == a + (b + (c + d))
  {}

  /** The kept prefix of an append. */
  lemma PrefixKept(now: Bytes, before: Bytes, added: Bytes)
    requires |before| + |added| <= |now| && now[..|before| + |added|] == before + added
    ensures now[..|before|] == before
  {
    assert now[..|before|] == now[..|before| + |added|][..|before|];
  }

  method WriteInteger(buffer: array<uint8>, offset: nat, room: nat, tag: TagNumber, raw: uint32)
    returns (size: nat)
    requires offset + room <= buffer.Length
    modifies buffer
    ensures size == if |EncodeInteger(tag, raw)| <= room then |EncodeInteger(tag, raw)| else 0
    ensures buffer[..offset] == old(buffer[..offset]) && (size == 0 ==> unchanged(buffer))
    ensures size > 0 ==> buffer[..offset + size] == old(buffer[..offset]) + EncodeInteger(tag, raw)
  {
    var length := MinimalLength(raw);
    if room < length + 1 {
      return 0;
    }
    size := WriteTagged(buffer, offset, tag * 16 + length, raw, length);
  }

  /** A tag byte and `length` big-endian bytes; the caller has checked the room. */
  method WriteTagged(buffer: array<uint8>, offset: nat, lead: uint8, raw: nat, length: nat)
    returns (size: nat)
    requires offset + length + 1 <= buffer.Length
    modifies buffer
    ensures size == length + 1
    ensures buffer[..offset] == old(buffer[..offset])
    ensures buffer[..offset + size] == old(buffer[..offset]) + ([lead] + ToBytes(raw, length))
  {
    var next := PutByte(buffer, offset, lead);
    WriteBigEndian(buffer, next, raw, length);
    size := length + 1;
    assert buffer[..offset + size] == old(buffer[..offset]) + ([lead] + ToBytes(raw, length));
    PrefixKept(buffer[..], old(buffer[..offset]), [lead] + ToBytes(raw, length));
  }

  /** `byteCount` bytes of which the first `bit` flags have been set, the rest still clear. */
  ghost function Filled(flags: seq<bool>, bit: nat, byteCount: nat): (s: Bytes)
    requires bit <= |flags| && (|flags| + 7) / 8 == byteCount
    ensures |s| == byteCount
  {
    PackBits(flags[..bit]) + seq(byteCount - (bit + 7) / 8, _ => 0)
  }

  lemma FilledStep(flags: seq<bool>, bit: nat, byteCount: nat)
    requires bit < |flags| && (|flags| + 7) / 8 == byteCount
    ensures var before := Filled(flags, bit, byteCount);
            Filled(flags, bit + 1, byteCount) ==
            if flags[bit] then before[bit / 8 := SetMaskBit(before[bit / 8], bit % 8)] else before
  {
    assert flags[..bit + 1][..bit] == flags[..bit];
    var packed := PackBits(flags[..bit]);
    if bit % 8 == 0 {
      assert |packed| == bit / 8 && (bit + 8) / 8 == bit / 8 + 1;
    } else {
      assert |packed| == bit / 8 + 1 && (bit + 8) / 8 == bit / 8 + 1;
    }
  }

  /** Nothing filled in is all zero; everything filled in is the packed bits. */
  lemma FilledEnds(flags: seq<bool>, n: nat)
    requires n == (|flags| + 7) / 8
    ensures Filled(flags, 0, n) == seq(n, _ => 0) && Filled(flags, |flags|, n) == PackBits(flags)
  {
    assert PackBits(flags[..0]) == [];
    assert flags[..|flags|] == flags;
  }

  method SetByte(buffer: array<uint8>, ghost end: nat, at: nat, value: uint8)
    requires at < end <= buffer.Length
    modifies buffer
    ensures buffer[..end] == old(buffer[..end])[at := value]
  {
    buffer[at] := value;
  }

  lemma UpdateTail(before: Bytes, tail: Bytes, i: nat, value: uint8)
    requires i < |tail|
    ensures (before + tail)[|before| + i := value] == before + tail[i := value]
  {}

  /** Clears the bytes, then sets the bits one at a time. */
  method WriteBits(buffer: array<uint8>, offset: nat, bits: nat, count: nat) returns (next: nat)
    requires offset + (count + 7) / 8 <= buffer.Length
    modifies buffer
    ensures next == offset + (count + 7) / 8
    ensures buffer[..next] == old(buffer[..offset]) + PackBits(Bits(bits, count))
  {
    hide Bits, Bit, Filled, PackBits, SetMaskBit;
    FilledEnds(Bits(bits, count), (count + 7) / 8);
    ghost var flags := Bits(bits, count);
    var n := (count + 7) / 8;
    next := PutBytes(buffer, offset, seq(n, _ => 0));
    ghost var before := old(buffer[..offset]);
    for bit := 0 to count
      invariant buffer[..next] == before + Filled(flags, bit, n)
    {
      BitsAt(bits, count, bit);
      FilledStep(flags, bit, n);
      ghost var filled := Filled(flags, bit, n);
      assert buffer[offset + bit / 8] == buffer[..next][offset + bit / 8] == filled[bit / 8];
      if Bit(bits, bit) {
        SetByte(buffer, next, offset + bit / 8, SetMaskBit(buffer[offset + bit / 8], bit % 8));
        UpdateTail(before, filled, bit / 8, SetMaskBit(filled[bit / 8], bit % 8));
      }
    }
  }

  /** Header, padding count and bits of a bit string that fits. */
  method WriteFlags(buffer: array<uint8>, offset: nat, bits: uint32, count: uint8) returns (next: nat)
    requires 1 <= count <= 24 && offset + |EncodeBitString(Bits(bits, count))| <= buffer.Length
    modifies buffer
    ensures next == offset + |EncodeBitString(Bits(bits, count))|
    ensures buffer[..next] == old(buffer[..offset]) + EncodeBitString(Bits(bits, count))
  {
    ghost var content := FlagContent(Bits(bits, count));
    var byteCount := (count + 7) / 8;
    next := PutByte(buffer, offset, 0x80 + byteCount + 1);
    next := PutByte(buffer, next, byteCount * 8 - count);
    next := WriteBits(buffer, next, bits, count);
    Regroup(old(buffer[..offset]), [0x80 + |content|], [content[0]], PackBits(Bits(bits, count)));
  }

  method WriteBitString(buffer: array<uint8>, offset: nat, room: nat, bits: uint32, count: uint8)
    returns (size: nat)
    requires offset + room <= buffer.Length
    modifies buffer
    ensures var code := EncodeApplication(BitString(bits, count));
            size == (if |code| <= room then |code| else 0) &&
            (size > 0 ==> buffer[..offset + size] == old(buffer[..offset]) + code)
    ensures buffer[..offset] == old(buffer[..offset]) && (size == 0 ==> unchanged(buffer))
  {
    if count == 0 || count > 32 {
      return 0;
    }
    var payload := (count + 7) / 8 + 1;
    if room < payload + 1 || payload > 4 {
      return 0;
    }
    var next := WriteFlags(buffer, offset, bits, count);
    size := payload + 1;
    PrefixKept(buffer[..], old(buffer[..offset]), EncodeApplication(BitString(bits, count)));
  }

  /** Writes the encoding of `v` at `offset`, or nothing when it does not fit or exist. */
  method EncodeApplicationValue(buffer: array<uint8>, offset: nat, room: nat, v: WireValue)
    returns (size: nat)
    requires offset + room <= buffer.Length
    modifies buffer
    ensures size == if |EncodeApplication(v)| <= room then |EncodeApplication(v)| else 0
    ensures buffer[..offset] == old(buffer[..offset]) && (size == 0 ==> unchanged(buffer))
    ensures size > 0 ==> buffer[..offset + size] == old(buffer[..offset]) + EncodeApplication(v)
  {
    hide ToBytes, MinimalLength, EncodeBitString, EncodeInteger;
    if room == 0 {
      return 0;
    }
    match v {
      case Null =>
        var next := PutByte(buffer, offset, 0x00);
        size := 1;
        PrefixKept(buffer[..], old(buffer[..offset]), [0x00]);
      case Boolean(on) =>
        var next := PutByte(buffer, offset, if on then 0x11 else 0x10);
        size := 1;
        PrefixKept(buffer[..], old(buffer[..offset]), EncodeApplication(v));
      case Unsigned(n) =>
        size := WriteInteger(buffer, offset, room, TAG_UNSIGNED, n);
      case Signed(n) =>
        var length := SignedLength(n);
        if room < length + 1 {
          return 0;
        }
        size := WriteTagged(buffer, offset, 0x30 + length, n % 0x1_0000_0000, length);
      case Enumerated(n) =>
        size := WriteInteger(buffer, offset, room, TAG_ENUMERATED, n);
      case BitString(bits, count) =>
        size := WriteBitString(buffer, offset, room, bits, count);
      case Real(pattern) =>
        if room < 5 {
          return 0;
        }
        size := WriteTagged(buffer, offset, 0x44, pattern, 4);
      case CharacterString(text) =>
        if |text| > 253 {
          return 0;
        }
        var header := if |text| + 1 <= 4 then 1 else 2;
        if room < header + |text| + 1 {
          return 0;
        }
        size := WriteText(buffer, offset, text);
      case ObjectIdentifier(objectId) =>
        if objectId.kind > MAX_OBJECT_KIND || objectId.instance > MAX_INSTANCE || room < 5 {
          return 0;
        }
        size := WriteTagged(buffer, offset, 0xC4, ObjectIdWord(objectId), 4);
      case _ =>
        return 0;
    }
  }

  method WriteText(buffer: array<uint8>, offset: nat, text: Bytes) returns (size: nat)
    requires |text| <= 253
    requires offset + |TextHeader(|text|)| + |text| <= buffer.Length
    modifies buffer
    ensures size == |TextHeader(|text|)| + |text|
    ensures buffer[..offset] == old(buffer[..offset])
    ensures buffer[..offset + size] == old(buffer[..offset]) + (TextHeader(|text|) + text)
  {
    var payload := |text| + 1;
    var at := PutByte(buffer, offset, 0x70 + (if payload <= 4 then payload else 5));
    if payload > 4 {
      at := PutByte(buffer, at, payload);
    }
    at := PutByte(buffer, at, 0);
    assert buffer[..at] == old(buffer[..offset]) + TextHeader(|text|);
    at := PutBytes(buffer, at, text);
    size := at - offset;
    assert buffer[..at] == old(buffer[..offset]) + (TextHeader(|text|) + text);
    PrefixKept(buffer[..], old(buffer[..offset]), TextHeader(|text|) + text);
  }

  // ----- parsing

  /** An integer of up to four bytes under an application tag. */
  method ReadInteger(buffer: Bytes, offset: nat, tag: TagNumber)
    returns (ok: bool, value: uint32, next: nat)
    requires offset <= |buffer|
    ensures Agrees(ParseInteger(buffer[offset..], tag), buffer, ok, value, next)
  {
    value, next := 0, offset;
    if offset >= |buffer| {
      return false, value, next;
    }
    var lead := buffer[offset];
    var length := lead % 8;
    if (lead / 8) % 2 == 1 || lead / 16 != tag || length == 0 || length > 4 ||
       offset + 1 + length > |buffer| {
      return false, value, next;
    }
    Slices(buffer, offset, 1, length);
    FourBytesFit(buffer[offset + 1..offset + 1 + length]);
    value := ReadBigEndian(buffer, offset + 1, length);
    next := offset + 1 + length;
    ok := true;
  }

  lemma Slices(buffer: Bytes, offset: nat, skip: nat, count: nat)
    requires offset + skip + count <= |buffer|
    ensures buffer[offset..][skip..] == buffer[offset + skip..]
    ensures buffer[offset + skip..][..count] == buffer[offset + skip..offset + skip + count]
    ensures buffer[offset + skip..][count..] == buffer[offset + skip + count..]
  {}

  method ReadSigned(buffer: Bytes, offset: nat) returns (ok: bool, value: int32, next: nat)
    requires offset <= |buffer|
    ensures Agrees(ParseSigned(buffer[offset..]), buffer, ok, value, next)
  {
    value := 0;
    var raw;
    ok, raw, next := ReadInteger(buffer, offset, TAG_SIGNED);
    if ok {
      var length := buffer[offset] % 8;
      SignExtendFits(buffer[offset..][1..][..length]);
      value := SignExtend(raw, length);
    }
  }

  /** Tag and content length; the content is known to be present. */
  method ReadHeader(buffer: Bytes, offset: nat, tag: TagNumber)
    returns (ok: bool, length: nat, next: nat)
    requires offset <= |buffer|
    ensures Agrees(ParseHeader(buffer[offset..], tag), buffer, ok, length, next)
    ensures ok ==> next + length <= |buffer|
  {
    length, next := 0, offset;
    if offset >= |buffer| {
      return false, length, next;
    }
    var lead := buffer[offset];
    next := offset + 1;
    if (lead / 8) % 2 == 1 || lead / 16 != tag {
      return false, length, next;
    }
    if lead % 8 < 5 {
      length := lead % 8;
    } else if lead % 8 == 5 {
      if next >= |buffer| {
        return false, length, next;
      }
      length := buffer[next];
      next := next + 1;
    } else {
      return false, length, next;
    }
    ok := next + length <= |buffer|;
  }

  method ReadBits(buffer: Bytes, offset: nat, count: nat) returns (bits: nat)
    requires count <= 32 && count <= 8 * (|buffer| - offset)
    ensures bits == FromBits(UnpackBits(buffer[offset..], count))
  {
    bits := 0;
    for i := 0 to count
      invariant bits == FromBits(UnpackBits(buffer[offset..], i))
    {
      ghost var flags := UnpackBits(buffer[offset..], i);
      assert BitOfBytes(buffer[offset..], i) == MaskBit(buffer[offset + i / 8], i % 8);
      FromBitsBound(flags);
      NoHighBits(bits, i);
      FromBitsSnoc(flags, BitOfBytes(buffer[offset..], i));
      if MaskBit(buffer[offset + i / 8], i % 8) {
        bits := OrBit(bits, i);
      }
    }
  }

  lemma {:induction false} UnpackPrefix(s: Bytes, n: nat, count: nat)
    requires n <= |s| && count <= 8 * n
    ensures UnpackBits(s[..n], count) == UnpackBits(s, count)
  {
    if count > 0 {
      UnpackPrefix(s, n, count - 1);
    }
  }

  /** What the parser makes of the header and content that the method found. */
  lemma BitStringParts(buffer: Bytes, next: nat, length: nat)
    requires next + length <= |buffer| && 2 <= length <= 5 && buffer[next] <= 7
    ensures var content := buffer[next..][..length];
            var count := (length - 1) * 8 - content[0];
            BitStringContent(content) &&
            BitStringOf(content).bitCount == count &&
            BitStringOf(content).bits == FromBits(UnpackBits(buffer[next + 1..], count))
  {
    var content := buffer[next..][..length];
    assert content[1..] == buffer[next + 1..][..length - 1];
    UnpackPrefix(buffer[next + 1..], length - 1, (length - 1) * 8 - content[0]);
  }

  method ReadBitStringContent(buffer: Bytes, next: nat, length: nat) returns (ok: bool, value: WireValue)
    requires next + length <= |buffer|
    ensures ok == BitStringContent(buffer[next..][..length])
    ensures ok ==> value == BitStringOf(buffer[next..][..length])
  {
    if length < 2 || buffer[next] > 7 || length - 1 > 4 {
      return false, Empty;
    }
    BitStringParts(buffer, next, length);
    var count := (length - 1) * 8 - buffer[next];
    var bits := ReadBits(buffer, next + 1, count);
    return true, BitString(bits, count);
  }

  method ReadBitString(buffer: Bytes, offset: nat) returns (ok: bool, value: WireValue, next: nat)
    requires offset <= |buffer|
    ensures Agrees(ParseBitString(buffer[offset..]), buffer, ok, value, next)
  {
    value := Empty;
    var length;
    ok, length, next := ReadHeader(buffer, offset, TAG_BIT_STRING);
    if ok {
      ok, value := ReadBitStringContent(buffer, next, length);
      Slices(buffer, next, 0, length);
      next := next + length;
    }
  }

  method ReadText(buffer: Bytes, offset: nat) returns (ok: bool, value: WireValue, next: nat)
    requires offset <= |buffer|
    ensures Agrees(ParseText(buffer[offset..]), buffer, ok, value, next)
  {
    value := Empty;
    var length;
    ok, length, next := ReadHeader(buffer, offset, TAG_CHARACTER_STRING);
    if !ok || length == 0 {
      return false, value, next;
    }
    var kept := if length - 1 < MAX_TEXT then length - 1 else MAX_TEXT;
    value := CharacterString(buffer[next + 1..next + 1 + kept]);
    assert buffer[next..][1..1 + kept] == buffer[next + 1..next + 1 + kept];
    Slices(buffer, next, 0, length);
    next := next + length;
  }

  /** `appendText` for each piece in turn, up to the first that does not fit. */
  method AppendPieces(text: Bytes, pieces: seq<Bytes>) returns (longer: Bytes, complete: bool)
    ensures Append(text, pieces) == Appended(longer, complete)
  {
    longer, complete := text, true;
    for i := 0 to |pieces|
      invariant Append(text, pieces) == Append(longer, pieces[i..])
    {
      if |longer| + |pieces[i]| > MAX_TEXT {
        return longer, false;
      }
      longer := longer + pieces[i];
    }
  }

  method ReadObjectIdList(buffer: Bytes, offset: nat) returns (ok: bool, text: Bytes, next: nat)
    requires offset <= |buffer|
    ensures Agrees(ParseObjectIdList(buffer[offset..], []), buffer, ok, text, next)
  {
    hide ParseInteger, Append, ObjectIdPieces, ObjectIdOf;
    ok, text, next := true, [], offset;
    ghost var whole := ParseObjectIdList(buffer[offset..], []);
    while next < |buffer| && buffer[next] != CLOSE_VALUE
      invariant next <= |buffer| && whole == ParseObjectIdList(buffer[next..], text)
      decreases |buffer| - next
    {
      var fine, word, after := ReadInteger(buffer, next, TAG_OBJECT_IDENTIFIER);
      if !fine {
        return false, text, next;
      }
      var longer, complete := AppendPieces(text, ObjectIdPieces(text, ObjectIdOf(word)));
      text, next := longer, after;
      if !complete {
        return;
      }
    }
  }

  method ReadPropertyIdList(buffer: Bytes, offset: nat) returns (ok: bool, text: Bytes, next: nat)
    requires offset <= |buffer|
    ensures Agrees(ParsePropertyIdList(buffer[offset..], []), buffer, ok, text, next)
  {
    hide ParseInteger, Append, PropertyPieces;
    ok, text, next := true, [], offset;
    ghost var whole := ParsePropertyIdList(buffer[offset..], []);
    while next < |buffer| && buffer[next] != CLOSE_VALUE
      invariant next <= |buffer| && whole == ParsePropertyIdList(buffer[next..], text)
      decreases |buffer| - next
    {
      var fine, property, after := ReadInteger(buffer, next, TAG_ENUMERATED);
      if !fine {
        return false, text, next;
      }
      var longer, complete := AppendPieces(text, PropertyPieces(text, property));
      if !complete {
        return false, text, next;
      }
      text, next := longer, after;
    }
  }

  method ReadReal(buffer: Bytes, offset: nat) returns (ok: bool, pattern: uint32, next: nat)
    requires offset < |buffer|
    ensures Agrees(ParseReal(buffer[offset..]), buffer, ok, pattern, next)
  {
    pattern := 0;
    var length;
    ok, length, next := ReadHeader(buffer, offset, TAG_REAL);
    if !ok || length != 4 {
      return false, pattern, next;
    }
    Slices(buffer, next, 0, 4);
    FourBytesFit(buffer[next..next + 4]);
    pattern := ReadBigEndian(buffer, next, 4);
    next := next + 4;
  }

  /** A value of a type the stack does not know is skipped whole. */
  method ReadUnsupported(buffer: Bytes, offset: nat) returns (ok: bool, value: WireValue, next: nat)
    requires offset < |buffer|
    ensures Agrees(ParseUnsupported(buffer[offset..]), buffer, ok, value, next)
  {
    var tag := buffer[offset] / 16;
    value := Unsupported(tag);
    var length;
    ok, length, next := ReadHeader(buffer, offset, tag);
    if ok {
      Slices(buffer, next, 0, length);
      next := next + length;
    }
  }

  method ReadTagged(buffer: Bytes, offset: nat) returns (ok: bool, value: WireValue, next: nat)
    requires offset < |buffer|
    ensures Agrees(ParseTagged(buffer[offset..]), buffer, ok, value, next)
  {
    hide ParseInteger, ParseSigned, ParseReal, ParseText, ParseBitString, ParseUnsupported, ParseHeader, ObjectIdOf;
    value, next := Empty, offset;
    var tag := buffer[offset] / 16;
    if tag == TAG_NULL {
      var length;
      ok, length, next := ReadHeader(buffer, offset, TAG_NULL);
      ok := ok && length == 0;
      value := Null;
    } else if tag == TAG_BOOLEAN {
      ok := (buffer[offset] / 8) % 2 != 1;
      value := Boolean(buffer[offset] % 8 != 0);
      next := offset + 1;
    } else if tag == TAG_UNSIGNED {
      var n;
      ok, n, next := ReadInteger(buffer, offset, TAG_UNSIGNED);
      value := Unsigned(n);
    } else if tag == TAG_SIGNED {
      var n;
      ok, n, next := ReadSigned(buffer, offset);
      value := Signed(n);
    } else if tag == TAG_REAL {
      var pattern;
      ok, pattern, next := ReadReal(buffer, offset);
      value := Real(pattern);
    } else if tag == TAG_CHARACTER_STRING {
      ok, value, next := ReadText(buffer, offset);
    } else if tag == TAG_BIT_STRING {
      ok, value, next := ReadBitString(buffer, offset);
    } else if tag == TAG_ENUMERATED {
      var n;
      ok, n, next := ReadInteger(buffer, offset, TAG_ENUMERATED);
      value := Enumerated(n);
    } else if tag == TAG_OBJECT_IDENTIFIER {
      var word;
      ok, word, next := ReadInteger(buffer, offset, TAG_OBJECT_IDENTIFIER);
      value := ObjectIdentifier(ObjectIdOf(word));
    } else {
      ok, value, next := ReadUnsupported(buffer, offset);
    }
  }

  /** The value parser shared by every message: list properties first, then the application tag. */
  method ReadApplicationValue(buffer: Bytes, offset: nat, property: uint32, arrayIndex: uint32)
    returns (ok: bool, value: WireValue, next: nat)
    requires offset <= |buffer|
    ensures Agrees(ParseApplication(buffer[offset..], property, arrayIndex), buffer, ok, value, next)
  {
    value, next := Empty, offset;
    if offset >= |buffer| {
      return false, value, next;
    }
    var tag := buffer[offset] / 16;
    if property == OBJECT_LIST && tag == TAG_OBJECT_IDENTIFIER && arrayIndex == NO_ARRAY_INDEX {
      var text;
      ok, text, next := ReadObjectIdList(buffer, offset);
      ok := ok && text != [];
      value := ObjectIdentifierList(text);
    } else if property == PROPERTY_LIST && arrayIndex == NO_ARRAY_INDEX {
      var text;
      ok, text, next := ReadPropertyIdList(buffer, offset);
      ok := ok && text != [];
      value := PropertyIdentifierList(text);
    } else if property == DEVICE_ADDRESS_BINDING && buffer[offset] == CLOSE_VALUE {
      ok := true;
    } else {
      ok, value, next := ReadTagged(buffer, offset);
    }
  }
}
