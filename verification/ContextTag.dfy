/** Context-tagged parameters: unsigned integers, object identifiers, booleans and REAL patterns. */
module ContextTag {
  import opened BacnetTypes
  import opened ByteOrder
  import opened ApplicationValue
  import opened ValueCodec

  // ----- the format

  /** One, two or four bytes; the builder never uses three. */
  function UnsignedLength(v: uint32): (n: nat)
    ensures (n == 1 || n == 2 || n == 4) && v < Radix(n)
  {
    RadixValues();
    if v <= 0xFF then 1 else if v <= 0xFFFF then 2 else 4
  }

  function Context(tag: TagNumber, code: Bytes): Bytes
    requires |code| <= 4
  {
    [tag * 16 + 8 + |code|] + code
  }

  function ContextUnsigned(tag: TagNumber, v: uint32): (s: Bytes)
    ensures 2 <= |s| <= 5
  {
    Context(tag, ToBytes(v, UnsignedLength(v)))
  }

  /** A four-byte parameter: an object identifier or a REAL pattern. */
  function ContextWord(tag: TagNumber, word: uint32): (s: Bytes)
    ensures |s| == 5
  {
    Context(tag, ToBytes(word, 4))
  }

  function ContextBoolean(tag: TagNumber, on: bool): (s: Bytes)
    ensures |s| == 2
  {
    Context(tag, [if on then 1 else 0])
  }

  /** An array index is written only when there is one. */
  function ContextIndex(tag: TagNumber, arrayIndex: uint32): (s: Bytes)
    ensures |s| <= 5
  {
    if arrayIndex == NO_ARRAY_INDEX then [] else ContextUnsigned(tag, arrayIndex)
  }

  // ----- the parsers

  predicate HasContextTag(s: Bytes, tag: TagNumber) {
    s != [] && s[0] / 16 == tag && (s[0] / 8) % 2 == 1
  }

  function ParseContext(s: Bytes, tag: TagNumber): (r: Parsed<uint32>)
    ensures r.Done? ==> |r.rest| < |s|
  {
    if HasContextTag(s, tag) then TakeInteger(s[0] % 8, s[1..]) else Fail
  }

  /** Exactly four bytes. */
  function ParseContextReal(s: Bytes, tag: TagNumber): (r: Parsed<uint32>)
    ensures r.Done? ==> |r.rest| < |s|
  {
    if HasContextTag(s, tag) && s[0] % 8 == 4 then TakeInteger(4, s[1..]) else Fail
  }

  /** An optional index: taken when its tag is next, a parse error when it is then malformed. */
  function ParseIndex(s: Bytes, tag: TagNumber): (r: Parsed<uint32>)
    ensures r.Done? ==> |r.rest| <= |s|
  {
    if HasContextTag(s, tag) then ParseContext(s, tag) else Done(NO_ARRAY_INDEX, s)
  }

  /** A literal byte, such as an opening or closing tag. */
  function ParseByte(s: Bytes, expected: uint8): (r: Parsed<uint8>)
    ensures r.Done? ==> |r.rest| < |s|
  {
    if s != [] && s[0] == expected then Done(expected, s[1..]) else Fail
  }

  /** A value between an opening and a closing tag. */
  function Bracketed(open: uint8, value: WireValue, close: uint8, tail: Bytes): Bytes {
    [open] + (EncodeApplication(value) + ([close] + tail))
  }

  function ParseBracketed(s: Bytes, open: uint8, close: uint8, property: uint32, arrayIndex: uint32)
    : (r: Parsed<WireValue>)
    ensures r.Done? ==> |r.rest| < |s|
  {
    var (_, s1) :- ParseByte(s, open);
    var (value, s2) :- ParseApplication(s1, property, arrayIndex);
    var (_, s3) :- ParseByte(s2, close);
    Done(value, s3)
  }

  // ----- round trips

  lemma ByteRoundTrip(b: uint8, tail: Bytes)
    ensures ParseByte([b] + tail, b) == Done(b, tail)
  {
    assert ([b] + tail)[1..] == tail;
  }

  /**
   What the receiver makes of a bracketed value: the value itself when it is faithful, otherwise
   a failure or a different value.
   */
  lemma BracketedIff(
    open: uint8, value: WireValue, close: uint8, tail: Bytes, property: uint32, arrayIndex: uint32)
    requires Encodable(value)
    ensures var r := ParseBracketed(Bracketed(open, value, close, tail), open, close, property, arrayIndex);
            if Faithful(value, property, arrayIndex) then r == Done(value, tail)
            else r.Done? ==> r.value != value
  {
    ByteRoundTrip(open, EncodeApplication(value) + ([close] + tail));
    FaithfulIff(value, [close] + tail, property, arrayIndex);
    ByteRoundTrip(close, tail);
  }

  predicate ContextLeadIs(lead: uint8, tag: TagNumber, length: nat) {
    lead / 16 == tag && (lead / 8) % 2 == 1 && lead % 8 == length
  }

  /** The tag byte of a context value. */
  lemma ContextLead(tag: TagNumber, code: Bytes) returns (lead: uint8)
    requires |code| <= 4
    ensures Context(tag, code) == [lead] + code && ContextLeadIs(lead, tag, |code|)
  {
    lead := tag * 16 + 8 + |code|;
  }

  lemma LeadFrame(lead: uint8, tag: TagNumber, code: Bytes, tail: Bytes)
    requires 1 <= |code| <= 4 && ContextLeadIs(lead, tag, |code|)
    ensures BigEndian(code) < 0x1_0000_0000
    ensures var s := [lead] + code + tail;
            ParseContext(s, tag) == Done(BigEndian(code), tail) && HasContextTag(s, tag) &&
            (|code| == 4 ==> ParseContextReal(s, tag) == Done(BigEndian(code), tail))
  {
    hide TakeInteger, BigEndian;
    Peel(lead, code, tail);
    TakeFrame(code, tail);
  }

  lemma ContextFrame(tag: TagNumber, code: Bytes, tail: Bytes)
    requires 1 <= |code| <= 4
    ensures BigEndian(code) < 0x1_0000_0000
    ensures ParseContext(Context(tag, code) + tail, tag) == Done(BigEndian(code), tail)
    ensures HasContextTag(Context(tag, code) + tail, tag)
    ensures |code| == 4 ==> ParseContextReal(Context(tag, code) + tail, tag) == Done(BigEndian(code), tail)
  {
    hide ContextLeadIs, HasContextTag, ParseContext, ParseContextReal, BigEndian, Context;
    var lead := ContextLead(tag, code);
    LeadFrame(lead, tag, code, tail);
  }

  lemma ContextUnsignedRoundTrip(tag: TagNumber, v: uint32, tail: Bytes)
    ensures ParseContext(ContextUnsigned(tag, v) + tail, tag) == Done(v, tail)
    ensures HasContextTag(ContextUnsigned(tag, v) + tail, tag)
  {
    BytesRoundTrip(v, UnsignedLength(v));
    ContextFrame(tag, ToBytes(v, UnsignedLength(v)), tail);
  }

  lemma ContextWordRoundTrip(tag: TagNumber, word: uint32, tail: Bytes)
    ensures ParseContext(ContextWord(tag, word) + tail, tag) == Done(word, tail)
    ensures ParseContextReal(ContextWord(tag, word) + tail, tag) == Done(word, tail)
    ensures HasContextTag(ContextWord(tag, word) + tail, tag)
  {
    RadixValues();
    BytesRoundTrip(word, 4);
    ContextFrame(tag, ToBytes(word, 4), tail);
  }

  lemma ContextBooleanRoundTrip(tag: TagNumber, on: bool, tail: Bytes)
    ensures ParseContext(ContextBoolean(tag, on) + tail, tag) == Done(if on then 1 else 0, tail)
    ensures HasContextTag(ContextBoolean(tag, on) + tail, tag)
  {
    var code: Bytes := [if on then 1 else 0];
    assert BigEndian(code) == code[0] by { assert code[..0] == []; }
    ContextFrame(tag, code, tail);
  }

  /** An index, present or absent, comes back when what follows cannot be taken for it. */
  lemma ContextIndexRoundTrip(tag: TagNumber, arrayIndex: uint32, tail: Bytes)
    requires !HasContextTag(tail, tag)
    ensures ParseIndex(ContextIndex(tag, arrayIndex) + tail, tag) == Done(arrayIndex, tail)
  {
    if arrayIndex == NO_ARRAY_INDEX {
      assert ContextIndex(tag, arrayIndex) + tail == tail;
    } else {
      ContextUnsignedRoundTrip(tag, arrayIndex, tail);
    }
  }

  /** Which tag a parameter shows to the parser of another optional one; brackets end in 6 or 7 instead. */
  lemma ContextShowsOnlyItsTag(tag: TagNumber, code: Bytes, tail: Bytes, other: TagNumber)
    requires |code| <= 4
    ensures HasContextTag(Context(tag, code) + tail, other) <==> tag == other
    ensures (Context(tag, code) + tail)[0] % 8 <= 4
  {
    var lead := ContextLead(tag, code);
    Peel(lead, code, tail);
  }

  // ----- in place

  method WriteContext(buffer: array<uint8>, offset: nat, tag: TagNumber, value: uint32, length: nat)
    returns (next: nat)
    requires length <= 4 && offset + length + 1 <= buffer.Length
    modifies buffer
    ensures next == offset + length + 1
    ensures buffer[..next] == old(buffer[..offset]) + Context(tag, ToBytes(value, length))
  {
    var size := WriteTagged(buffer, offset, tag * 16 + 8 + length, value, length);
    next := offset + size;
  }

  method WriteContextUnsigned(buffer: array<uint8>, offset: nat, tag: TagNumber, value: uint32)
    returns (next: nat)
    requires offset + |ContextUnsigned(tag, value)| <= buffer.Length
    modifies buffer
    ensures next == offset + |ContextUnsigned(tag, value)|
    ensures buffer[..next] == old(buffer[..offset]) + ContextUnsigned(tag, value)
  {
    if value <= 0xFF {
      next := WriteContext(buffer, offset, tag, value, 1);
    } else if value <= 0xFFFF {
      next := WriteContext(buffer, offset, tag, value, 2);
    } else {
      next := WriteContext(buffer, offset, tag, value, 4);
    }
  }

  method WriteContextWord(buffer: array<uint8>, offset: nat, tag: TagNumber, word: uint32)
    returns (next: nat)
    requires offset + 5 <= buffer.Length
    modifies buffer
    ensures next == offset + 5
    ensures buffer[..next] == old(buffer[..offset]) + ContextWord(tag, word)
  {
    next := WriteContext(buffer, offset, tag, word, 4);
  }

  method WriteContextBoolean(buffer: array<uint8>, offset: nat, tag: TagNumber, on: bool)
    returns (next: nat)
    requires offset + 2 <= buffer.Length
    modifies buffer
    ensures next == offset + 2
    ensures buffer[..next] == old(buffer[..offset]) + ContextBoolean(tag, on)
  {
    next := PutByte(buffer, offset, tag * 16 + 9);
    next := PutByte(buffer, next, if on then 1 else 0);
  }

  method WriteContextIndex(buffer: array<uint8>, offset: nat, tag: TagNumber, arrayIndex: uint32)
    returns (next: nat)
    requires offset + |ContextIndex(tag, arrayIndex)| <= buffer.Length
    modifies buffer
    ensures next == offset + |ContextIndex(tag, arrayIndex)|
    ensures buffer[..next] == old(buffer[..offset]) + ContextIndex(tag, arrayIndex)
  {
    next := offset;
    if arrayIndex != NO_ARRAY_INDEX {
      next := WriteContextUnsigned(buffer, offset, tag, arrayIndex);
    }
  }

  method HasContext(buffer: Bytes, offset: nat, tag: TagNumber) returns (has: bool)
    requires offset <= |buffer|
    ensures has == HasContextTag(buffer[offset..], tag)
  {
    has := offset < |buffer| && buffer[offset] / 16 == tag && (buffer[offset] / 8) % 2 == 1;
  }

  method ReadContextValue(buffer: Bytes, offset: nat, tag: TagNumber)
    returns (ok: bool, value: uint32, next: nat)
    requires offset <= |buffer|
    ensures Agrees(ParseContext(buffer[offset..], tag), buffer, ok, value, next)
  {
    value, next := 0, offset;
    var has := HasContext(buffer, offset, tag);
    if !has {
      return false, value, next;
    }
    var length := buffer[offset] % 8;
    if length == 0 || length > 4 || offset + 1 + length > |buffer| {
      return false, value, next;
    }
    Slices(buffer, offset, 1, length);
    FourBytesFit(buffer[offset + 1..offset + 1 + length]);
    value := ReadBigEndian(buffer, offset + 1, length);
    next := offset + 1 + length;
    ok := true;
  }

  method ReadContextReal(buffer: Bytes, offset: nat, tag: TagNumber)
    returns (ok: bool, pattern: uint32, next: nat)
    requires offset <= |buffer|
    ensures Agrees(ParseContextReal(buffer[offset..], tag), buffer, ok, pattern, next)
  {
    pattern, next := 0, offset;
    if offset >= |buffer| || buffer[offset] / 16 != tag || (buffer[offset] / 8) % 2 != 1 ||
       buffer[offset] % 8 != 4 || offset + 5 > |buffer| {
      return false, pattern, next;
    }
    Slices(buffer, offset, 1, 4);
    FourBytesFit(buffer[offset + 1..offset + 5]);
    pattern := ReadBigEndian(buffer, offset + 1, 4);
    next := offset + 5;
    ok := true;
  }

  method ReadIndex(buffer: Bytes, offset: nat, tag: TagNumber)
    returns (ok: bool, arrayIndex: uint32, next: nat)
    requires offset <= |buffer|
    ensures Agrees(ParseIndex(buffer[offset..], tag), buffer, ok, arrayIndex, next)
  {
    ok, arrayIndex, next := true, NO_ARRAY_INDEX, offset;
    var has := HasContext(buffer, offset, tag);
    if has {
      ok, arrayIndex, next := ReadContextValue(buffer, offset, tag);
    }
  }

  method ReadByte(buffer: Bytes, offset: nat, expected: uint8) returns (ok: bool, next: nat)
    requires offset <= |buffer|
    ensures Agrees(ParseByte(buffer[offset..], expected), buffer, ok, expected, next)
  {
    ok := offset < |buffer| && buffer[offset] == expected;
    next := if ok then offset + 1 else offset;
  }
}
