/**
 Un-indexed Object_List and Property_List values, which the client keeps as text of at most 511
 characters: exactly which lists it accepts, and which it keeps whole.
 */
module IdentifierLists {
  import opened BacnetTypes
  import opened ApplicationValue
  import opened ContextTag
  import opened PropertyMessages

  // ----- the text of a list

  function ObjectIdText(objectId: ObjectId): Bytes {
    Decimal(objectId.kind) + [COMMA] + Decimal(objectId.instance)
  }

  function Extend(text: Bytes, item: Bytes): Bytes {
    if text == [] then item else text + [SEMICOLON] + item
  }

  /** Object identifiers in order, separated by semicolons. */
  function ObjectListText(ids: seq<ObjectId>): Bytes {
    if ids == [] then [] else Extend(ObjectListText(ids[..|ids| - 1]), ObjectIdText(ids[|ids| - 1]))
  }

  function PropertyListText(properties: seq<uint32>): Bytes {
    if properties == [] then []
    else Extend(PropertyListText(properties[..|properties| - 1]), Decimal(properties[|properties| - 1]))
  }

  function Flat(pieces: seq<Bytes>): Bytes {
    if pieces == [] then [] else pieces[0] + Flat(pieces[1..])
  }

  /** Pieces are appended whole exactly when all of them fit together. */
  lemma {:induction false} AppendIff(text: Bytes, pieces: seq<Bytes>)
    requires |text| <= MAX_TEXT
    ensures Append(text, pieces).complete <==> |text| + |Flat(pieces)| <= MAX_TEXT
    ensures Append(text, pieces).complete ==> Append(text, pieces).text == text + Flat(pieces)
    decreases |pieces|
  {
    if pieces == [] {
      assert text + Flat(pieces) == text;
    } else if |text| + |pieces[0]| <= MAX_TEXT {
      AppendIff(text + pieces[0], pieces[1..]);
      assert text + pieces[0] + Flat(pieces[1..]) == text + Flat(pieces);
    }
  }

  lemma FlatOfFirst(a: Bytes, rest: seq<Bytes>)
    ensures Flat([a] + rest) == a + Flat(rest)
  {
    assert ([a] + rest)[1..] == rest;
  }

  lemma FlatOfThree(a: Bytes, b: Bytes, c: Bytes)
    ensures Flat([a, b, c]) == a + b + c
  {
    var none: seq<Bytes> := [];
    FlatOfFirst(c, none);
    FlatOfFirst(b, [c]);
    FlatOfFirst(a, [b, c]);
    assert [c] + none == [c] && [b] + [c] == [b, c] && [a] + [b, c] == [a, b, c];
    assert a + (b + (c + [])) == a + b + c;
  }

  lemma AppendObjectId(text: Bytes, objectId: ObjectId)
    requires |text| <= MAX_TEXT
    ensures var a := Append(text, ObjectIdPieces(text, objectId));
            var longer := Extend(text, ObjectIdText(objectId));
            (a.complete <==> |longer| <= MAX_TEXT) && (a.complete ==> a.text == longer) && |a.text| <= MAX_TEXT
  {
    hide Decimal, Append;
    var pieces := [Decimal(objectId.kind), [COMMA], Decimal(objectId.instance)];
    AppendIff(text, ObjectIdPieces(text, objectId));
    FlatOfThree(Decimal(objectId.kind), [COMMA], Decimal(objectId.instance));
    FlatOfFirst([SEMICOLON], pieces);
    assert [] + pieces == pieces;
    assert text + ([SEMICOLON] + ObjectIdText(objectId)) == text + [SEMICOLON] + ObjectIdText(objectId);
  }

  lemma AppendProperty(text: Bytes, property: uint32)
    requires |text| <= MAX_TEXT
    ensures var a := Append(text, PropertyPieces(text, property));
            var longer := Extend(text, Decimal(property));
            (a.complete <==> |longer| <= MAX_TEXT) && (a.complete ==> a.text == longer)
  {
    hide Decimal, Append;
    var none: seq<Bytes> := [];
    AppendIff(text, PropertyPieces(text, property));
    FlatOfFirst(Decimal(property), none);
    FlatOfFirst([SEMICOLON], [Decimal(property)]);
    assert none + [Decimal(property)] == [Decimal(property)] == [Decimal(property)] + none;
    assert Flat(none) == [] && Decimal(property) + [] == Decimal(property);
    assert text + ([SEMICOLON] + Decimal(property)) == text + [SEMICOLON] + Decimal(property);
  }

  /** A shorter list has no longer text. */
  lemma {:induction false} ObjectTextGrows(ids: seq<ObjectId>, n: nat)
    requires n <= |ids|
    ensures |ObjectListText(ids[..n])| <= |ObjectListText(ids)|
  {
    if n < |ids| {
      var front := ids[..|ids| - 1];
      assert front[..n] == ids[..n];
      ObjectTextGrows(front, n);
    } else {
      assert ids[..n] == ids;
    }
  }

  lemma {:induction false} PropertyTextGrows(properties: seq<uint32>, n: nat)
    requires n <= |properties|
    ensures |PropertyListText(properties[..n])| <= |PropertyListText(properties)|
  {
    if n < |properties| {
      var front := properties[..|properties| - 1];
      assert front[..n] == properties[..n];
      PropertyTextGrows(front, n);
    } else {
      assert properties[..n] == properties;
    }
  }

  // ----- the lists on the wire

  predicate AllValid(ids: seq<ObjectId>) {
    forall i :: 0 <= i < |ids| ==> ValidObjectId(ids[i])
  }

  function ObjectIdValues(ids: seq<ObjectId>): (values: seq<WireValue>)
    ensures |values| == |ids|
    ensures forall i :: 0 <= i < |ids| ==> values[i] == ObjectIdentifier(ids[i])
  {
    seq(|ids|, i requires 0 <= i < |ids| => ObjectIdentifier(ids[i]))
  }

  function PropertyValues(properties: seq<uint32>): (values: seq<WireValue>)
    ensures |values| == |properties|
    ensures forall i :: 0 <= i < |properties| ==> values[i] == Enumerated(properties[i])
  {
    seq(|properties|, i requires 0 <= i < |properties| => Enumerated(properties[i]))
  }

  lemma EncodeNext(values: seq<WireValue>, from: nat, tail: Bytes)
    requires from < |values|
    ensures EncodeAll(values[from..]) + tail
            == EncodeApplication(values[from]) + (EncodeAll(values[from + 1..]) + tail)
  {
    assert values[from..][1..] == values[from + 1..];
  }

  /** The list so far has been kept; the rest, its closing tag and whatever follows is still to be read. */
  lemma {:induction false} ObjectListFrom(ids: seq<ObjectId>, from: nat, tail: Bytes)
    requires from <= |ids| && AllValid(ids) && |ObjectListText(ids[..from])| <= MAX_TEXT
    requires tail != [] && tail[0] == CLOSE_VALUE
    ensures var p := ParseObjectIdList(EncodeAll(ObjectIdValues(ids)[from..]) + tail, ObjectListText(ids[..from]));
            p.Done? && |p.value| <= MAX_TEXT &&
            (|ObjectListText(ids)| <= MAX_TEXT ==> p == Done(ObjectListText(ids), tail)) &&
            (p.rest != [] && p.rest[0] == CLOSE_VALUE <==>
             ids == [] || |ObjectListText(ids[..|ids| - 1])| <= MAX_TEXT) &&
            (p.rest != [] && p.rest[0] == CLOSE_VALUE ==> p.rest == tail)
    decreases |ids| - from
  {
    hide ParseInteger, ObjectListText, Append, ObjectIdPieces, EncodeApplication, ObjectIdText, Extend;
    var values := ObjectIdValues(ids);
    var text := ObjectListText(ids[..from]);
    if from == |ids| {
      assert ids[..from] == ids && EncodeAll(values[from..]) + tail == tail;
      if ids != [] {
        ObjectTextGrows(ids, |ids| - 1);
      }
    } else {
      var rest := EncodeAll(values[from + 1..]) + tail;
      EncodeNext(values, from, tail);
      ObjectIdRead(ids[from], rest);
      NextObjectText(ids, from);
      AppendObjectId(text, ids[from]);
      if |ObjectListText(ids[..from + 1])| <= MAX_TEXT {
        ObjectListFrom(ids, from + 1, tail);
      } else {
        ObjectTextGrows(ids, from + 1);
        ObjectListStops(ids, from, tail);
      }
    }
  }

  lemma NextObjectText(ids: seq<ObjectId>, from: nat)
    requires from < |ids|
    ensures ObjectListText(ids[..from + 1]) == Extend(ObjectListText(ids[..from]), ObjectIdText(ids[from]))
  {
    assert ids[..from + 1][..from] == ids[..from];
  }

  lemma ObjectIdRead(objectId: ObjectId, rest: Bytes)
    requires ValidObjectId(objectId)
    ensures var s := EncodeApplication(ObjectIdentifier(objectId)) + rest;
            s != [] && s[0] == 0xC4 &&
            ParseInteger(s, TAG_OBJECT_IDENTIFIER) == Done(ObjectIdWord(objectId), rest) &&
            ObjectIdOf(ObjectIdWord(objectId)) == objectId
  {
    hide ParseInteger;
    ObjectIdWordRoundTrip(ObjectIdWord(objectId), rest);
    ObjectIdRoundTripIff(objectId);
  }

  /** What follows the identifier that did not fit is the closing tag only if that was the last one. */
  lemma ObjectListStops(ids: seq<ObjectId>, from: nat, tail: Bytes)
    requires from < |ids| && AllValid(ids) && tail != [] && tail[0] == CLOSE_VALUE
    requires |ObjectListText(ids[..from])| <= MAX_TEXT < |ObjectListText(ids[..from + 1])|
    ensures var rest := EncodeAll(ObjectIdValues(ids)[from + 1..]) + tail;
            rest != [] &&
            (rest[0] == CLOSE_VALUE <==> |ObjectListText(ids[..|ids| - 1])| <= MAX_TEXT) &&
            (rest[0] == CLOSE_VALUE ==> rest == tail)
  {
    hide ObjectListText, EncodeApplication;
    var values := ObjectIdValues(ids);
    if from + 1 == |ids| {
      assert EncodeAll(values[from + 1..]) + tail == tail;
    } else {
      EncodeNext(values, from + 1, tail);
      ObjectIdRead(ids[from + 1], EncodeAll(values[from + 2..]) + tail);
      var front := ids[..|ids| - 1];
      assert front[..from + 1] == ids[..from + 1];
      ObjectTextGrows(front, from + 1);
    }
  }

  lemma {:induction false} PropertyListFrom(properties: seq<uint32>, from: nat, tail: Bytes)
    requires from <= |properties| && |PropertyListText(properties[..from])| <= MAX_TEXT
    requires tail != [] && tail[0] == CLOSE_VALUE
    ensures ParsePropertyIdList(EncodeAll(PropertyValues(properties)[from..]) + tail,
                                PropertyListText(properties[..from]))
            == if |PropertyListText(properties)| <= MAX_TEXT then Done(PropertyListText(properties), tail) else Fail
    decreases |properties| - from
  {
    hide ParseInteger, PropertyListText, Append, PropertyPieces, EncodeApplication, Extend, Decimal;
    var values := PropertyValues(properties);
    if from == |properties| {
      assert properties[..from] == properties && EncodeAll(values[from..]) + tail == tail;
    } else {
      var rest := EncodeAll(values[from + 1..]) + tail;
      EncodeNext(values, from, tail);
      PropertyRead(properties[from], rest);
      NextPropertyText(properties, from);
      AppendProperty(PropertyListText(properties[..from]), properties[from]);
      if |PropertyListText(properties[..from + 1])| <= MAX_TEXT {
        PropertyListFrom(properties, from + 1, tail);
      } else {
        PropertyTextGrows(properties, from + 1);
      }
    }
  }

  lemma NextPropertyText(properties: seq<uint32>, from: nat)
    requires from < |properties|
    ensures PropertyListText(properties[..from + 1])
            == Extend(PropertyListText(properties[..from]), Decimal(properties[from]))
  {
    assert properties[..from + 1][..from] == properties[..from];
  }

  lemma PropertyRead(property: uint32, rest: Bytes)
    ensures var s := EncodeApplication(Enumerated(property)) + rest;
            s != [] && s[0] != CLOSE_VALUE && ParseInteger(s, TAG_ENUMERATED) == Done(property, rest)
  {
    hide ParseInteger;
    IntegerRoundTrip(TAG_ENUMERATED, property, rest);
    LeadByte(Enumerated(property));
  }

  // ----- acknowledgements

  lemma NothingYet<T>(s: seq<T>)
    ensures s[..0] == [] && s[0..] == s
  {}

  lemma ValuesRead(invokeId: uint8, r: PropertyRequest, values: Bytes, expected: PropertyRequest)
    requires ValidObjectId(r.objectId) && ValidObjectId(expected.objectId)
    requires Answers(invokeId, r, invokeId, expected) && |PropertyAck(invokeId, r, values)| <= 0xFFFF
    ensures ParseReadPropertyAck(PropertyAck(invokeId, r, values), invokeId, expected)
            == ParseBracketed([OPEN_VALUE] + (values + [CLOSE_VALUE]), OPEN_VALUE, CLOSE_VALUE, r.property,
                              r.arrayIndex)
  {
    hide ParseBracketed, ParseAckHead, ParseEcho, PropertyAck;
    AckHeadRoundTrip(invokeId, r, values, invokeId);
    EchoRoundTrip(r, expected, AckValues(values));
  }

  /**
   A client that reads a whole Object_List takes the answer exactly when the text of all objects but
   the last has at most 511 characters, and has all of them exactly when the whole text has.
   */
  lemma ObjectListAcceptedIff(
    invokeId: uint8, r: PropertyRequest, ids: seq<ObjectId>, expected: PropertyRequest)
    requires ids != [] && AllValid(ids) && r.property == OBJECT_LIST && r.arrayIndex == NO_ARRAY_INDEX
    requires ValidObjectId(r.objectId) && ValidObjectId(expected.objectId)
    requires Answers(invokeId, r, invokeId, expected)
    requires |PropertyAck(invokeId, r, EncodeAll(ObjectIdValues(ids)))| <= 0xFFFF
    ensures var seen :=
              ParseReadPropertyAck(PropertyAck(invokeId, r, EncodeAll(ObjectIdValues(ids))), invokeId, expected);
            (seen.Done? <==> |ObjectListText(ids[..|ids| - 1])| <= MAX_TEXT) &&
            (seen.Done? && seen.value == ObjectIdentifierList(ObjectListText(ids)) <==>
             |ObjectListText(ids)| <= MAX_TEXT)
  {
    hide ParseReadPropertyAck, PropertyAck, ParseInteger, ObjectListText, Append, EncodeApplication, ObjectIdPieces;
    var values := ObjectIdValues(ids);
    var tail: Bytes := [CLOSE_VALUE];
    var s := EncodeAll(values) + tail;
    ValuesRead(invokeId, r, EncodeAll(values), expected);
    NothingYet(ids);
    NothingYet(values);
    EmptyTexts();
    ObjectListFrom(ids, 0, tail);
    ObjectTextGrows(ids, |ids| - 1);
    EncodeNext(values, 0, tail);
    ObjectIdRead(ids[0], EncodeAll(values[1..]) + tail);
    FirstStays(ids, s);
    assert ([OPEN_VALUE] + s)[1..] == s;
  }

  lemma EmptyTexts()
    ensures ObjectListText([]) == [] && PropertyListText([]) == []
  {}

  /** The first identifier always fits. */
  lemma FirstStays(ids: seq<ObjectId>, s: Bytes)
    requires ids != [] && ValidObjectId(ids[0]) && s != [] && s[0] != CLOSE_VALUE
    requires ParseInteger(s, TAG_OBJECT_IDENTIFIER).Done?
    requires ObjectIdOf(ParseInteger(s, TAG_OBJECT_IDENTIFIER).value) == ids[0]
    requires ParseObjectIdList(s, []).Done?
    ensures ParseObjectIdList(s, []).value != []
  {
    hide ParseInteger;
    var pieces := ObjectIdPieces([], ids[0]);
    assert pieces[0] == Decimal(ids[0].kind);
    DecimalBound(ids[0].kind);
    var p := ParseInteger(s, TAG_OBJECT_IDENTIFIER);
    var a := Append([], pieces);
    assert [] + pieces[0] == pieces[0];
    assert a.text != [];
    if a.complete {
      TextOnlyGrows(p.rest, a.text);
    }
  }

  lemma {:induction false} DecimalBound(n: nat)
    ensures |Decimal(n)| <= 1 + n / 10
  {
    if n >= 10 {
      DecimalBound(n / 10);
    }
  }

  lemma {:induction false} TextOnlyGrows(s: Bytes, text: Bytes)
    requires ParseObjectIdList(s, text).Done?
    ensures text <= ParseObjectIdList(s, text).value
    decreases |s|
  {
    hide ParseInteger, ObjectIdPieces;
    if s != [] && s[0] != CLOSE_VALUE {
      var p := ParseInteger(s, TAG_OBJECT_IDENTIFIER);
      var a := Append(text, ObjectIdPieces(text, ObjectIdOf(p.value)));
      if a.complete {
        TextOnlyGrows(p.rest, a.text);
      }
    }
  }

  /** A client that reads a whole Property_List takes the answer exactly when its text has at most 511 characters. */
  lemma PropertyListAcceptedIff(
    invokeId: uint8, r: PropertyRequest, properties: seq<uint32>, expected: PropertyRequest)
    requires properties != [] && r.property == PROPERTY_LIST && r.arrayIndex == NO_ARRAY_INDEX
    requires ValidObjectId(r.objectId) && ValidObjectId(expected.objectId)
    requires Answers(invokeId, r, invokeId, expected)
    requires |PropertyAck(invokeId, r, EncodeAll(PropertyValues(properties)))| <= 0xFFFF
    ensures ParseReadPropertyAck(PropertyAck(invokeId, r, EncodeAll(PropertyValues(properties))), invokeId, expected)
            == if |PropertyListText(properties)| <= MAX_TEXT
               then Done(PropertyIdentifierList(PropertyListText(properties)), []) else Fail
  {
    hide ParseReadPropertyAck, PropertyAck, ParseInteger, PropertyListText, Append, EncodeApplication;
    var values := PropertyValues(properties);
    var tail: Bytes := [CLOSE_VALUE];
    var s := EncodeAll(values) + tail;
    ValuesRead(invokeId, r, EncodeAll(values), expected);
    NothingYet(properties);
    NothingYet(values);
    EmptyTexts();
    PropertyListFrom(properties, 0, tail);
    PropertyTextIsNotEmpty(properties);
    assert ([OPEN_VALUE] + s)[1..] == s;
  }

  lemma PropertyTextIsNotEmpty(properties: seq<uint32>)
    requires properties != []
    ensures PropertyListText(properties) != []
  {}
}
