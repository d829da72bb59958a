/** The COV notification and subscription builders and parsers, working in place. */
module CovCodec {
  import opened BacnetTypes
  import opened ApplicationValue
  import opened ValueCodec
  import opened ContextTag
  import opened Framing
  import opened PropertyCodec
  import opened CovMessages

  // ----- building notifications

  lemma ItemTail(item: WireProperty, tail: Bytes)
    ensures PropertyItem(item, tail) == PropertyItem(item, []) + tail
  {
    hide EncodeApplication, ContextUnsigned, ContextIndex;
    var value := EncodeApplication(item.value);
    assert [CLOSE_ITEM] + [] == [CLOSE_ITEM];
    assert Bracketed(OPEN_ITEM, item.value, CLOSE_ITEM, tail)
        == Bracketed(OPEN_ITEM, item.value, CLOSE_ITEM, []) + tail;
  }

  /** The encodings of the first `n` items. */
  ghost function ItemsBefore(items: seq<WireProperty>, n: nat): Bytes
    requires n <= |items|
  {
    if n == 0 then [] else ItemsBefore(items, n - 1) + PropertyItem(items[n - 1], [])
  }

  lemma {:induction false} ItemsBeforeThenRest(items: seq<WireProperty>, n: nat, tail: Bytes)
    requires n <= |items|
    ensures PropertyItems(items, tail) == ItemsBefore(items, n) + PropertyItems(items[n..], tail)
  {
    hide PropertyItem;
    if n == 0 {
      assert items[0..] == items;
    } else {
      var rest := PropertyItems(items[n..], tail);
      ItemsBeforeThenRest(items, n - 1, tail);
      assert items[n - 1..][1..] == items[n..];
      ItemTail(items[n - 1], rest);
      AppendGroups(ItemsBefore(items, n - 1), PropertyItem(items[n - 1], []), rest);
    }
  }

  lemma AllItems(items: seq<WireProperty>, tail: Bytes)
    ensures PropertyItems(items, tail) == ItemsBefore(items, |items|) + tail
  {
    hide ItemsBefore, PropertyItem;
    ItemsBeforeThenRest(items, |items|, tail);
    assert items[|items|..] == [];
  }

  /** How the builder's room checks end: with everything written, with a refusal, or past the buffer. */
  datatype Room = Enough | Refused | Overrun

  /** The checks for one item, given the bytes left in the buffer. */
  function ItemRoom(item: WireProperty, left: nat): Room {
    var property, index := |ContextUnsigned(0, item.property)|, |ContextIndex(1, item.arrayIndex)|;
    if left < 8 || (item.arrayIndex != NO_ARRAY_INDEX && left - property < 6) || !Encodable(item.value) then Refused
    else if left - property - index < 3 then Overrun
    else if |EncodeApplication(item.value)| > left - property - index - 3 then Refused
    else Enough
  }

  lemma EnoughForItem(item: WireProperty, left: nat)
    requires ItemRoom(item, left) == Enough
    ensures |PropertyItem(item, [])| < left
  {
    ItemLayout([], item);
  }

  function ItemsRoom(items: seq<WireProperty>, left: nat): Room {
    if items == [] then Enough
    else
      match ItemRoom(items[0], left)
      case Refused => Refused
      case Overrun => Overrun
      case Enough =>
        EnoughForItem(items[0], left);
        ItemsRoom(items[1..], left - |PropertyItem(items[0], [])|)
  }

  /** Only an item with an array index, within its last bytes, can be written past the buffer. */
  lemma OverrunIff(item: WireProperty, left: nat)
    ensures ItemRoom(item, left) == Overrun <==>
            item.arrayIndex != NO_ARRAY_INDEX && Encodable(item.value) && left >= 8 &&
            6 <= left - |ContextUnsigned(0, item.property)| <= |ContextUnsigned(1, item.arrayIndex)| + 2
  {}

  /** Eight bytes more than the items take are always enough. */
  lemma {:induction false} RoomyBufferSuffices(items: seq<WireProperty>, left: nat)
    requires AllEncodable(items) && |PropertyItems(items, [])| + 8 <= left
    ensures ItemsRoom(items, left) == Enough
  {
    hide EncodeApplication, ContextUnsigned, ContextIndex, PropertyItem;
    if items != [] {
      ItemTail(items[0], PropertyItems(items[1..], []));
      ItemLayout([], items[0]);
      RoomyBufferSuffices(items[1..], left - |PropertyItem(items[0], [])|);
    }
  }

  method WriteItem(buffer: array<uint8>, offset: nat, item: WireProperty) returns (ok: bool, next: nat)
    requires offset <= buffer.Length && ItemRoom(item, buffer.Length - offset) != Overrun
    modifies buffer
    ensures ok == (ItemRoom(item, buffer.Length - offset) == Enough)
    ensures ok ==> next == offset + |PropertyItem(item, [])| < buffer.Length &&
                   buffer[..next] == old(buffer[..offset]) + PropertyItem(item, [])
  {
    hide EncodeApplication, ContextUnsigned;
    next := offset;
    if buffer.Length - offset < 8 {
      return false, next;
    }
    next := WriteContextUnsigned(buffer, offset, 0, item.property);
    if item.arrayIndex != NO_ARRAY_INDEX && buffer.Length - next < 6 {
      return false, next;
    }
    next := WriteContextIndex(buffer, next, 1, item.arrayIndex);
    next := PutByte(buffer, next, OPEN_ITEM);
    // the room the code computes wraps below zero, but then the value has no encoding whatever the room
    var room := if buffer.Length - next < 2 then 0 else buffer.Length - next - 2;
    var size := EncodeApplicationValue(buffer, next, room, item.value);
    if size == 0 {
      return false, next;
    }
    next := PutByte(buffer, next + size, CLOSE_ITEM);
    ok := true;
    ItemLayout(old(buffer[..offset]), item);
  }

  lemma ItemLayout(before: Bytes, item: WireProperty)
    ensures before + ContextUnsigned(0, item.property) + ContextIndex(1, item.arrayIndex) + [OPEN_ITEM]
            + EncodeApplication(item.value) + [CLOSE_ITEM] == before + PropertyItem(item, [])
    ensures |PropertyItem(item, [])| == |ContextUnsigned(0, item.property)| +
                                        |ContextIndex(1, item.arrayIndex)| + |EncodeApplication(item.value)| + 2
  {
    hide EncodeApplication, ContextUnsigned, ContextIndex;
    assert [CLOSE_ITEM] + [] == [CLOSE_ITEM];
  }

  method WriteItems(buffer: array<uint8>, offset: nat, items: seq<WireProperty>) returns (ok: bool, next: nat)
    requires offset < buffer.Length && ItemsRoom(items, buffer.Length - offset) != Overrun
    modifies buffer
    ensures ok == (ItemsRoom(items, buffer.Length - offset) == Enough)
    ensures ok ==> next == offset + |ItemsBefore(items, |items|)| < buffer.Length && AllEncodable(items) &&
                   buffer[..next] == old(buffer[..offset]) + ItemsBefore(items, |items|)
  {
    hide PropertyItem, ItemRoom;
    next := offset;
    ghost var before := buffer[..offset];
    assert items[0..] == items;
    for i := 0 to |items|
      invariant forall k :: 0 <= k < i ==> Encodable(items[k].value)
      invariant next == offset + |ItemsBefore(items, i)| < buffer.Length
      invariant ItemsRoom(items, buffer.Length - offset) == ItemsRoom(items[i..], buffer.Length - next)
      invariant buffer[..next] == before + ItemsBefore(items, i)
    {
      RoomOfNext(items, i, buffer.Length - next);
      var fine, after := WriteItem(buffer, next, items[i]);
      if !fine {
        return false, next;
      }
      AppendGroups(before, ItemsBefore(items, i), PropertyItem(items[i], []));
      next := after;
    }
    ok := true;
  }

  lemma RoomOfNext(items: seq<WireProperty>, i: nat, left: nat)
    requires i < |items|
    ensures ItemRoom(items[i], left) != Enough ==> ItemsRoom(items[i..], left) == ItemRoom(items[i], left)
    ensures ItemRoom(items[i], left) == Enough ==>
              Encodable(items[i].value) && |PropertyItem(items[i], [])| < left &&
              ItemsRoom(items[i..], left) == ItemsRoom(items[i + 1..], left - |PropertyItem(items[i], [])|)
  {
    hide PropertyItem;
    assert items[i..][0] == items[i] && items[i..][1..] == items[i + 1..];
    if ItemRoom(items[i], left) == Enough {
      EnoughForItem(items[i], left);
    }
  }

  /** Frame start, service and invoke id; the length is still open. */
  method WriteNotificationHead(buffer: array<uint8>, confirmed: bool, invokeId: uint8) returns (next: nat)
    requires buffer.Length >= 10
    modifies buffer
    ensures next == if confirmed then 10 else 8
    ensures buffer[..next] == [BVLC_IP, UNICAST, 0, 0] +
                              ([NPDU_VERSION, if confirmed then EXPECTING_REPLY else 0] +
                               NotificationApdu(confirmed, invokeId, []))
  {
    next := PutBytes(buffer, 0, [BVLC_IP, UNICAST, 0, 0, NPDU_VERSION, if confirmed then EXPECTING_REPLY else 0]);
    if confirmed {
      next := PutBytes(buffer, next, [0x00, 0x05, invokeId, SERVICE_CONFIRMED_COV]);
    } else {
      next := PutBytes(buffer, next, [0x10, 0x02]);
    }
  }

  method WriteIdentity(buffer: array<uint8>, offset: nat, id: CovIdentity) returns (next: nat)
    requires offset + 20 <= buffer.Length
    modifies buffer
    ensures next == offset + |NotificationParameters(id, [])| <= offset + 20
    ensures buffer[..next] == old(buffer[..offset]) + NotificationParameters(id, [])
  {
    hide ContextUnsigned, ContextWord, ObjectIdWord;
    next := WriteContextUnsigned(buffer, offset, 0, id.processId);
    next := WriteContextWord(buffer, next, 1, ObjectIdWord(id.device));
    next := WriteContextWord(buffer, next, 2, ObjectIdWord(id.monitored));
    next := WriteContextUnsigned(buffer, next, 3, id.secondsLeft);
    Regroup(old(buffer[..offset]), ContextUnsigned(0, id.processId), ContextWord(1, ObjectIdWord(id.device)),
                  ContextWord(2, ObjectIdWord(id.monitored)));
    IdentityThenList(id, []);
  }

  lemma IdentityThenList(id: CovIdentity, list: Bytes)
    ensures NotificationParameters(id, list) == NotificationParameters(id, []) + list
    ensures NotificationParameters(id, []) ==
            ContextUnsigned(0, id.processId) +
            (ContextWord(1, ObjectIdWord(id.device)) + ContextWord(2, ObjectIdWord(id.monitored))) +
            ContextUnsigned(3, id.secondsLeft)
  {
    hide ContextUnsigned, ContextWord, ObjectIdWord;
  }

  lemma NotificationLayout(confirmed: bool, invokeId: uint8, parameters: Bytes)
    ensures var control := if confirmed then EXPECTING_REPLY else 0;
            [BVLC_IP, UNICAST, 0, 0] + ([NPDU_VERSION, control] + NotificationApdu(confirmed, invokeId, []))
            + parameters
            == [BVLC_IP, UNICAST, 0, 0] + ([NPDU_VERSION, control] + NotificationApdu(confirmed, invokeId, parameters))
  {}

  /** What is left of the buffer after everything before the first item. */
  function LeftForItems(length: nat, id: CovIdentity, confirmed: bool): int {
    length - ((if confirmed then 10 else 8) + |NotificationParameters(id, [])| + 1)
  }

  lemma HeadFits(length: nat, id: CovIdentity, confirmed: bool)
    requires 32 <= length
    ensures 1 <= LeftForItems(length, id, confirmed)
  {
    hide ContextWord, ObjectIdWord;
  }

  /** What the builder refuses before it writes anything. */
  predicate NotificationRefused(length: nat, id: CovIdentity, items: seq<WireProperty>) {
    items == [] || id.device.instance > MAX_INSTANCE || id.monitored.instance > MAX_INSTANCE || length < 32
  }

  function NotificationRoom(length: nat, id: CovIdentity, items: seq<WireProperty>, confirmed: bool): Room {
    if NotificationRefused(length, id, items) then Refused
    else
      HeadFits(length, id, confirmed);
      ItemsRoom(items, LeftForItems(length, id, confirmed))
  }

  /** Forty bytes, and 268 for each value, are always enough. */
  lemma LargeBufferSuffices(length: nat, id: CovIdentity, items: seq<WireProperty>, confirmed: bool)
    requires !NotificationRefused(length, id, items) && AllEncodable(items) && 40 + 268 * |items| <= length
    ensures NotificationRoom(length, id, items, confirmed) == Enough
  {
    hide ContextWord, ObjectIdWord, ItemsRoom, PropertyItems;
    HeadFits(32, id, confirmed);
    ItemsSize(items);
    RoomyBufferSuffices(items, LeftForItems(length, id, confirmed));
  }

  lemma {:induction false} ItemsSize(items: seq<WireProperty>)
    ensures |PropertyItems(items, [])| <= 268 * |items|
  {
    hide EncodeApplication, ContextUnsigned, PropertyItem;
    if items != [] {
      ItemTail(items[0], PropertyItems(items[1..], []));
      ItemLayout([], items[0]);
      ItemsSize(items[1..]);
    }
  }

  /** Builds a notification in any buffer whose room checks keep it inside. */
  method BuildCovNotification(
    buffer: array<uint8>, id: CovIdentity, items: seq<WireProperty>, confirmed: bool, invokeId: uint8)
    returns (size: nat)
    requires NotificationRoom(buffer.Length, id, items, confirmed) != Overrun
    modifies buffer
    ensures size == if NotificationRoom(buffer.Length, id, items, confirmed) == Enough
                    then |Notification(id, items, confirmed, invokeId)| else 0
    ensures size > 0 ==> size <= buffer.Length && buffer[..size] == Notification(id, items, confirmed, invokeId)
  {
    hide PropertyItems, ItemsBefore, NotificationParameters, NotificationApdu, Encodable, ItemsRoom;
    if items == [] || id.device.instance > MAX_INSTANCE || id.monitored.instance > MAX_INSTANCE ||
       buffer.Length < 32 {
      return 0;
    }
    var next := WriteNotificationHead(buffer, confirmed, invokeId);
    ghost var head := buffer[..next];
    next := WriteIdentity(buffer, next, id);
    ghost var start := buffer[..next];
    next := PutByte(buffer, next, OPEN_LIST);
    assert buffer[..next] == start + [OPEN_LIST];
    HeadFits(buffer.Length, id, confirmed);
    assert buffer.Length - next == LeftForItems(buffer.Length, id, confirmed);
    var ok;
    ok, next := WriteItems(buffer, next, items);
    if !ok {
      return 0;
    }
    next := PutByte(buffer, next, CLOSE_LIST);
    size := next;
    AllItems(items, [CLOSE_LIST]);
    assert buffer[..size] == start + PropertyList(items);
    IdentityThenList(id, PropertyList(items));
    AppendGroups(head, NotificationParameters(id, []), PropertyList(items));
    NotificationLayout(confirmed, invokeId, NotificationParameters(id, PropertyList(items)));
    PatchLength(buffer, size, [NPDU_VERSION, if confirmed then EXPECTING_REPLY else 0] +
                              NotificationApdu(confirmed, invokeId, NotificationParameters(id, PropertyList(items))));
  }

  // ----- parsing notifications

  method ReadItem(buffer: Bytes, offset: nat) returns (ok: bool, item: WireProperty, next: nat)
    requires offset <= |buffer|
    ensures Agrees(ParseItem(buffer[offset..]), buffer, ok, item, next)
  {
    hide ParseContext, ParseIndex, ParseBracketed;
    item := PropertyValue(0, 0, Empty);
    var property, arrayIndex, value;
    ok, property, next := ReadContextValue(buffer, offset, 0);
    if !ok {
      return;
    }
    ok, arrayIndex, next := ReadIndex(buffer, next, 1);
    if !ok {
      return;
    }
    ok, value, next := ReadBracketed(buffer, next, OPEN_ITEM, CLOSE_ITEM, property, arrayIndex);
    if !ok {
      return;
    }
    var has := HasContext(buffer, next, 3);
    if has && buffer[next] % 8 < 5 {
      var priority;
      ok, priority, next := ReadContextValue(buffer, next, 3);
    }
    item := PropertyValue(property, arrayIndex, value);
  }

  lemma ItemRead(s: Bytes, item: WireProperty, rest: Bytes, items: seq<WireProperty>)
    requires s != [] && s[0] != CLOSE_LIST && ParseItem(s) == Done(item, rest)
    ensures Prepend(items, ParseItems(s)) == Prepend(items + [item], ParseItems(rest))
  {
    hide ParseItem;
    assert ParseItems(s) == Prepend([item], ParseItems(rest));
    PrependOne(items, item, ParseItems(rest));
  }

  lemma ItemFailed(s: Bytes, items: seq<WireProperty>)
    requires s != [] && s[0] != CLOSE_LIST && ParseItem(s) == Fail
    ensures Prepend(items, ParseItems(s)) == Fail
  {
    hide ParseItem;
  }

  lemma ListEnded(s: Bytes, items: seq<WireProperty>)
    requires s == [] || s[0] == CLOSE_LIST
    ensures Prepend(items, ParseItems(s)) == Done(items, s)
  {
    assert items + [] == items;
  }

  /** One turn of the list loop: the primary property and the kept ones. */
  lemma OneMoreItem(items: seq<WireProperty>, item: WireProperty)
    ensures Primary(items + [item]) ==
            if items == [] || item.property == PRESENT_VALUE then item else Primary(items)
    ensures Kept(items + [item]) == if |Kept(items)| < MAX_KEPT then Kept(items) + [item] else Kept(items)
  {
    assert (items + [item])[..|items|] == items;
  }

  /** The list loop: keeps the first four properties and the primary one as it goes. */
  method ReadItems(buffer: Bytes, offset: nat)
    returns (ok: bool, hasValue: bool, primary: WireProperty, kept: seq<WireProperty>, next: nat)
    requires offset <= |buffer|
    ensures match ParseItems(buffer[offset..])
            case Fail => !ok
            case Done(items, rest) =>
              ok && next <= |buffer| && rest == buffer[next..] && hasValue == (items != []) &&
              kept == Kept(items) && (hasValue ==> primary == Primary(items))
  {
    ok, hasValue, primary, kept, next := true, false, PropertyValue(0, 0, Empty), [], offset;
    ghost var items: seq<WireProperty> := [];
    ghost var whole := ParseItems(buffer[offset..]);
    PrependNothing(whole);
    assert kept == Kept(items);
    hide ParseItem, ParseItems, Prepend, Primary, Kept;
    while next < |buffer| && buffer[next] != CLOSE_LIST
      invariant next <= |buffer| && ok
      invariant whole == Prepend(items, ParseItems(buffer[next..]))
      invariant hasValue == (items != []) && kept == Kept(items) && (hasValue ==> primary == Primary(items))
      decreases |buffer| - next
    {
      var fine, item, after := ReadItem(buffer, next);
      if !fine {
        ItemFailed(buffer[next..], items);
        ok := false;
        return;
      }
      ItemRead(buffer[next..], item, buffer[after..], items);
      OneMoreItem(items, item);
      if |kept| < MAX_KEPT {
        kept := kept + [item];
      }
      if !hasValue || item.property == PRESENT_VALUE {
        primary := item;
        hasValue := true;
      }
      items := items + [item];
      next := after;
    }
    ListEnded(buffer[next..], items);
  }

  method ReadNotificationHead(buffer: Bytes, beyond: uint8)
    returns (ok: bool, invokeId: Option<uint8>, next: nat, tooFar: bool)
    ensures tooFar == ReadsBeyond(buffer)
    ensures match ReadHead(buffer, beyond)
            case Fail => !ok
            case Done(id, rest) => ok && invokeId == id && next <= |buffer| && rest == buffer[next..]
  {
    hide OpenFrame;
    invokeId, tooFar := None, false;
    ok, next := ReadFrame(buffer, 20, true);
    if !ok || next >= |buffer| {
      return false, invokeId, next, false;
    }
    var apdu := buffer[next];
    if apdu == 0x10 {
      if next + 2 > |buffer| || buffer[next + 1] != 0x02 {
        return false, invokeId, next, false;
      }
      Slices(buffer, next, 2, 0);
      next := next + 2;
    } else if apdu / 16 == 0 {
      if next + 3 > |buffer| {
        return false, invokeId, next, false;
      }
      tooFar := next + 3 == |buffer|;
      var service := if tooFar then beyond else buffer[next + 3];
      if service != SERVICE_CONFIRMED_COV {
        return false, invokeId, next, tooFar;
      }
      invokeId := Some(buffer[next + 2]);
      if tooFar {
        next := |buffer|;
      } else {
        Slices(buffer, next, 4, 0);
        next := next + 4;
      }
    } else {
      ok := false;
    }
  }

  lemma NothingToParse()
    ensures ParseContext([], 0) == Fail
  {}

  /** `tooFar` tells whether the code read the byte behind the packet; it never changes the outcome. */
  method ReadCovNotification(buffer: Bytes, beyond: uint8) returns (ok: bool, n: CovNotification, tooFar: bool)
    ensures match ParseCovNotification(buffer)
            case Fail => !ok
            case Done(v, _) => ok && n == v
    ensures tooFar == ReadsBeyond(buffer)
  {
    hide ParseItems, ParseNotificationHead, ReadHead, ReadsBeyond;
    ByteBeyondIsHarmless(buffer, beyond);
    NothingToParse();
    hide ParseContext;
    n := CovNotification(0, ObjectId(0, 0), PropertyValue(0, 0, Empty), [], false, 0);
    var invokeId, next;
    ok, invokeId, next, tooFar := ReadNotificationHead(buffer, beyond);
    if !ok {
      return;
    }
    var processId, device, monitored, secondsLeft;
    ok, processId, next := ReadContextValue(buffer, next, 0);
    if !ok {
      return;
    }
    ok, device, next := ReadContextValue(buffer, next, 1);
    if !ok {
      return;
    }
    ok, monitored, next := ReadContextValue(buffer, next, 2);
    if !ok {
      return;
    }
    ok, secondsLeft, next := ReadContextValue(buffer, next, 3);
    if !ok {
      return;
    }
    ok, next := ReadByte(buffer, next, OPEN_LIST);
    if !ok {
      return;
    }
    var hasValue, primary, kept;
    ok, hasValue, primary, kept, next := ReadItems(buffer, next);
    ok := ok && hasValue && next + 1 == |buffer| && buffer[next] == CLOSE_LIST;
    n := CovNotification(processId, ObjectIdOf(monitored), primary, kept, invokeId.Some?,
                         if invokeId.Some? then invokeId.value else 0);
  }

  // ----- subscription requests

  /** The room the builder asks for; for the property form that is one byte more than it uses. */
  function RequiredRoom(r: SubscribeRequest): nat {
    10 + |ContextUnsigned(0, r.processId)| + 5 + 2 + |ContextUnsigned(0, r.lifetime)| +
    (if r.isProperty
     then |ContextUnsigned(0, r.property)| + 1 + 2 + |ContextIndex(1, r.arrayIndex)| + |IncrementSuffix(r.increment)|
     else 0)
  }

  lemma RequiredRoomSuffices(r: SubscribeRequest)
    ensures |SubscribeMessage(r, 0)| == RequiredRoom(r) - (if r.isProperty then 1 else 0)
  {
    hide EncodeApplication;
  }

  method WriteSubscribeTail(buffer: array<uint8>, offset: nat, r: SubscribeRequest) returns (next: nat)
    requires offset + |SubscribeTail(r)| <= buffer.Length
    modifies buffer
    ensures next == offset + |SubscribeTail(r)|
    ensures buffer[..next] == old(buffer[..offset]) + SubscribeTail(r)
  {
    hide ContextUnsigned, ContextIndex, ContextWord, ContextBoolean;
    next := offset;
    ghost var before := buffer[..offset];
    var firstTag: TagNumber := 2;
    ghost var suffix: Bytes := [];
    if r.isProperty {
      next := PutByte(buffer, next, OPEN_ITEM);
      next := WriteContextUnsigned(buffer, next, 0, r.property);
      next := WriteContextIndex(buffer, next, 1, r.arrayIndex);
      next := PutByte(buffer, next, CLOSE_ITEM);
      firstTag := 3;
      suffix := IncrementSuffix(r.increment);
      ReferenceLayout(before, r, SubscribeTerms(r, 3, suffix));
    }
    ghost var reference := buffer[..next];
    next := WriteContextBoolean(buffer, next, firstTag, r.confirmed);
    next := WriteContextUnsigned(buffer, next, firstTag + 1, r.lifetime);
    ghost var terms := buffer[..next];
    if r.isProperty && r.increment.Some? {
      next := WriteContextWord(buffer, next, 5, r.increment.value);
    }
    assert buffer[..next] == terms + suffix;
    Regroup(reference, ContextBoolean(firstTag, r.confirmed), ContextUnsigned(firstTag + 1, r.lifetime), suffix);
    assert buffer[..next] == reference + SubscribeTerms(r, firstTag, suffix);
  }

  lemma ReferenceLayout(before: Bytes, r: SubscribeRequest, tail: Bytes)
    ensures before + [OPEN_ITEM] + ContextUnsigned(0, r.property) + ContextIndex(1, r.arrayIndex) + [CLOSE_ITEM]
            + tail == before + PropertyReference(r, tail)
  {
    hide ContextUnsigned, ContextIndex;
  }

  /** Builds either subscription request with invoke id zero, as the caller patches the id in. */
  method BuildSubscribe(buffer: array<uint8>, r: SubscribeRequest) returns (size: nat)
    modifies buffer
    ensures size == if buffer.Length < RequiredRoom(r) || r.monitored.instance > MAX_INSTANCE then 0
                    else |SubscribeMessage(r, 0)|
    ensures size > 0 ==> size <= buffer.Length && buffer[..size] == SubscribeMessage(r, 0)
  {
    hide ContextUnsigned, ContextWord, SubscribeTail, ObjectIdWord;
    RequiredRoomSuffices(r);
    if buffer.Length < RequiredRoom(r) || r.monitored.instance > MAX_INSTANCE {
      return 0;
    }
    var next := WriteConfirmedHead(buffer, 0, SubscribeService(r.isProperty));
    ghost var head := buffer[..next];
    next := WriteContextUnsigned(buffer, next, 0, r.processId);
    next := WriteContextWord(buffer, next, 1, ObjectIdWord(r.monitored));
    size := WriteSubscribeTail(buffer, next, r);
    Regroup(head, ContextUnsigned(0, r.processId), ContextWord(1, ObjectIdWord(r.monitored)), SubscribeTail(r));
    ConfirmedLayout(0, SubscribeService(r.isProperty), SubscribeParameters(r));
    PatchLength(buffer, size, [NPDU_VERSION, EXPECTING_REPLY] +
                              ConfirmedApdu(0, SubscribeService(r.isProperty), SubscribeParameters(r)));
  }

  /** The client stores its invoke id into the built request. */
  method PatchInvokeId(buffer: array<uint8>, size: nat, r: SubscribeRequest, invokeId: uint8)
    requires 10 <= size <= buffer.Length && buffer[..size] == SubscribeMessage(r, 0)
    modifies buffer
    ensures buffer[..size] == SubscribeMessage(r, invokeId)
  {
    hide SubscribeParameters;
    buffer[8] := invokeId;
    assert buffer[..size] == SubscribeMessage(r, 0)[8 := invokeId];
  }

  const CLIENT_BUFFER: nat := 40

  /** The client's packet for a request, or nothing when its fixed buffer is too small for the builder. */
  method SubscribePacket(r: SubscribeRequest, invokeId: uint8) returns (packet: Bytes)
    ensures packet == if RequiredRoom(r) <= CLIENT_BUFFER && r.monitored.instance <= MAX_INSTANCE
                      then SubscribeMessage(r, invokeId) else []
  {
    hide SubscribeMessage, RequiredRoom;
    RequiredRoomSuffices(r);
    RoomIsAtLeast(r);
    var request := new uint8[CLIENT_BUFFER];
    var size := BuildSubscribe(request, r);
    if size == 0 {
      return [];
    }
    PatchInvokeId(request, size, r, invokeId);
    packet := request[..size];
  }

  lemma RoomIsAtLeast(r: SubscribeRequest)
    ensures RequiredRoom(r) >= 20
  {}

  /**
   The object form always fits the client's buffer. The property form fits exactly when its integers,
   the index with its tag and the increment take at most 17 bytes together; they can take 22.
   */
  lemma SubscribeFitsClientBufferIff(r: SubscribeRequest)
    ensures RequiredRoom(r) <= CLIENT_BUFFER <==>
            !r.isProperty ||
            UnsignedLength(r.processId) + UnsignedLength(r.lifetime) + UnsignedLength(r.property) +
            (if r.arrayIndex == NO_ARRAY_INDEX then 0 else 1 + UnsignedLength(r.arrayIndex)) +
            (if r.increment.None? then 0 else 5) <= 17
  {
    LengthOfContextUnsigned(0, r.processId);
    LengthOfContextUnsigned(0, r.lifetime);
    LengthOfContextUnsigned(0, r.property);
    LengthOfContextUnsigned(1, r.arrayIndex);
  }

  lemma LengthOfContextUnsigned(tag: TagNumber, value: uint32)
    ensures |ContextUnsigned(tag, value)| == 1 + UnsignedLength(value) && 1 <= UnsignedLength(value) <= 4
  {}

  method ReadPropertyReference(buffer: Bytes, offset: nat)
    returns (ok: bool, reference: (uint32, uint32), next: nat)
    requires offset <= |buffer|
    ensures Agrees(ParsePropertyReference(buffer[offset..]), buffer, ok, reference, next)
  {
    hide ParseContext, ParseIndex;
    reference := (PRESENT_VALUE, NO_ARRAY_INDEX);
    var property, arrayIndex;
    ok, next := ReadByte(buffer, offset, OPEN_ITEM);
    if !ok {
      return;
    }
    ok, property, next := ReadContextValue(buffer, next, 0);
    if !ok {
      return;
    }
    ok, arrayIndex, next := ReadIndex(buffer, next, 1);
    if !ok {
      return;
    }
    ok, next := ReadByte(buffer, next, CLOSE_ITEM);
    reference := (property, arrayIndex);
  }

  method ReadSubscribeTail(buffer: Bytes, offset: nat, isProperty: bool, processId: uint32, monitored: ObjectId)
    returns (ok: bool, r: SubscribeRequest, next: nat)
    requires offset <= |buffer|
    ensures Agrees(ParseSubscribeTail(buffer[offset..], isProperty, processId, monitored), buffer, ok, r, next)
  {
    hide ParseContext, ParseContextReal, ParsePropertyReference, HasContextTag, NegativePattern;
    r := SubscribeRequest(processId, monitored, isProperty, PRESENT_VALUE, NO_ARRAY_INDEX, false, 0, None);
    ok, next := true, offset;
    if isProperty {
      var reference;
      ok, reference, next := ReadPropertyReference(buffer, next);
      if !ok {
        return;
      }
      r := r.(property := reference.0, arrayIndex := reference.1);
    }
    var has := HasContext(buffer, next, if isProperty then 3 else 2);
    if has {
      var flag;
      ok, flag, next := ReadContextValue(buffer, next, if isProperty then 3 else 2);
      if !ok || flag > 1 {
        ok := false;
        return;
      }
      r := r.(confirmed := flag != 0);
    }
    has := HasContext(buffer, next, if isProperty then 4 else 3);
    if has {
      var lifetime;
      ok, lifetime, next := ReadContextValue(buffer, next, if isProperty then 4 else 3);
      if !ok {
        return;
      }
      r := r.(lifetime := lifetime);
    }
    if isProperty {
      has := HasContext(buffer, next, 5);
      if has {
        var pattern;
        ok, pattern, next := ReadContextReal(buffer, next, 5);
        if !ok || NegativePattern(pattern) {
          ok := false;
          return;
        }
        r := r.(increment := Some(pattern));
      }
    }
  }

  method ReadSubscribe(buffer: Bytes) returns (status: RequestParse<SubscribeHeader>)
    ensures status == ParseSubscribe(buffer)
  {
    hide ParseContext, ParseSubscribeTail, ParseConfirmedHeader, ObjectIdOf;
    var confirmed, next := ReadConfirmedHeader(buffer);
    if confirmed.Malformed? {
      return Malformed;
    }
    if confirmed.Unrelated? || (confirmed.request.service != SERVICE_SUBSCRIBE_COV &&
                                confirmed.request.service != SERVICE_SUBSCRIBE_COV_PROPERTY) {
      return Unrelated;
    }
    var ok, processId, word, r;
    ok, processId, next := ReadContextValue(buffer, next, 0);
    if !ok {
      return Malformed;
    }
    ok, word, next := ReadContextValue(buffer, next, 1);
    if !ok {
      return Malformed;
    }
    ok, r, next := ReadSubscribeTail(buffer, next, confirmed.request.service == SERVICE_SUBSCRIBE_COV_PROPERTY,
                                     processId, ObjectIdOf(word));
    if !ok || next != |buffer| {
      return Malformed;
    }
    status := Parsed(SubscribeHeader(confirmed.request.invokeId, r));
  }
}
