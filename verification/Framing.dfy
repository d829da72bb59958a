/** The BACnet/IP frame (Annex J of ASHRAE 135), the NPDU header and the confirmed-request header. */
module Framing {
  import opened BacnetTypes
  import opened ApplicationValue
  import opened ValueCodec

  const BVLC_IP: uint8 := 0x81
  const UNICAST: uint8 := 0x0A
  const BROADCAST: uint8 := 0x0B
  const NPDU_VERSION: uint8 := 0x01
  const EXPECTING_REPLY: uint8 := 0x04

  const COMPLEX_ACK: uint8 := 3
  const SIMPLE_ACK: uint8 := 2
  const ERROR: uint8 := 5
  const REJECT: uint8 := 6
  const ABORT: uint8 := 7

  const SERVICE_CONFIRMED_COV: uint8 := 0x01
  const SERVICE_SUBSCRIBE_COV: uint8 := 0x05
  const SERVICE_READ_PROPERTY: uint8 := 0x0C
  const SERVICE_WRITE_PROPERTY: uint8 := 0x0F
  const SERVICE_SUBSCRIBE_COV_PROPERTY: uint8 := 0x1C

  /** The four bytes before the NPDU; the length covers them too. */
  function FrameHead(size: nat): Bytes {
    [BVLC_IP, UNICAST, size / 256 % 256, size % 256]
  }

  function Length(high: uint8, low: uint8): nat {
    256 * high + low
  }

  function Frame(body: Bytes): Bytes {
    FrameHead(|body| + 4) + body
  }

  /** Network address: two bytes of network, a length byte, that many address bytes. */
  function SkipAddress(s: Bytes): (r: Parsed<uint8>)
    ensures r.Done? ==> |r.rest| < |s|
  {
    if |s| < 3 || 3 + s[2] > |s| then Fail else Done(s[2], s[3 + s[2]..])
  }

  /** Drops the NPDU header, with destination (and its hop count) and source when present. */
  function ParseNpdu(s: Bytes): (r: Parsed<uint8>)
    ensures r.Done? ==> |r.rest| < |s|
  {
    if |s| < 2 || s[0] != NPDU_VERSION || s[1] / 128 == 1 then Fail
    else
      var (_, afterDestination) :-
        if (s[1] / 32) % 2 == 1 then SkipDestination(s[2..]) else Done(0, s[2..]);
      var (_, rest) :-
        if (s[1] / 8) % 2 == 1 then SkipAddress(afterDestination) else Done(0, afterDestination);
      Done(s[1], rest)
  }

  function SkipDestination(s: Bytes): (r: Parsed<uint8>)
    ensures r.Done? ==> |r.rest| < |s|
  {
    var (n, rest) :- SkipAddress(s);
    if rest == [] then Fail else Done(n, rest[1..])
  }

  /** The APDU of a frame of at least `minimum` bytes whose length field is right. */
  function OpenFrame(packet: Bytes, minimum: nat, broadcastToo: bool): (r: Parsed<uint8>)
  {
    if |packet| < minimum || |packet| < 4 || packet[0] != BVLC_IP ||
       !(packet[1] == UNICAST || (broadcastToo && packet[1] == BROADCAST)) ||
       Length(packet[2], packet[3]) != |packet| then Fail
    else ParseNpdu(packet[4..])
  }

  lemma NpduOpens(control: uint8, apdu: Bytes)
    requires control == 0 || control == EXPECTING_REPLY
    ensures ParseNpdu([NPDU_VERSION, control] + apdu) == Done(control, apdu)
  {
    hide SkipAddress, SkipDestination;
    assert ([NPDU_VERSION, control] + apdu)[2..] == apdu;
  }

  /** A network number, the address on that network, and for a destination the hop count. */
  datatype Address = Address(high: uint8, low: uint8, bytes: Bytes)

  function AddressBytes(a: Option<Address>): Bytes
    requires a.Some? ==> |a.value.bytes| <= 255
  {
    if a.None? then [] else [a.value.high, a.value.low, |a.value.bytes|] + a.value.bytes
  }

  lemma AddressIsSkipped(a: Address, rest: Bytes)
    requires |a.bytes| <= 255
    ensures SkipAddress(AddressBytes(Some(a)) + rest) == Done(|a.bytes|, rest)
  {
    assert (AddressBytes(Some(a)) + rest)[3 + |a.bytes|..] == rest;
  }

  lemma DestinationIsSkipped(a: Address, hops: uint8, rest: Bytes)
    requires |a.bytes| <= 255
    ensures SkipDestination(AddressBytes(Some(a)) + ([hops] + rest)) == Done(|a.bytes|, rest)
  {
    AddressIsSkipped(a, [hops] + rest);
    assert ([hops] + rest)[1..] == rest;
  }

  /** The part of a routed header that follows version and control. */
  function Route(destination: Option<Address>, hops: uint8, source: Option<Address>, apdu: Bytes): Bytes
    requires destination.Some? ==> |destination.value.bytes| <= 255
    requires source.Some? ==> |source.value.bytes| <= 255
  {
    var from := if source.Some? then AddressBytes(source) + apdu else apdu;
    if destination.Some? then AddressBytes(destination) + ([hops] + from) else from
  }

  function RouteControl(destination: Option<Address>, source: Option<Address>): uint8 {
    match (destination, source)
    case (None, None) => 0x00
    case (None, Some(_)) => 0x08
    case (Some(_), None) => 0x20
    case (Some(_), Some(_)) => 0x28
  }

  /** A routed message opens to its APDU, whatever networks it comes from and goes to. */
  lemma RoutedNpduOpens(destination: Option<Address>, hops: uint8, source: Option<Address>, apdu: Bytes)
    requires destination.Some? ==> |destination.value.bytes| <= 255
    requires source.Some? ==> |source.value.bytes| <= 255
    ensures var control := RouteControl(destination, source);
            ParseNpdu([NPDU_VERSION, control] + Route(destination, hops, source, apdu)) == Done(control, apdu)
  {
    hide SkipAddress, SkipDestination, AddressBytes;
    var control := RouteControl(destination, source);
    var packet := [NPDU_VERSION, control] + Route(destination, hops, source, apdu);
    assert packet[2..] == Route(destination, hops, source, apdu);
    assert (control / 32) % 2 == (if destination.Some? then 1 else 0) && control / 128 == 0;
    assert (control / 8) % 2 == (if source.Some? then 1 else 0);
    if destination.Some? {
      DestinationIsSkipped(destination.value, hops, if source.Some? then AddressBytes(source) + apdu else apdu);
    }
    if source.Some? {
      AddressIsSkipped(source.value, apdu);
    }
  }

  lemma FrameOpens(control: uint8, apdu: Bytes, minimum: nat, broadcastToo: bool)
    requires control == 0 || control == EXPECTING_REPLY
    requires minimum <= |apdu| + 6 < 0x1_0000
    ensures OpenFrame(Frame([NPDU_VERSION, control] + apdu), minimum, broadcastToo) == Done(control, apdu)
  {
    hide SkipAddress, SkipDestination;
    var body := [NPDU_VERSION, control] + apdu;
    NpduOpens(control, apdu);
    hide ParseNpdu;
    assert Frame(body)[4..] == body;
  }

  // ----- confirmed requests

  datatype RequestParse<+T> = Unrelated | Malformed | Parsed(request: T)

  /** Invoke id, service and parameters of a confirmed request. */
  datatype ConfirmedHeader = ConfirmedHeader(invokeId: uint8, service: uint8, parameters: Bytes)

  function ParseConfirmedHeader(packet: Bytes): RequestParse<ConfirmedHeader>
  {
    match OpenFrame(packet, 4, false)
    case Fail => Malformed
    case Done(_, apdu) =>
      if apdu == [] then Malformed
      else if apdu[0] / 16 != 0 then Unrelated
      else if |apdu| < 4 then Malformed
      else Parsed(ConfirmedHeader(apdu[2], apdu[3], apdu[4..]))
  }

  function ConfirmedApdu(invokeId: uint8, service: uint8, parameters: Bytes): Bytes {
    [0x00, 0x05, invokeId, service] + parameters
  }

  function ConfirmedRequest(invokeId: uint8, service: uint8, parameters: Bytes): Bytes {
    Frame([NPDU_VERSION, EXPECTING_REPLY] + ConfirmedApdu(invokeId, service, parameters))
  }

  lemma ConfirmedRequestRoundTrip(invokeId: uint8, service: uint8, parameters: Bytes)
    requires |parameters| + 10 < 0x1_0000
    ensures ParseConfirmedHeader(ConfirmedRequest(invokeId, service, parameters))
            == Parsed(ConfirmedHeader(invokeId, service, parameters))
  {
    var apdu := ConfirmedApdu(invokeId, service, parameters);
    FrameOpens(EXPECTING_REPLY, apdu, 4, false);
    assert apdu[4..] == parameters;
  }

  // ----- the server's view of an answer to its confirmed notification

  datatype ResponseKind = NoResponse | Ack | Error | Reject | Abort

  function ClassifyCovResponse(packet: Bytes, expectedInvokeId: uint8): ResponseKind {
    match OpenFrame(packet, 8, false)
    case Fail => NoResponse
    case Done(_, apdu) => ClassifyApdu(apdu, expectedInvokeId)
  }

  function ClassifyApdu(apdu: Bytes, expectedInvokeId: uint8): ResponseKind {
    if |apdu| < 2 || apdu[1] != expectedInvokeId then NoResponse
    else
      var forService := |apdu| >= 3 && apdu[2] == SERVICE_CONFIRMED_COV;
      if apdu[0] / 16 == SIMPLE_ACK && forService then Ack
      else if apdu[0] / 16 == ERROR && forService then Error
      else if apdu[0] / 16 == REJECT then Reject
      else if apdu[0] / 16 == ABORT then Abort
      else NoResponse
  }

  function SimpleAck(invokeId: uint8, service: uint8): Bytes {
    Frame([NPDU_VERSION, 0, 0x20, invokeId, service])
  }

  /** A client's acknowledgement settles the notification with that invoke id and no other. */
  lemma AcknowledgementIsRecognised(invokeId: uint8, service: uint8, pending: uint8)
    ensures ClassifyCovResponse(SimpleAck(invokeId, service), pending)
            == if invokeId == pending && service == SERVICE_CONFIRMED_COV then Ack else NoResponse
  {
    var apdu: Bytes := [0x20, invokeId, service];
    assert [NPDU_VERSION, 0, 0x20, invokeId, service] == [NPDU_VERSION, 0] + apdu;
    FrameOpens(0, apdu, 8, false);
  }

  /**
   An error counts only when it is about a confirmed notification; a reject or an abort always ends
   the wait for its invoke id.
   */
  lemma RefusalIsRecognised(invokeId: uint8, pending: uint8, service: uint8, reason: uint8, server: bool, tail: Bytes)
    requires |tail| <= 1000
    ensures ClassifyCovResponse(Frame([NPDU_VERSION, 0] + ([0x50, invokeId, service] + tail)), pending)
            == if invokeId == pending && service == 0x01 then Error else NoResponse
    ensures ClassifyCovResponse(Frame([NPDU_VERSION, 0] + [0x60, invokeId, reason]), pending)
            == if invokeId == pending then Reject else NoResponse
    ensures ClassifyCovResponse(Frame([NPDU_VERSION, 0] + [if server then 0x71 else 0x70, invokeId, reason]), pending)
            == if invokeId == pending then Abort else NoResponse
  {
    hide Frame, OpenFrame, ClassifyCovResponse;
    ApduDecides([0x50, invokeId, service] + tail, pending);
    ApduDecides([0x60, invokeId, reason], pending);
    ApduDecides([if server then 0x71 else 0x70, invokeId, reason], pending);
  }

  lemma ApduDecides(apdu: Bytes, pending: uint8)
    requires 2 <= |apdu| <= 1003
    ensures ClassifyCovResponse(Frame([NPDU_VERSION, 0] + apdu), pending) == ClassifyApdu(apdu, pending)
  {
    hide Frame, OpenFrame, ClassifyApdu;
    FrameOpens(0, apdu, 8, false);
  }

  // ----- in place

  /** Fills in the length once the whole message is in the buffer. */
  method PatchLength(buffer: array<uint8>, size: nat, ghost body: Bytes)
    requires 4 <= size <= buffer.Length
    requires buffer[..size] == [BVLC_IP, UNICAST, 0, 0] + body
    modifies buffer
    ensures buffer[..size] == Frame(body)
  {
    buffer[2] := size / 256 % 256;
    buffer[3] := size % 256;
    assert forall i :: 0 <= i < |body| ==> buffer[..size][4 + i] == body[i];
  }

  method ReadNpduAddress(buffer: Bytes, offset: nat) returns (ok: bool, next: nat)
    requires offset <= |buffer|
    ensures match SkipAddress(buffer[offset..])
            case Fail => !ok
            case Done(_, rest) => ok && next <= |buffer| && rest == buffer[next..]
  {
    next := offset;
    if offset + 3 > |buffer| {
      return false, next;
    }
    var length: nat := buffer[offset + 2];
    if offset + 3 + length > |buffer| {
      return false, next;
    }
    Slices(buffer, offset, 3 + length, 0);
    next := offset + 3 + length;
    ok := true;
  }

  method ReadNpduHeader(buffer: Bytes, offset: nat) returns (ok: bool, next: nat)
    requires offset <= |buffer|
    ensures match ParseNpdu(buffer[offset..])
            case Fail => !ok
            case Done(_, rest) => ok && next <= |buffer| && rest == buffer[next..]
  {
    hide SkipAddress;
    next := offset;
    if offset + 2 > |buffer| || buffer[offset] != NPDU_VERSION {
      return false, next;
    }
    var control := buffer[offset + 1];
    next := offset + 2;
    Slices(buffer, offset, 2, 0);
    if control / 128 == 1 {
      return false, next;
    }
    if (control / 32) % 2 == 1 {
      ok, next := ReadNpduAddress(buffer, next);
      if !ok || next >= |buffer| {
        return false, next;
      }
      Slices(buffer, next, 1, 0);
      next := next + 1;
    }
    ok := true;
    if (control / 8) % 2 == 1 {
      ok, next := ReadNpduAddress(buffer, next);
    }
  }

  /** Checks the frame and returns where the APDU begins. */
  method ReadFrame(buffer: Bytes, minimum: nat, broadcastToo: bool) returns (ok: bool, next: nat)
    ensures match OpenFrame(buffer, minimum, broadcastToo)
            case Fail => !ok
            case Done(_, rest) => ok && next <= |buffer| && rest == buffer[next..]
  {
    next := 0;
    if |buffer| < minimum || |buffer| < 4 || buffer[0] != BVLC_IP ||
       !(buffer[1] == UNICAST || (broadcastToo && buffer[1] == BROADCAST)) ||
       Length(buffer[2], buffer[3]) != |buffer| {
      return false, next;
    }
    ok, next := ReadNpduHeader(buffer, 4);
  }

  method ReadConfirmedHeader(buffer: Bytes)
    returns (status: RequestParse<ConfirmedHeader>, next: nat)
    ensures status == ParseConfirmedHeader(buffer)
    ensures status.Parsed? ==> next <= |buffer| && status.request.parameters == buffer[next..]
  {
    next := 0;
    var ok, apdu := ReadFrame(buffer, 4, false);
    if !ok || apdu >= |buffer| {
      return Malformed, next;
    }
    if buffer[apdu] / 16 != 0 {
      return Unrelated, next;
    }
    if apdu + 4 > |buffer| {
      return Malformed, next;
    }
    Slices(buffer, apdu, 4, 0);
    next := apdu + 4;
    status := Parsed(ConfirmedHeader(buffer[apdu + 2], buffer[apdu + 3], buffer[next..]));
  }
}
