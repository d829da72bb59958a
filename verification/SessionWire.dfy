/**
 What passes between a client's session and the network, and what a scan makes of its own sends. The
 contracts of `DeviceSession` are stated over this record, so that every conclusion a session draws
 is tied to what it really received.
 */
module SessionWire {
  import opened BacnetTypes
  import opened ApplicationValue
  import opened ReadStatus
  import opened PropertyCache
  import opened ScanMachine
  import opened ScanRuns
  import Messages = CovMessages

  /** What polling the network for the reply to a ReadProperty request yields. */
  datatype Received = Received(poll: PollStatus, value: WireValue, errorClass: uint32, errorCode: uint32)

  /** What polling it for the answer to a SubscribeCOV request yields. */
  datatype ServiceAnswer = NoAnswer | Accepted | Refused

  /** A request put to the transport, which may not take it, or what a poll yielded. */
  datatype WireEvent =
    | ReadAsked(request: PropertyRequest, invokeId: uint8, taken: bool)
    | ServiceAsked(asked: Messages.SubscribeRequest, invokeId: uint8, taken: bool)
    | ReadAnswered(reply: Received)
    | ServiceAnswered(answer: ServiceAnswer)
    | NewsAcknowledged(taken: bool)

  /** The device's word on a request: acknowledged or not. */
  function Graded(got: Received): DeviceReadStatus {
    if got.poll.AckReply? then DeviceAck else DeviceError
  }

  /** What the cache is told of a reply. */
  function AttemptOf(request: PropertyRequest, got: Received, now: uint32): Attempt {
    Attempt(request, Classify(got.poll, got.value, got.errorClass, got.errorCode, request.arrayIndex),
            Some(got.value), now, got.errorClass, got.errorCode)
  }

  lemma GradedIsDeviceStatus(got: Received, arrayIndex: uint32)
    requires got.poll != NoReply
    ensures DeviceStatus(Classify(got.poll, got.value, got.errorClass, got.errorCode, arrayIndex)) == Graded(got)
  {}

  // ----- the sends of one step of a scan

  /** The conversation, the finished requests of a scan, and the records of the cache. */
  datatype Tape = Tape(wire: seq<WireEvent>, log: Log, attempts: seq<Attempt>)

  /** A request the transport did not take is finished on the spot, and on record as a failed send. */
  function SendFailing(b: Tape, request: PropertyRequest, now: uint32): Tape {
    b.(log := b.log + [Exchange(request, Reply(DeviceSendFailed, None))],
       attempts := b.attempts + [Attempt(request, SendFailed, None, now, 0, 0)])
  }

  predicate FailedSend(x: Exchange, e: WireEvent, record: Attempt, now: uint32) {
    x.reply == Reply(DeviceSendFailed, None) && e.ReadAsked? && e.request == x.request && !e.taken &&
    record == Attempt(x.request, SendFailed, None, now, 0, 0)
  }

  /** Failed sends one after the other, and then a request that is waited for, or none. */
  predicate Sends(log: Log, wire: seq<WireEvent>, attempts: seq<Attempt>, awaited: Option<WireEvent>, now: uint32) {
    |attempts| == |log| && |wire| == |log| + (if awaited.Some? then 1 else 0) &&
    (awaited.Some? ==> wire[|log|] == awaited.value) &&
    forall k :: 0 <= k < |log| ==> FailedSend(log[k], wire[k], attempts[k], now)
  }

  /**
   What a step adds: requests that were not taken, each of them finished and on record as such, and
   last the request the scan now waits for, if it waits for one.
   */
  predicate Spoke(b: Tape, a: Tape, awaited: Option<WireEvent>, now: uint32) {
    b.log <= a.log && b.wire <= a.wire && b.attempts <= a.attempts &&
    Sends(a.log[|b.log|..], a.wire[|b.wire|..], a.attempts[|b.attempts|..], awaited, now)
  }

  lemma NothingSpoken(b: Tape, now: uint32)
    ensures Spoke(b, b, None, now)
  {}

  lemma OneSpoken(b: Tape, e: WireEvent, now: uint32)
    ensures Spoke(b, b.(wire := b.wire + [e]), Some(e), now)
  {}

  /** A failed send, and what came of going on after it. */
  lemma SpokeAgain(b: Tape, request: PropertyRequest, id: uint8, a: Tape, awaited: Option<WireEvent>, now: uint32)
    requires Spoke(SendFailing(b.(wire := b.wire + [ReadAsked(request, id, false)]), request, now), a, awaited, now)
    ensures Spoke(b, a, awaited, now)
  {
    var next := SendFailing(b.(wire := b.wire + [ReadAsked(request, id, false)]), request, now);
    assert b.log <= next.log && b.wire <= next.wire && b.attempts <= next.attempts;
    var x, record := next.log[|b.log|], next.attempts[|b.attempts|];
    assert a.log[|b.log|..] == [x] + a.log[|next.log|..];
    assert a.wire[|b.wire|..] == [ReadAsked(request, id, false)] + a.wire[|next.wire|..];
    assert a.attempts[|b.attempts|..] == [record] + a.attempts[|next.attempts|..];
  }

  /** What can be read off the tape after an exchange has ended and the scan has gone on. */
  lemma SpokeShows(b: Tape, x: Exchange, record: Attempt, a: Tape, awaited: Option<WireEvent>, now: uint32)
    requires Spoke(b.(log := b.log + [x], attempts := b.attempts + [record]), a, awaited, now)
    ensures |b.log| < |a.log| && a.log[|b.log|] == x
    ensures |b.attempts| < |a.attempts| && a.attempts[|b.attempts|] == record
    ensures b.wire <= a.wire && a.wire[..|b.wire|] == b.wire
  {
    hide Sends;
    assert (b.log + [x])[|b.log|] == x && (b.attempts + [record])[|b.attempts|] == record;
  }
}
