/** The object-list scan as a machine: one reply in, one request or the end of the scan out. */
module ScanMachine {
  import opened BacnetTypes
  import opened ApplicationValue
  import opened ReadStatus

  /** An empty filter accepts every object type. */
  datatype ScanOptions = ScanOptions(
    types: seq<uint16>, limit: uint32, timeout: uint32, readName: bool, readDescription: bool, readPresentValue: bool)

  predicate Accepts(o: ScanOptions, objectId: ObjectId) {
    o.types == [] || objectId.kind in o.types
  }

  datatype ScannedObject = ScannedObject(
    objectId: ObjectId,
    nameStatus: DeviceReadStatus, name: WireValue,
    descriptionStatus: DeviceReadStatus, description: WireValue,
    presentValueStatus: DeviceReadStatus, presentValue: WireValue)

  function Scanned(objectId: ObjectId): ScannedObject {
    ScannedObject(objectId, DeviceSkipped, Empty, DeviceSkipped, Empty, DeviceSkipped, Empty)
  }

  datatype ScanResult = ScanResult(
    countStatus: DeviceReadStatus, count: uint32, inspected: uint32, found: nat, stored: nat, truncated: bool)

  datatype Phase =
    | Idle | ReadCount | ReadEntry | ReadName | ReadDescription | ReadPresentValue | Finish | Failing | Stopped

  datatype JobStatus = JobIdle | JobActive | JobComplete | JobFailed | JobCancelled

  datatype Scan = Scan(
    status: JobStatus, phase: Phase, result: ScanResult, currentIndex: uint32, maxIndex: uint32,
    storing: Option<nat>, objects: seq<ScannedObject>)

  /** How a request ended; a timeout or a failed send brings no value. */
  datatype Reply = Reply(status: DeviceReadStatus, value: Option<WireValue>)

  /** A finished request is never reported as skipped. */
  predicate Finished(r: Reply) {
    r.status != DeviceSkipped
  }

  function Start(): Scan {
    Scan(JobActive, ReadCount, ScanResult(DeviceSkipped, 0, 0, 0, 0, false), 0, 0, None, [])
  }

  /** 32-bit increment. */
  function Successor(x: uint32): uint32 {
    if x == 0xFFFF_FFFF then 0 else x + 1
  }

  /** The property to read next for a stored object. */
  function NextRead(o: ScanOptions, x: ScannedObject): Option<Phase> {
    if o.readName && x.nameStatus.DeviceSkipped? then Some(ReadName)
    else if o.readDescription && x.descriptionStatus.DeviceSkipped? then Some(ReadDescription)
    else if o.readPresentValue && x.presentValueStatus.DeviceSkipped? then Some(ReadPresentValue)
    else None
  }

  function Complete(s: Scan): Scan {
    s.(status := JobComplete, phase := Finish)
  }

  function Fail(s: Scan, status: DeviceReadStatus): Scan {
    s.(status := JobFailed, phase := Failing,
       result := if s.result.countStatus.DeviceSkipped? then s.result.(countStatus := status) else s.result)
  }

  /** Past the last index, or wrapped round to zero, the scan is complete. */
  function AdvanceEntry(s: Scan): Scan {
    if s.currentIndex == 0 || s.currentIndex > s.maxIndex then Complete(s) else s.(phase := ReadEntry)
  }

  function NextEntry(s: Scan): Scan {
    AdvanceEntry(s.(storing := None, currentIndex := Successor(s.currentIndex)))
  }

  function Advance(s: Scan, o: ScanOptions): Scan
    requires s.storing.Some? ==> s.storing.value < |s.objects|
  {
    if s.storing.None? then AdvanceEntry(s)
    else
      match NextRead(o, s.objects[s.storing.value])
      case Some(phase) => s.(phase := phase)
      case None => NextEntry(s)
  }

  function FinishCount(s: Scan, o: ScanOptions, r: Reply): Scan {
    var t := s.(result := s.result.(countStatus := r.status));
    if !r.status.DeviceAck? then Fail(t, r.status)
    else if r.value.None? || !r.value.value.Unsigned? then Fail(t, DeviceError)
    else
      var count := r.value.value.number;
      AdvanceEntry(t.(result := t.result.(count := count, truncated := t.result.truncated || count > o.limit),
                      maxIndex := if count < o.limit then count else o.limit,
                      currentIndex := 1))
  }

  function Store(s: Scan, objectId: ObjectId): Scan {
    s.(result := s.result.(stored := s.result.stored + 1),
       objects := s.objects + [Scanned(objectId)], storing := Some(|s.objects|))
  }

  /** An accepted object is counted, and stored if there is room. */
  function Found(s: Scan, o: ScanOptions, capacity: nat, objectId: ObjectId): Scan {
    var u := s.(result := s.result.(found := s.result.found + 1));
    if u.result.stored >= capacity then NextEntry(u.(result := u.result.(truncated := true)))
    else Advance(Store(u, objectId), o)
  }

  function FinishEntry(s: Scan, o: ScanOptions, capacity: nat, r: Reply): Scan {
    if !r.status.DeviceAck? then Complete(s)
    else
      var t := s.(result := s.result.(inspected := Successor(s.result.inspected)));
      if r.value.None? || !r.value.value.ObjectIdentifier? then NextEntry(t)
      else
        var objectId := r.value.value.objectId;
        if !Accepts(o, objectId) then NextEntry(t)
        else Found(t, o, capacity, objectId)
  }

  /** What one property reply leaves in the record of its object. */
  function Filled(x: ScannedObject, phase: Phase, r: Reply): ScannedObject {
    var kept := r.status.DeviceAck? && r.value.Some?;
    match phase
    case ReadName => x.(nameStatus := r.status, name := if kept then r.value.value else x.name)
    case ReadDescription =>
      x.(descriptionStatus := r.status, description := if kept then r.value.value else x.description)
    case ReadPresentValue =>
      x.(presentValueStatus := r.status, presentValue := if kept then r.value.value else x.presentValue)
    case _ => x
  }

  function FinishProperty(s: Scan, o: ScanOptions, r: Reply): Scan
    requires s.storing.Some? ==> s.storing.value < |s.objects|
  {
    if s.storing.None? then NextEntry(s)
    else
      var k := s.storing.value;
      Advance(s.(objects := s.objects[k := Filled(s.objects[k], s.phase, r)]), o)
  }

  /** One reply, up to the next request or the end. */
  function Next(s: Scan, o: ScanOptions, capacity: nat, r: Reply): Scan
    requires s.storing.Some? ==> s.storing.value < |s.objects|
  {
    if s.phase.ReadCount? then FinishCount(s, o, r)
    else if s.phase.ReadEntry? then FinishEntry(s, o, capacity, r)
    else FinishProperty(s, o, r)
  }

  /** The request a scan waits for. */
  function RequestOf(s: Scan, device: ObjectId): PropertyRequest
    requires s.storing.Some? ==> s.storing.value < |s.objects|
  {
    match s.phase
    case ReadName | ReadDescription | ReadPresentValue =>
      var property := if s.phase.ReadName? then OBJECT_NAME else if s.phase.ReadDescription? then DESCRIPTION
                      else PRESENT_VALUE;
      PropertyRequest(if s.storing.Some? then s.objects[s.storing.value].objectId else device, property, NO_ARRAY_INDEX)
    case ReadEntry => PropertyRequest(device, OBJECT_LIST, s.currentIndex)
    case _ => PropertyRequest(device, OBJECT_LIST, 0)
  }

  // ----- reachable shapes and termination

  /** What every reachable active scan satisfies. */
  predicate Shaped(s: Scan, o: ScanOptions, capacity: nat) {
    s.result.stored == |s.objects| <= capacity &&
    (s.storing.Some? ==> s.storing.value == |s.objects| - 1) &&
    (s.status.JobActive? ==>
       match s.phase
       case ReadCount => s == Start()
       case ReadEntry => s.storing.None? && 1 <= s.currentIndex <= s.maxIndex
       case ReadName | ReadDescription | ReadPresentValue =>
         s.storing.Some? && |s.objects| > 0 && 1 <= s.currentIndex <= s.maxIndex &&
         NextRead(o, s.objects[s.storing.value]) == Some(s.phase)
       case _ => false)
  }

  function Unread(o: ScanOptions, x: ScannedObject): nat {
    (if o.readName && x.nameStatus.DeviceSkipped? then 1 else 0) +
    (if o.readDescription && x.descriptionStatus.DeviceSkipped? then 1 else 0) +
    (if o.readPresentValue && x.presentValueStatus.DeviceSkipped? then 1 else 0)
  }

  /** A bound on the requests still to come; zero only at the end. */
  function Work(s: Scan, o: ScanOptions): (w: nat)
    requires s.storing.Some? ==> s.storing.value < |s.objects|
  {
    if !s.status.JobActive? then 0
    else if s.phase.ReadCount? then 0x4_0000_0000
    else
      var left: nat := if s.currentIndex <= s.maxIndex then s.maxIndex - s.currentIndex else 0;
      if s.storing.None? then 4 * left + 4 else 4 * left + Unread(o, s.objects[s.storing.value])
  }

  lemma AdvanceEntryKeepsShape(s: Scan, o: ScanOptions, capacity: nat)
    requires s.status.JobActive? && s.result.stored == |s.objects| <= capacity && s.storing.None?
    ensures Shaped(AdvanceEntry(s), o, capacity)
    ensures Work(AdvanceEntry(s), o)
            <= if 1 <= s.currentIndex <= s.maxIndex then 4 * (s.maxIndex - s.currentIndex) + 4 else 0
  {}

  lemma NextEntryKeepsShape(s: Scan, o: ScanOptions, capacity: nat)
    requires s.status.JobActive? && s.result.stored == |s.objects| <= capacity && 1 <= s.currentIndex <= s.maxIndex
    ensures Shaped(NextEntry(s), o, capacity)
    ensures Work(NextEntry(s), o) <= 4 * (s.maxIndex - s.currentIndex)
  {
    hide AdvanceEntry, Work, Shaped;
    AdvanceEntryKeepsShape(s.(storing := None, currentIndex := Successor(s.currentIndex)), o, capacity);
  }

  lemma AdvanceKeepsShape(s: Scan, o: ScanOptions, capacity: nat)
    requires s.status.JobActive? && s.result.stored == |s.objects| <= capacity && |s.objects| > 0
    requires s.storing == Some(|s.objects| - 1) && 1 <= s.currentIndex <= s.maxIndex
    ensures Shaped(Advance(s, o), o, capacity)
    ensures Work(Advance(s, o), o) <= 4 * (s.maxIndex - s.currentIndex) + Unread(o, s.objects[|s.objects| - 1])
  {
    NextEntryKeepsShape(s, o, capacity);
  }

  lemma FilledIsRead(o: ScanOptions, x: ScannedObject, r: Reply)
    requires Finished(r) && NextRead(o, x).Some?
    ensures Unread(o, Filled(x, NextRead(o, x).value, r)) == Unread(o, x) - 1
  {}

  /** Every reply brings the scan nearer its end, because none is reported as skipped. */
  lemma NextDecreases(s: Scan, o: ScanOptions, capacity: nat, r: Reply)
    requires Shaped(s, o, capacity) && s.status.JobActive? && Finished(r)
    ensures Shaped(Next(s, o, capacity, r), o, capacity)
    ensures Work(Next(s, o, capacity, r), o) < Work(s, o)
  {
    hide AdvanceEntry, NextEntry, Advance, Unread, Filled, NextRead;
    if s.phase.ReadCount? {
      var t := s.(result := s.result.(countStatus := r.status));
      if r.status.DeviceAck? && r.value.Some? && r.value.value.Unsigned? {
        var count := r.value.value.number;
        var u := t.(result := t.result.(count := count, truncated := t.result.truncated || count > o.limit),
                    maxIndex := if count < o.limit then count else o.limit, currentIndex := 1);
        AdvanceEntryKeepsShape(u, o, capacity);
      }
    } else if s.phase.ReadEntry? {
      if r.status.DeviceAck? {
        var t := s.(result := s.result.(inspected := Successor(s.result.inspected)));
        NextEntryKeepsShape(t, o, capacity);
        if r.value.Some? && r.value.value.ObjectIdentifier? {
          var u := t.(result := t.result.(found := t.result.found + 1));
          NextEntryKeepsShape(u.(result := u.result.(truncated := true)), o, capacity);
          if u.result.stored < capacity {
            var v := u.(result := u.result.(stored := u.result.stored + 1),
                        objects := u.objects + [Scanned(r.value.value.objectId)], storing := Some(|u.objects|));
            AdvanceKeepsShape(v, o, capacity);
            UnreadBound(o, v.objects[|v.objects| - 1]);
          }
        }
      }
    } else {
      var k := s.storing.value;
      FilledIsRead(o, s.objects[k], r);
      AdvanceKeepsShape(s.(objects := s.objects[k := Filled(s.objects[k], s.phase, r)]), o, capacity);
    }
  }

  lemma UnreadBound(o: ScanOptions, x: ScannedObject)
    ensures Unread(o, x) <= 3
  {}
}
