/** What whole runs of the object-list scan compute, and how many requests they take. */
module ScanRuns {
  import opened BacnetTypes
  import opened ReadStatus
  import opened ScanMachine

  /** A finished request. */
  datatype Exchange = Exchange(request: PropertyRequest, reply: Reply)

  type Log = seq<Exchange>

  /** The scan after these exchanges. */
  function Replay(log: Log, o: ScanOptions, capacity: nat): (s: Scan)
    ensures Shaped(s, o, capacity)
  {
    if log == [] then Start()
    else
      var before := Replay(log[..|log| - 1], o, capacity);
      var reply := log[|log| - 1].reply;
      if before.status.JobActive? && Finished(reply) then
        NextDecreases(before, o, capacity, reply);
        Next(before, o, capacity, reply)
      else before
  }

  /** Every exchange answers the request the scan was waiting for. */
  predicate Issued(log: Log, o: ScanOptions, capacity: nat, device: ObjectId) {
    log == [] ||
    (var before := log[..|log| - 1];
     var s := Replay(before, o, capacity);
     var x := log[|log| - 1];
     Issued(before, o, capacity, device) &&
     s.status.JobActive? && Finished(x.reply) && x.request == RequestOf(s, device))
  }

  lemma ReplayStep(log: Log, x: Exchange, o: ScanOptions, capacity: nat, device: ObjectId)
    requires Issued(log + [x], o, capacity, device)
    ensures Issued(log, o, capacity, device)
    ensures var s := Replay(log, o, capacity);
            s.status.JobActive? && Finished(x.reply) && x.request == RequestOf(s, device) &&
            Replay(log + [x], o, capacity) == Next(s, o, capacity, x.reply)
  {
    assert (log + [x])[..|log|] == log;
  }

  // ----- the specification: filter and take

  predicate Acked(r: Reply) {
    r.status.DeviceAck?
  }

  predicate AllAcked(replies: seq<Reply>) {
    forall i :: 0 <= i < |replies| ==> Acked(replies[i])
  }

  /** The replies before the first failure. */
  function AckedPrefix(replies: seq<Reply>): (p: seq<Reply>)
    ensures AllAcked(p) && p <= replies
  {
    if replies == [] || !Acked(replies[0]) then [] else [replies[0]] + AckedPrefix(replies[1..])
  }

  /** The object a list entry adds to the scan, if any. */
  function Wanted(o: ScanOptions, r: Reply): Option<ObjectId> {
    if Acked(r) && r.value.Some? && r.value.value.ObjectIdentifier? &&
       (o.types == [] || r.value.value.objectId.kind in o.types)
    then Some(r.value.value.objectId) else None
  }

  function WantedIds(o: ScanOptions, replies: seq<Reply>): seq<ObjectId> {
    if replies == [] then []
    else
      var before, last := WantedIds(o, replies[..|replies| - 1]), Wanted(o, replies[|replies| - 1]);
      if last.Some? then before + [last.value] else before
  }

  function FirstOf<T>(s: seq<T>, n: nat): seq<T> {
    if |s| <= n then s else s[..n]
  }

  /** The summary a scan owes, from the count and the replies for the entries up to the limit. */
  function Summary(o: ScanOptions, capacity: nat, count: uint32, answers: seq<Reply>): ScanResult {
    var inspected := AckedPrefix(answers);
    var found := |WantedIds(o, inspected)|;
    var stored := if found < capacity then found else capacity;
    ScanResult(DeviceAck, count, |inspected| % 0x1_0000_0000, found, stored, count > o.limit || found > stored)
  }

  function StoredIds(objects: seq<ScannedObject>): (ids: seq<ObjectId>)
    ensures |ids| == |objects|
    ensures forall i :: 0 <= i < |ids| ==> ids[i] == objects[i].objectId
  {
    seq(|objects|, i requires 0 <= i < |objects| => objects[i].objectId)
  }

  predicate IsEntry(x: Exchange) {
    x.request.property == OBJECT_LIST && x.request.arrayIndex != 0
  }

  /** The exchanges about list entries. */
  function Entries(log: Log): Log {
    if log == [] then []
    else
      var before, x := Entries(log[..|log| - 1]), log[|log| - 1];
      if IsEntry(x) then before + [x] else before
  }

  function Replies(log: Log): (r: seq<Reply>)
    ensures |r| == |log|
    ensures forall i :: 0 <= i < |log| ==> r[i] == log[i].reply
  {
    seq(|log|, i requires 0 <= i < |log| => log[i].reply)
  }

  function Limited(o: ScanOptions, count: uint32): uint32 {
    if count < o.limit then count else o.limit
  }

  lemma PrefixOfAcked(replies: seq<Reply>)
    requires AllAcked(replies)
    ensures AckedPrefix(replies) == replies
  {
    if replies != [] {
      PrefixOfAcked(replies[1..]);
    }
  }

  lemma {:induction false} PrefixStops(replies: seq<Reply>, tail: seq<Reply>)
    requires AllAcked(replies) && (tail == [] || !Acked(tail[0]))
    ensures AckedPrefix(replies + tail) == replies
  {
    if replies == [] {
      assert replies + tail == tail;
    } else {
      assert (replies + tail)[1..] == replies[1..] + tail;
      PrefixStops(replies[1..], tail);
    }
  }

  lemma WantedStep(o: ScanOptions, replies: seq<Reply>, r: Reply)
    ensures WantedIds(o, replies + [r])
            == if Wanted(o, r).Some? then WantedIds(o, replies) + [Wanted(o, r).value] else WantedIds(o, replies)
  {
    assert (replies + [r])[..|replies|] == replies;
  }

  // ----- the invariant that ties the machine to the specification

  /** Where a scan stands after the replies for the first entries. */
  ghost predicate Stands(s: Scan, o: ScanOptions, capacity: nat, count: uint32, replies: seq<Reply>) {
    var inspected := AckedPrefix(replies);
    var ids := WantedIds(o, inspected);
    s.maxIndex == Limited(o, count) && s.result.count == count && s.result.countStatus.DeviceAck? &&
    |replies| <= s.maxIndex &&
    s.result.inspected == |inspected| && s.result.found == |ids| &&
    StoredIds(s.objects) == FirstOf(ids, capacity) && s.result.stored == |s.objects| &&
    (s.result.truncated <==> count > o.limit || |ids| > capacity) &&
    (s.status.JobActive? ==>
       AllAcked(replies) && s.currentIndex == |replies| + (if s.phase.ReadEntry? then 1 else 0)) &&
    (s.status.JobComplete? ==> !AllAcked(replies) || |replies| == s.maxIndex) &&
    (s.status.JobActive? || s.status.JobComplete?)
  }

  function CountOf(r: Reply): Option<uint32> {
    if Acked(r) && r.value.Some? && r.value.value.Unsigned? then Some(r.value.value.number) else None
  }

  lemma CountStands(o: ScanOptions, capacity: nat, r: Reply)
    requires CountOf(r).Some?
    ensures Stands(Next(Start(), o, capacity, r), o, capacity, CountOf(r).value, [])
  {
    assert StoredIds([]) == FirstOf([], capacity);
  }

  /** Moving on to the next entry changes nothing but where the scan stands. */
  lemma NextEntryMoves(s: Scan)
    requires s.status.JobActive? && 1 <= s.currentIndex <= s.maxIndex
    ensures var t := NextEntry(s);
            t.result == s.result && t.objects == s.objects && t.maxIndex == s.maxIndex && t.storing.None? &&
            (if s.currentIndex < s.maxIndex
             then t.status.JobActive? && t.phase.ReadEntry? && t.currentIndex == s.currentIndex + 1
             else t.status.JobComplete?)
  {}

  lemma AdvanceMoves(s: Scan, o: ScanOptions)
    requires s.status.JobActive? && 1 <= s.currentIndex <= s.maxIndex
    requires s.storing.Some? && s.storing.value < |s.objects|
    ensures var t := Advance(s, o);
            t.result == s.result && t.objects == s.objects && t.maxIndex == s.maxIndex &&
            (if t.status.JobComplete? then s.currentIndex == s.maxIndex
             else t.status.JobActive? && t.currentIndex == s.currentIndex + if t.phase.ReadEntry? then 1 else 0)
  {
    NextEntryMoves(s);
  }

  lemma EntryStands(s: Scan, o: ScanOptions, capacity: nat, count: uint32, replies: seq<Reply>, r: Reply)
    requires Shaped(s, o, capacity) && s.status.JobActive? && s.phase.ReadEntry?
    requires Stands(s, o, capacity, count, replies)
    ensures Stands(Next(s, o, capacity, r), o, capacity, count, replies + [r])
  {
    hide NextEntry, Advance, AckedPrefix, WantedIds;
    PrefixOfAcked(replies);
    if Acked(r) {
      PrefixOfAcked(replies + [r]);
      WantedStep(o, replies, r);
      var t := s.(result := s.result.(inspected := Successor(s.result.inspected)));
      NextEntryMoves(t);
      if Wanted(o, r).Some? {
        var u := t.(result := t.result.(found := t.result.found + 1));
        if u.result.stored >= capacity {
          NextEntryMoves(u.(result := u.result.(truncated := true)));
        } else {
          var v := u.(result := u.result.(stored := u.result.stored + 1),
                      objects := u.objects + [Scanned(r.value.value.objectId)], storing := Some(|u.objects|));
          AdvanceMoves(v, o);
        }
      }
    } else {
      PrefixStops(replies, [r]);
      assert !Acked((replies + [r])[|replies|]);
    }
  }

  lemma PropertyStands(s: Scan, o: ScanOptions, capacity: nat, count: uint32, replies: seq<Reply>, r: Reply)
    requires Shaped(s, o, capacity) && s.status.JobActive? && !s.phase.ReadEntry? && !s.phase.ReadCount?
    requires Stands(s, o, capacity, count, replies)
    ensures Stands(Next(s, o, capacity, r), o, capacity, count, replies)
  {
    hide NextEntry, Advance, AckedPrefix, WantedIds;
    var k := s.storing.value;
    var t := s.(objects := s.objects[k := Filled(s.objects[k], s.phase, r)]);
    assert StoredIds(t.objects) == StoredIds(s.objects);
    AdvanceMoves(t, o);
  }

  /** The list entries are asked for in order, one by one, from index 1. */
  predicate InOrder(entries: Log, device: ObjectId) {
    forall i :: 0 <= i < |entries| ==>
      var r := entries[i].request;
      r.objectId == device && r.property == OBJECT_LIST && r.arrayIndex == i + 1
  }

  lemma {:induction false} RunStands(log: Log, o: ScanOptions, capacity: nat, device: ObjectId)
    requires log != [] && Issued(log, o, capacity, device)
    ensures !IsEntry(log[0]) && log[0].request == PropertyRequest(device, OBJECT_LIST, 0)
    ensures var s := Replay(log, o, capacity);
            if CountOf(log[0].reply).Some?
            then Stands(s, o, capacity, CountOf(log[0].reply).value, Replies(Entries(log))) &&
                 InOrder(Entries(log), device)
            else s.status.JobFailed? && |log| == 1
    decreases |log|
  {
    hide Stands, Next;
    var before, x := log[..|log| - 1], log[|log| - 1];
    assert log == before + [x];
    ReplayStep(before, x, o, capacity, device);
    var s := Replay(before, o, capacity);
    if before == [] {
      FirstExchange(x, o, capacity);
      assert Replies(Entries(log)) == [];
    } else {
      RunStands(before, o, capacity, device);
      assert log[0] == before[0];
      var count := CountOf(log[0].reply).value;
      NotCounting(before, o, capacity);
      if s.phase.ReadEntry? {
        EntryStands(s, o, capacity, count, Replies(Entries(before)), x.reply);
        assert Replies(Entries(before) + [x]) == Replies(Entries(before)) + [x.reply];
        IndexStands(s, o, capacity, count, Replies(Entries(before)));
      } else {
        PropertyStands(s, o, capacity, count, Replies(Entries(before)), x.reply);
      }
    }
  }

  lemma FirstExchange(x: Exchange, o: ScanOptions, capacity: nat)
    ensures if CountOf(x.reply).Some?
            then Stands(Next(Start(), o, capacity, x.reply), o, capacity, CountOf(x.reply).value, [])
            else Next(Start(), o, capacity, x.reply).status.JobFailed?
  {
    if CountOf(x.reply).Some? {
      CountStands(o, capacity, x.reply);
    }
  }

  lemma IndexStands(s: Scan, o: ScanOptions, capacity: nat, count: uint32, replies: seq<Reply>)
    requires Stands(s, o, capacity, count, replies) && s.status.JobActive? && s.phase.ReadEntry?
    ensures s.currentIndex == |replies| + 1
  {}

  /** Only the very first request is for the count. */
  lemma NotCounting(log: Log, o: ScanOptions, capacity: nat)
    requires log != [] && Finished(log[|log| - 1].reply)
    ensures Replay(log, o, capacity).status.JobActive? ==> !Replay(log, o, capacity).phase.ReadCount?
  {
    var before := Replay(log[..|log| - 1], o, capacity);
    if before.status.JobActive? {
      NextLeavesCount(before, o, capacity, log[|log| - 1].reply);
    }
  }

  lemma NextLeavesCount(s: Scan, o: ScanOptions, capacity: nat, r: Reply)
    requires Shaped(s, o, capacity) && s.status.JobActive?
    ensures Next(s, o, capacity, r).status.JobActive? ==> !Next(s, o, capacity, r).phase.ReadCount?
  {}

  /** Every list-entry exchange carries this device's answer for its index. */
  predicate FromDevice(log: Log, answers: seq<Reply>) {
    forall i :: 0 <= i < |log| && IsEntry(log[i]) && log[i].request.arrayIndex - 1 < |answers| ==>
      log[i].reply == answers[log[i].request.arrayIndex - 1]
  }

  lemma {:induction false} EntriesFromDevice(log: Log, answers: seq<Reply>)
    requires FromDevice(log, answers)
    ensures FromDevice(Entries(log), answers)
    ensures forall i :: 0 <= i < |Entries(log)| ==> IsEntry(Entries(log)[i])
  {
    if log != [] {
      var before, x := log[..|log| - 1], log[|log| - 1];
      assert log == before + [x];
      assert FromDevice(before, answers) by {
        assert forall i :: 0 <= i < |before| ==> before[i] == log[i];
      }
      EntriesFromDevice(before, answers);
      assert IsEntry(x) && x.request.arrayIndex - 1 < |answers| ==> x.reply == answers[x.request.arrayIndex - 1];
    }
  }

  lemma {:induction false} SamePrefix(answers: seq<Reply>, n: nat)
    requires n <= |answers| && (n == |answers| || !AllAcked(answers[..n]))
    ensures AckedPrefix(answers[..n]) == AckedPrefix(answers)
  {
    if n == |answers| {
      assert answers[..n] == answers;
    } else if Acked(answers[0]) {
      assert answers[..n][1..] == answers[1..][..n - 1];
      assert answers[..n][0] == answers[0];
      var i :| 0 <= i < n && !Acked(answers[..n][i]);
      assert answers[..n][i] == answers[1..][..n - 1][i - 1];
      SamePrefix(answers[1..], n - 1);
    } else {
      assert answers[..n][0] == answers[0];
    }
  }

  /** The replies for the entries are the first of the device's answers. */
  lemma RepliesAreAnswers(log: Log, device: ObjectId, answers: seq<Reply>)
    requires FromDevice(log, answers) && InOrder(Entries(log), device) && |Entries(log)| <= |answers|
    ensures Replies(Entries(log)) == answers[..|Entries(log)|]
  {
    hide Entries;
    EntriesFromDevice(log, answers);
    var entries := Entries(log);
    forall i | 0 <= i < |entries| ensures Replies(entries)[i] == answers[i] {
      assert IsEntry(entries[i]) && entries[i].request.arrayIndex == i + 1;
    }
  }

  /**
   A scan that completes reports exactly the specified summary of the device's list, and has stored
   the first `capacity` wanted objects of the inspected prefix, in list order, whatever the device
   answered and however the answers were spread over time.
   */
  lemma CompleteScanMeetsSpecification(
    log: Log, o: ScanOptions, capacity: nat, device: ObjectId, answers: seq<Reply>)
    requires log != [] && Issued(log, o, capacity, device) && Replay(log, o, capacity).status.JobComplete?
    requires CountOf(log[0].reply).Some? ==> |answers| == Limited(o, CountOf(log[0].reply).value)
    requires FromDevice(log, answers)
    ensures CountOf(log[0].reply).Some?
    ensures var s := Replay(log, o, capacity);
            s.result == Summary(o, capacity, CountOf(log[0].reply).value, answers) &&
            StoredIds(s.objects) == FirstOf(WantedIds(o, AckedPrefix(answers)), capacity)
  {
    hide Issued, Replay, AckedPrefix, WantedIds, Entries, FromDevice, InOrder;
    RunStands(log, o, capacity, device);
    RepliesAreAnswers(log, device, answers);
    SamePrefix(answers, |Entries(log)|);
  }

  // ----- the records of the stored objects

  /** A reply sets the status of its property, and the value if the device acknowledged one. */
  function FilledBy(x: ScannedObject, property: uint32, r: Reply): ScannedObject {
    if property == OBJECT_NAME then
      x.(nameStatus := r.status, name := if Acked(r) && r.value.Some? then r.value.value else x.name)
    else if property == DESCRIPTION then
      x.(descriptionStatus := r.status,
         description := if Acked(r) && r.value.Some? then r.value.value else x.description)
    else if property == PRESENT_VALUE then
      x.(presentValueStatus := r.status,
         presentValue := if Acked(r) && r.value.Some? then r.value.value else x.presentValue)
    else x
  }

  /** The records the exchanges amount to: an accepted entry opens one, a property reply fills the last. */
  function Records(log: Log, o: ScanOptions, capacity: nat): seq<ScannedObject> {
    if log == [] then []
    else
      var before, x := Records(log[..|log| - 1], o, capacity), log[|log| - 1];
      if IsEntry(x) then
        if Wanted(o, x.reply).Some? && |before| < capacity then before + [Scanned(Wanted(o, x.reply).value)] else before
      else if x.request.property == OBJECT_LIST || before == [] then before
      else before[|before| - 1 := FilledBy(before[|before| - 1], x.request.property, x.reply)]
  }

  lemma NextRecords(s: Scan, o: ScanOptions, capacity: nat, device: ObjectId, r: Reply)
    requires Shaped(s, o, capacity) && s.status.JobActive?
    ensures var x := Exchange(RequestOf(s, device), r);
            Next(s, o, capacity, r).objects ==
            if IsEntry(x) then
              if Wanted(o, r).Some? && |s.objects| < capacity
              then s.objects + [Scanned(Wanted(o, r).value)] else s.objects
            else if x.request.property == OBJECT_LIST || s.objects == [] then s.objects
            else s.objects[|s.objects| - 1 := FilledBy(s.objects[|s.objects| - 1], x.request.property, r)]
    ensures RequestOf(s, device).property != OBJECT_LIST ==>
              s.objects != [] && RequestOf(s, device).objectId == s.objects[|s.objects| - 1].objectId
  {}

  /** The stored records are what the exchanges amount to, and a property is asked of the newest one. */
  lemma {:induction false} StoredAreRecords(log: Log, o: ScanOptions, capacity: nat, device: ObjectId)
    requires Issued(log, o, capacity, device)
    ensures Replay(log, o, capacity).objects == Records(log, o, capacity)
    decreases |log|
  {
    hide Next, RequestOf, FilledBy, Wanted;
    if log != [] {
      var before, x := log[..|log| - 1], log[|log| - 1];
      assert log == before + [x];
      ReplayStep(before, x, o, capacity, device);
      StoredAreRecords(before, o, capacity, device);
      NextRecords(Replay(before, o, capacity), o, capacity, device, x.reply);
    }
  }

  // ----- which properties a scan reads

  /** Of this object exactly the properties asked for have been read. */
  predicate FullyRead(o: ScanOptions, x: ScannedObject) {
    (x.nameStatus.DeviceSkipped? <==> !o.readName) &&
    (x.descriptionStatus.DeviceSkipped? <==> !o.readDescription) &&
    (x.presentValueStatus.DeviceSkipped? <==> !o.readPresentValue)
  }

  /** Nothing else has. */
  predicate ReadAsAsked(o: ScanOptions, x: ScannedObject) {
    (!o.readName ==> x.nameStatus.DeviceSkipped?) &&
    (!o.readDescription ==> x.descriptionStatus.DeviceSkipped?) &&
    (!o.readPresentValue ==> x.presentValueStatus.DeviceSkipped?)
  }

  /** All objects but the one whose properties are being read are fully read. */
  predicate ReadSoFar(s: Scan, o: ScanOptions) {
    (forall k :: 0 <= k < |s.objects| ==>
       ReadAsAsked(o, s.objects[k]) && (s.storing != Some(k) ==> FullyRead(o, s.objects[k]))) &&
    (s.status.JobComplete? ==> s.storing.None?)
  }

  lemma AdvanceReads(s: Scan, o: ScanOptions)
    requires ReadSoFar(s, o) && s.status.JobActive? && (s.storing.Some? ==> s.storing.value < |s.objects|)
    ensures ReadSoFar(Advance(s, o), o)
  {
    if s.storing.Some? && NextRead(o, s.objects[s.storing.value]).None? {
      assert FullyRead(o, s.objects[s.storing.value]);
    }
  }

  lemma NextReads(s: Scan, o: ScanOptions, capacity: nat, r: Reply)
    requires Shaped(s, o, capacity) && s.status.JobActive? && ReadSoFar(s, o) && Finished(r)
    ensures ReadSoFar(Next(s, o, capacity, r), o)
  {
    hide NextRead, FullyRead, ReadAsAsked;
    if s.phase.ReadCount? {
    } else if s.phase.ReadEntry? {
      if Wanted(o, r).Some? && s.result.stored < capacity {
        EntryReads(s, o, r);
      }
    } else {
      PropertyReads(s, o, capacity, r);
    }
  }

  lemma EntryReads(s: Scan, o: ScanOptions, r: Reply)
    requires s.status.JobActive? && ReadSoFar(s, o) && s.storing.None? && Wanted(o, r).Some?
    requires s.phase.ReadEntry?
    ensures var t := s.(result := s.result.(inspected := Successor(s.result.inspected)));
            var u := t.(result := t.result.(found := t.result.found + 1));
            ReadSoFar(Advance(Store(u, Wanted(o, r).value), o), o)
  {
    hide Advance;
    var t := s.(result := s.result.(inspected := Successor(s.result.inspected)));
    var u := t.(result := t.result.(found := t.result.found + 1));
    AdvanceReads(Store(u, Wanted(o, r).value), o);
  }

  lemma PropertyReads(s: Scan, o: ScanOptions, capacity: nat, r: Reply)
    requires Shaped(s, o, capacity) && s.status.JobActive? && ReadSoFar(s, o) && s.storing.Some? && Finished(r)
    requires s.phase.ReadName? || s.phase.ReadDescription? || s.phase.ReadPresentValue?
    ensures ReadSoFar(FinishProperty(s, o, r), o)
  {
    hide Advance;
    var k := s.storing.value;
    AdvanceReads(s.(objects := s.objects[k := Filled(s.objects[k], s.phase, r)]), o);
  }

  /** A scan that completes has read of every stored object exactly the properties it was asked to. */
  lemma {:induction false} RunReads(log: Log, o: ScanOptions, capacity: nat, device: ObjectId)
    requires Issued(log, o, capacity, device)
    ensures ReadSoFar(Replay(log, o, capacity), o)
    ensures Replay(log, o, capacity).status.JobComplete? ==>
              forall x <- Replay(log, o, capacity).objects :: FullyRead(o, x)
    decreases |log|
  {
    hide Next, FullyRead, ReadAsAsked;
    if log != [] {
      var before, x := log[..|log| - 1], log[|log| - 1];
      assert log == before + [x];
      ReplayStep(before, x, o, capacity, device);
      RunReads(before, o, capacity, device);
      NextReads(Replay(before, o, capacity), o, capacity, x.reply);
    }
  }

  // ----- how many requests a scan takes

  function EnabledReads(o: ScanOptions): nat {
    (if o.readName then 1 else 0) + (if o.readDescription then 1 else 0) + (if o.readPresentValue then 1 else 0)
  }

  /** The properties read so far for these objects. */
  function ReadsDone(objects: seq<ScannedObject>, o: ScanOptions): nat {
    if objects == [] then 0
    else
      UnreadIsEnabled(o, objects[|objects| - 1]);
      ReadsDone(objects[..|objects| - 1], o) + (EnabledReads(o) - Unread(o, objects[|objects| - 1]))
  }

  lemma UnreadIsEnabled(o: ScanOptions, x: ScannedObject)
    ensures Unread(o, x) <= EnabledReads(o)
  {}

  lemma {:induction false} ReadsDoneBound(objects: seq<ScannedObject>, o: ScanOptions)
    ensures ReadsDone(objects, o) <= EnabledReads(o) * |objects|
  {
    if objects != [] {
      ReadsDoneBound(objects[..|objects| - 1], o);
    }
  }

  lemma NextCounts(s: Scan, o: ScanOptions, capacity: nat, device: ObjectId, r: Reply)
    requires Shaped(s, o, capacity) && s.status.JobActive? && Finished(r)
    ensures ReadsDone(Next(s, o, capacity, r).objects, o)
            == ReadsDone(s.objects, o) + (if RequestOf(s, device).property == OBJECT_LIST then 0 else 1)
  {
    hide Unread, Filled, Wanted, FilledBy, Next, EnabledReads;
    var t := Next(s, o, capacity, r);
    NextRecords(s, o, capacity, device, r);
    if |t.objects| > |s.objects| {
      assert t.objects[..|t.objects| - 1] == s.objects;
      FreshIsUnread(o, t.objects[|s.objects|].objectId);
    } else if RequestOf(s, device).property != OBJECT_LIST {
      var last := |s.objects| - 1;
      assert t.objects[..last] == s.objects[..last];
      FilledCounts(s, o, capacity, device, r);
    }
  }

  lemma FreshIsUnread(o: ScanOptions, objectId: ObjectId)
    ensures Unread(o, Scanned(objectId)) == EnabledReads(o)
  {}

  lemma FilledCounts(s: Scan, o: ScanOptions, capacity: nat, device: ObjectId, r: Reply)
    requires Shaped(s, o, capacity) && s.status.JobActive? && Finished(r)
    requires RequestOf(s, device).property != OBJECT_LIST
    ensures s.objects != []
    ensures var x := s.objects[|s.objects| - 1];
            Unread(o, FilledBy(x, RequestOf(s, device).property, r)) == Unread(o, x) - 1
  {
    FilledIsRead(o, s.objects[|s.objects| - 1], r);
  }

  lemma {:induction false} RequestsMade(log: Log, o: ScanOptions, capacity: nat, device: ObjectId)
    requires log != [] && Issued(log, o, capacity, device)
    ensures |log| == 1 + |Entries(log)| + ReadsDone(Replay(log, o, capacity).objects, o)
    decreases |log|
  {
    hide Next, RequestOf;
    var before, x := log[..|log| - 1], log[|log| - 1];
    assert log == before + [x];
    ReplayStep(before, x, o, capacity, device);
    NextCounts(Replay(before, o, capacity), o, capacity, device, x.reply);
    if before == [] {
      RunStands(log, o, capacity, device);
    } else {
      RequestsMade(before, o, capacity, device);
      NotCounting(before, o, capacity);
      RequestKinds(Replay(before, o, capacity), o, capacity, device);
    }
  }

  lemma RequestKinds(s: Scan, o: ScanOptions, capacity: nat, device: ObjectId)
    requires Shaped(s, o, capacity) && s.status.JobActive? && !s.phase.ReadCount?
    ensures RequestOf(s, device).property == OBJECT_LIST ==> RequestOf(s, device).arrayIndex != 0
  {}

  /** The requests sent so far: the finished ones and the one an active scan waits for. */
  function RequestsSent(log: Log, o: ScanOptions, capacity: nat): nat {
    |log| + if Replay(log, o, capacity).status.JobActive? then 1 else 0
  }

  /**
   A scan never sends more than one request for the count, one for each entry up to the limit, and
   one for each enabled property of each stored object.
   */
  lemma RequestBound(log: Log, o: ScanOptions, capacity: nat, device: ObjectId)
    requires log != [] && Issued(log, o, capacity, device)
    ensures var s := Replay(log, o, capacity);
            RequestsSent(log, o, capacity)
            <= 1 + (if CountOf(log[0].reply).Some? then Limited(o, CountOf(log[0].reply).value) else 0)
               + EnabledReads(o) * |s.objects|
  {
    hide Issued, Replay, EnabledReads, ReadsDone;
    RunStands(log, o, capacity, device);
    RequestsMade(log, o, capacity, device);
    var s := Replay(log, o, capacity);
    ReadsDoneBound(s.objects, o);
    if s.status.JobActive? {
      NotCountingIssued(log, o, capacity, device);
      ActiveHasRoom(s, o, capacity, CountOf(log[0].reply).value, Replies(Entries(log)));
    } else if CountOf(log[0].reply).None? {
      assert Entries(log) == Entries(log[..0]) == [];
    }
  }

  lemma NotCountingIssued(log: Log, o: ScanOptions, capacity: nat, device: ObjectId)
    requires log != [] && Issued(log, o, capacity, device)
    ensures Replay(log, o, capacity).status.JobActive? ==> !Replay(log, o, capacity).phase.ReadCount?
  {
    NotCounting(log, o, capacity);
  }

  /** An active scan still has an entry to ask for, or a property of the newest object. */
  lemma ActiveHasRoom(s: Scan, o: ScanOptions, capacity: nat, count: uint32, replies: seq<Reply>)
    requires Shaped(s, o, capacity) && s.status.JobActive? && !s.phase.ReadCount?
    requires Stands(s, o, capacity, count, replies)
    ensures |replies| + 1 <= Limited(o, count) ||
            (|replies| <= Limited(o, count) && ReadsDone(s.objects, o) + 1 <= EnabledReads(o) * |s.objects|)
  {
    hide AckedPrefix, WantedIds, StoredIds, FirstOf, EnabledReads, Unread;
    if !s.phase.ReadEntry? {
      NewestHasRoom(s, o, capacity);
    }
  }

  lemma NewestHasRoom(s: Scan, o: ScanOptions, capacity: nat)
    requires Shaped(s, o, capacity) && s.status.JobActive? && !s.phase.ReadCount? && !s.phase.ReadEntry?
    ensures ReadsDone(s.objects, o) + 1 <= EnabledReads(o) * |s.objects|
  {
    var last := |s.objects| - 1;
    assert Unread(o, s.objects[last]) >= 1;
    hide EnabledReads, Unread, Shaped;
    ReadsDoneBound(s.objects[..last], o);
    TimesSuccessor(EnabledReads(o), last);
  }

  lemma TimesSuccessor(a: nat, b: nat)
    ensures a * b + a == a * (b + 1)
  {}

  /** A scan without end would exhaust its work: no run is longer than what the count leaves to do. */
  lemma {:induction false} RunsEnd(log: Log, o: ScanOptions, capacity: nat, device: ObjectId)
    requires Issued(log, o, capacity, device)
    ensures |log| + Work(Replay(log, o, capacity), o) <= Work(Start(), o)
    decreases |log|
  {
    hide Next, Work;
    if log != [] {
      var before, x := log[..|log| - 1], log[|log| - 1];
      assert log == before + [x];
      ReplayStep(before, x, o, capacity, device);
      RunsEnd(before, o, capacity, device);
      NextDecreases(Replay(before, o, capacity), o, capacity, x.reply);
    }
  }

  /** Why no reply may be reported as skipped: the scan would ask the same again. */
  lemma SkippedReplyRepeats(s: Scan, o: ScanOptions, capacity: nat)
    requires Shaped(s, o, capacity) && s.status.JobActive? && !s.phase.ReadCount? && !s.phase.ReadEntry?
    ensures Next(s, o, capacity, Reply(DeviceSkipped, None)) == s
  {
    var k := s.storing.value;
    assert Filled(s.objects[k], s.phase, Reply(DeviceSkipped, None)) == s.objects[k];
    assert s.objects[k := s.objects[k]] == s.objects;
  }

  /**
   A scan fails exactly when its first reply brings no count, and then after that one exchange; it
   reports the count as acknowledged exactly when what was acknowledged is no number.
   */
  lemma FailedCountStatusIff(log: Log, o: ScanOptions, capacity: nat, device: ObjectId)
    requires Issued(log, o, capacity, device)
    ensures var s := Replay(log, o, capacity);
            (s.status.JobFailed? <==> log != [] && CountOf(log[0].reply).None?) &&
            (s.status.JobFailed? ==>
               |log| == 1 && s.result.countStatus == log[0].reply.status &&
               (s.result.countStatus.DeviceAck? <==> Acked(log[0].reply)))
  {
    hide Stands, InOrder;
    if log != [] {
      RunStands(log, o, capacity, device);
      if CountOf(log[0].reply).None? {
        ReplayStep([], log[0], o, capacity, device);
        assert [] + [log[0]] == log;
        FailedFirst(o, capacity, log[0].reply);
      } else {
        StandsOrDone(Replay(log, o, capacity), o, capacity, CountOf(log[0].reply).value, Replies(Entries(log)));
      }
    }
  }

  lemma FailedFirst(o: ScanOptions, capacity: nat, r: Reply)
    requires CountOf(r).None? && Finished(r)
    ensures Next(Start(), o, capacity, r).result.countStatus == r.status
  {}

  lemma StandsOrDone(s: Scan, o: ScanOptions, capacity: nat, count: uint32, replies: seq<Reply>)
    requires Stands(s, o, capacity, count, replies)
    ensures s.status.JobActive? || s.status.JobComplete?
  {}
}
