/** The client's cache of property reads: a ring of entries, one for each of the last keys created. */
module PropertyCache {
  import opened BacnetTypes
  import opened ApplicationValue
  import opened ReadStatus

  datatype CachedProperty = CachedProperty(
    request: PropertyRequest, status: PropertyReadStatus, value: WireValue, updatedAt: uint32,
    lastAttempt: uint32, lastSuccess: uint32, errorClass: uint32, errorCode: uint32, hasValue: bool)

  /** One finished read: how it ended, and the value it brought, if any. */
  datatype Attempt = Attempt(
    request: PropertyRequest, status: PropertyReadStatus, value: Option<WireValue>, at: uint32,
    errorClass: uint32, errorCode: uint32)

  type Queue = seq<CachedProperty>

  function Blank(request: PropertyRequest): CachedProperty {
    CachedProperty(request, Skipped, Empty, 0, 0, 0, 0, 0, false)
  }

  predicate Succeeds(a: Attempt) {
    a.status.Ack? && a.value.Some?
  }

  /** A success replaces the value; a failure may only fill in for a value never read. */
  function Record(e: CachedProperty, a: Attempt): CachedProperty {
    var noted := e.(status := a.status, lastAttempt := a.at, errorClass := a.errorClass, errorCode := a.errorCode);
    if Succeeds(a) then noted.(value := a.value.value, hasValue := true, lastSuccess := a.at, updatedAt := a.at)
    else if !e.hasValue && a.value.Some? then noted.(value := a.value.value)
    else noted
  }

  // ----- the queue: oldest creation first

  function IndexOf(q: Queue, request: PropertyRequest): (i: nat)
    ensures i <= |q|
    ensures i < |q| ==> q[i].request == request
    ensures forall j :: 0 <= j < i ==> q[j].request != request
  {
    if q == [] || q[0].request == request then 0 else 1 + IndexOf(q[1..], request)
  }

  function Make(q: Queue, n: nat, e: CachedProperty): Queue
    requires |q| <= n && 1 <= n
  {
    (if |q| < n then q else q[1..]) + [e]
  }

  function Step(q: Queue, n: nat, a: Attempt): (r: Queue)
    requires |q| <= n && 1 <= n
    ensures |r| <= n
  {
    var i := IndexOf(q, a.request);
    if i < |q| then q[i := Record(q[i], a)] else Make(q, n, Record(Blank(a.request), a))
  }

  function Fold(log: seq<Attempt>, n: nat): (q: Queue)
    requires 1 <= n
    ensures |q| <= n
  {
    if log == [] then []
    else Step(Fold(log[..|log| - 1], n), n, log[|log| - 1])
  }

  lemma MakeThenSet(q: Queue, n: nat, e: CachedProperty, f: CachedProperty)
    requires |q| <= n && 1 <= n
    ensures var made := Make(q, n, e);
            made != [] && made[|made| - 1] == e && made[|made| - 1 := f] == Make(q, n, f)
  {}

  // ----- the cache as a bounded FIFO of keys

  function Keys(q: Queue): (k: seq<PropertyRequest>)
    ensures |k| == |q|
    ensures forall i :: 0 <= i < |q| ==> k[i] == q[i].request
  {
    seq(|q|, i requires 0 <= i < |q| => q[i].request)
  }

  function LastOf<T>(s: seq<T>, n: nat): (r: seq<T>) {
    if |s| <= n then s else s[|s| - n..]
  }

  /** The keys in order of creation: a read of a key that is not among the last `n` creates it anew. */
  function Creations(log: seq<Attempt>, n: nat): seq<PropertyRequest> {
    if log == [] then []
    else
      var before := Creations(log[..|log| - 1], n);
      var key := log[|log| - 1].request;
      if key in LastOf(before, n) then before else before + [key]
  }

  predicate Distinct<T(==)>(s: seq<T>) {
    forall i, j :: 0 <= i < j < |s| ==> s[i] != s[j]
  }

  lemma StepKeys(q: Queue, n: nat, a: Attempt)
    requires |q| <= n && 1 <= n
    ensures Keys(Step(q, n, a)) ==
            if a.request in Keys(q) then Keys(q)
            else LastOf(Keys(q) + [a.request], n)
  {
    var i := IndexOf(q, a.request);
    if i < |q| {
      assert Keys(q)[i] == a.request;
    }
  }

  lemma LastOfStep<T>(s: seq<T>, x: T, n: nat)
    requires 1 <= n
    ensures LastOf(LastOf(s, n) + [x], n) == LastOf(s + [x], n)
  {}

  /** The resident keys are exactly the `n` most recently created, in order of creation. */
  lemma {:induction false} ResidentsAreNewest(log: seq<Attempt>, n: nat)
    requires 1 <= n
    ensures Keys(Fold(log, n)) == LastOf(Creations(log, n), n)
  {
    if log != [] {
      var before, a := log[..|log| - 1], log[|log| - 1];
      ResidentsAreNewest(before, n);
      StepKeys(Fold(before, n), n, a);
      LastOfStep(Creations(before, n), a.request, n);
    }
  }

  lemma {:induction false} KeysDistinct(log: seq<Attempt>, n: nat)
    requires 1 <= n
    ensures Distinct(Keys(Fold(log, n)))
  {
    if log != [] {
      var before, a := log[..|log| - 1], log[|log| - 1];
      KeysDistinct(before, n);
      StepKeys(Fold(before, n), n, a);
    }
  }

  // ----- what an entry remembers

  /** The reads of `key` since the entry for it was last created. */
  function Since(log: seq<Attempt>, n: nat, key: PropertyRequest): seq<Attempt> {
    if log == [] then []
    else
      var before, a := log[..|log| - 1], log[|log| - 1];
      if a.request != key then Since(before, n, key)
      else if key in LastOf(Creations(before, n), n) then Since(before, n, key) + [a]
      else [a]
  }

  /** Index of the last success, or the length. */
  function LastSuccess(attempts: seq<Attempt>): (i: nat)
    ensures i <= |attempts|
    ensures i < |attempts| ==> Succeeds(attempts[i]) && (forall j :: i < j < |attempts| ==> !Succeeds(attempts[j]))
    ensures i == |attempts| ==> forall j :: 0 <= j < |attempts| ==> !Succeeds(attempts[j])
  {
    if attempts == [] then 0
    else
      var last := |attempts| - 1;
      if Succeeds(attempts[last]) then last
      else
        var i := LastSuccess(attempts[..last]);
        if i < last then i else |attempts|
  }

  /** The value that came last with any of these reads. */
  function LastBrought(attempts: seq<Attempt>): WireValue {
    if attempts == [] then Empty
    else
      var last := |attempts| - 1;
      if attempts[last].value.Some? then attempts[last].value.value else LastBrought(attempts[..last])
  }

  /** The entry tells the truth about these reads of its key. */
  ghost predicate Remembers(e: CachedProperty, attempts: seq<Attempt>) {
    attempts != [] &&
    (var newest, good := attempts[|attempts| - 1], LastSuccess(attempts);
     e.request == newest.request && e.status == newest.status && e.lastAttempt == newest.at &&
     e.errorClass == newest.errorClass && e.errorCode == newest.errorCode &&
     (e.hasValue <==> good < |attempts|) &&
     (good < |attempts| ==>
        e.value == attempts[good].value.value && e.lastSuccess == e.updatedAt == attempts[good].at) &&
     (good == |attempts| ==> e.value == LastBrought(attempts) && e.lastSuccess == e.updatedAt == 0))
  }

  lemma RecordRemembers(e: CachedProperty, attempts: seq<Attempt>, a: Attempt)
    requires Remembers(e, attempts) && a.request == e.request
    ensures Remembers(Record(e, a), attempts + [a])
  {
    assert (attempts + [a])[..|attempts|] == attempts;
  }

  lemma FirstRecordRemembers(a: Attempt)
    ensures Remembers(Record(Blank(a.request), a), [a])
  {}

  lemma {:induction false} AbsentKey(q: Queue, request: PropertyRequest)
    requires request !in Keys(q)
    ensures IndexOf(q, request) == |q|
  {
    if q != [] {
      assert Keys(q)[0] == q[0].request;
      assert Keys(q[1..]) == Keys(q)[1..];
      AbsentKey(q[1..], request);
    }
  }

  /** A read of a resident key adds to that key's reads and leaves the others alone. */
  lemma SinceOfResident(before: seq<Attempt>, a: Attempt, n: nat, key: PropertyRequest)
    requires 1 <= n && a.request in Keys(Fold(before, n))
    ensures Since(before + [a], n, key)
            == if key == a.request then Since(before, n, key) + [a] else Since(before, n, key)
  {
    assert (before + [a])[..|before|] == before;
    ResidentsAreNewest(before, n);
  }

  /** A read of any other key starts that key's reads. */
  lemma SinceOfNew(before: seq<Attempt>, a: Attempt, n: nat, key: PropertyRequest)
    requires 1 <= n && a.request !in Keys(Fold(before, n))
    ensures Since(before + [a], n, key) == if key == a.request then [a] else Since(before, n, key)
  {
    assert (before + [a])[..|before|] == before;
    ResidentsAreNewest(before, n);
  }

  /**
   Every resident entry holds the status of its key's latest read and the value, and time, of its
   latest success since the entry was created; later failures never touch them. Until there is a
   success it holds whatever value came last.
   */
  lemma {:induction false} EntriesRemember(log: seq<Attempt>, n: nat, i: nat)
    requires 1 <= n && i < |Fold(log, n)|
    ensures var e := Fold(log, n)[i]; Remembers(e, Since(log, n, e.request))
    decreases |log|, 1
  {
    hide Remembers, Record, Blank, Since, Creations;
    var before, a := log[..|log| - 1], log[|log| - 1];
    assert log == before + [a];
    var q := Fold(before, n);
    var k := IndexOf(q, a.request);
    if k < |q| {
      assert Keys(q)[k] == a.request;
      EntriesRemember(before, n, i);
      SinceOfResident(before, a, n, q[i].request);
      if i == k {
        RecordRemembers(q[k], Since(before, n, a.request), a);
      } else {
        KeysDistinct(before, n);
        assert Keys(q)[i] != Keys(q)[k];
      }
    } else {
      NewEntryRemembers(before, a, n, i);
    }
  }

  lemma {:induction false} NewEntryRemembers(before: seq<Attempt>, a: Attempt, n: nat, i: nat)
    requires 1 <= n && a.request !in Keys(Fold(before, n)) && i < |Step(Fold(before, n), n, a)|
    ensures var e := Step(Fold(before, n), n, a)[i]; Remembers(e, Since(before + [a], n, e.request))
    decreases |before| + 1, 0
  {
    hide Remembers, Record, Blank, Since, Creations;
    var q := Fold(before, n);
    AbsentKey(q, a.request);
    var shift := if |q| < n then 0 else 1;
    if i + shift < |q| {
      assert Keys(q)[i + shift] == q[i + shift].request;
      EntriesRemember(before, n, i + shift);
      SinceOfNew(before, a, n, q[i + shift].request);
    } else {
      FirstRecordRemembers(a);
      SinceOfNew(before, a, n, a.request);
    }
  }

  // ----- the ring

  /** What the ring shows from its oldest entry on. */
  function RingQueue(slots: Queue, count: nat, next: nat): Queue
    requires count <= |slots| && next <= |slots|
  {
    if count < |slots| then slots[..count] else slots[next..] + slots[..next]
  }

  /** Where a slot stands in the queue. */
  function RingIndex(slot: nat, size: nat, count: nat, next: nat): nat
    requires slot < count <= size && next < size
  {
    if count < size || slot < next then (if count < size then slot else slot + size - next) else slot - next
  }

  lemma RingFinds(slots: Queue, count: nat, next: nat, request: PropertyRequest)
    requires count <= |slots| && next < |slots|
    ensures var q := RingQueue(slots, count, next);
            IndexOf(q, request) == |q| <==> forall i :: 0 <= i < count ==> slots[i].request != request
  {
    var q := RingQueue(slots, count, next);
    if IndexOf(q, request) == |q| {
      forall i | 0 <= i < count ensures slots[i].request != request {
        assert q[RingIndex(i, |slots|, count, next)] == slots[i];
      }
    }
  }

  lemma RingUpdate(slots: Queue, count: nat, next: nat, slot: nat, e: CachedProperty)
    requires slot < count <= |slots| && next < |slots|
    ensures var k := RingIndex(slot, |slots|, count, next);
            k < |RingQueue(slots, count, next)| && RingQueue(slots, count, next)[k] == slots[slot] &&
            RingQueue(slots[slot := e], count, next) == RingQueue(slots, count, next)[k := e]
  {}

  /** The used slots are the first `count`; a ring with room fills from the start. */
  predicate RingShaped(used: seq<bool>, count: nat, next: nat) {
    count <= |used| && next < |used| && (count < |used| ==> next == count) &&
    (forall i :: 0 <= i < |used| ==> (used[i] <==> i < count))
  }

  lemma ClaimKeepsShape(used: seq<bool>, count: nat, next: nat)
    requires RingShaped(used, count, next)
    ensures RingShaped(used[next := true], if count < |used| then count + 1 else count, (next + 1) % |used|)
  {
    if next + 1 < |used| {
      assert (next + 1) % |used| == next + 1;
    }
  }

  lemma RingMake(slots: Queue, count: nat, next: nat, e: CachedProperty)
    requires count <= |slots| && next < |slots| && (count < |slots| ==> next == count)
    ensures var q := RingQueue(slots, count, next);
            var count', next' := if count < |slots| then count + 1 else count, (next + 1) % |slots|;
            RingQueue(slots[next := e], count', next') == Make(q, |slots|, e) &&
            RingIndex(next, |slots|, count', next') == |Make(q, |slots|, e)| - 1
  {
    var s := slots[next := e];
    if count < |slots| {
      MakeInRoom(slots, count, e);
    } else if next + 1 == |slots| {
      assert (next + 1) % |slots| == 0;
      assert s[0..] + s[..0] == s == slots[..next] + [e];
      assert (slots[next..] + slots[..next])[1..] == slots[..next];
    } else {
      assert (next + 1) % |slots| == next + 1;
      assert s[next + 1..] + s[..next + 1] == (slots[next..] + slots[..next])[1..] + [e];
    }
  }

  lemma MakeInRoom(slots: Queue, count: nat, e: CachedProperty)
    requires count < |slots|
    ensures var s := slots[count := e];
            (if count + 1 < |slots| then s[..count + 1] else s[(count + 1) % |slots|..] + s[..(count + 1) % |slots|])
            == slots[..count] + [e]
  {
    var s := slots[count := e];
    if count + 1 == |slots| {
      assert (count + 1) % |slots| == 0;
      assert s[0..] + s[..0] == s == slots[..count] + [e];
    } else {
      assert s[..count + 1] == slots[..count] + [e];
    }
  }

  class Cache {
    const slots: array<CachedProperty>
    const used: array<bool>
    var count: nat
    var next: nat
    /** Every read recorded so far. */
    ghost var log: seq<Attempt>

    ghost predicate Shaped()
      reads this, used
    {
      slots.Length == used.Length && RingShaped(used[..], count, next)
    }

    ghost predicate Valid()
      reads this, slots, used
    {
      Shaped() && Contents() == Fold(log, slots.Length)
    }

    ghost function Contents(): Queue
      reads this, slots, used
      requires Shaped()
    {
      RingQueue(slots[..], count, next)
    }

    constructor (size: nat)
      requires 1 <= size
      ensures Valid() && log == [] && slots.Length == size && fresh(slots) && fresh(used)
    {
      var blank := Blank(PropertyRequest(ObjectId(0, 0), OBJECT_NAME, NO_ARRAY_INDEX));
      slots := new CachedProperty[size](i => blank);
      used := new bool[size](i => false);
      count, next, log := 0, 0, [];
    }

    method Find(request: PropertyRequest) returns (slot: nat)
      requires Shaped()
      ensures slot <= slots.Length
      ensures slot < slots.Length ==> slot < count && slots[slot].request == request
      ensures slot == slots.Length ==> forall i :: 0 <= i < count ==> slots[i].request != request
    {
      slot := 0;
      while slot < slots.Length && !(used[slot] && slots[slot].request == request)
        invariant slot <= slots.Length
        invariant forall i :: 0 <= i < slot && i < count ==> slots[i].request != request
      {
        slot := slot + 1;
      }
    }

    /** The entry of a key, made anew in the next free or else the oldest slot if there is none. */
    method FindOrCreate(request: PropertyRequest) returns (slot: nat)
      requires Shaped()
      modifies this`count, this`next, slots, used
      ensures Shaped() && slot < count
      ensures var q := old(Contents());
              var i := IndexOf(q, request);
              if i < |q|
              then unchanged(this, slots, used) && slots[slot].request == request
              else Contents() == Make(q, slots.Length, Blank(request)) && slots[slot] == Blank(request) &&
                   RingIndex(slot, slots.Length, count, next) == |Contents()| - 1
    {
      hide IndexOf, RingQueue, RingIndex, Make, Blank;
      slot := Find(request);
      RingFinds(slots[..], count, next, request);
      if slot == slots.Length {
        slot := Create(request);
      }
    }

    method Create(request: PropertyRequest) returns (slot: nat)
      requires Shaped()
      modifies this`count, this`next, slots, used
      ensures Shaped() && slot < count
      ensures Contents() == Make(old(Contents()), slots.Length, Blank(request)) && slots[slot] == Blank(request)
      ensures RingIndex(slot, slots.Length, count, next) == |Contents()| - 1
    {
      assert next < used.Length && count <= used.Length && (count < used.Length ==> next == count);
      hide RingQueue, RingIndex, RingShaped, Make, Blank;
      ghost var ring := slots[..];
      ClaimKeepsShape(used[..], count, next);
      RingMake(ring, count, next, Blank(request));
      slot := Claim();
      used[slot] := true;
      slots[slot] := Blank(request);
      assert slots[..] == ring[slot := Blank(request)];
      assert used[..] == old(used[..])[slot := true];
      next := (slot + 1) % slots.Length;
    }

    /** The first free slot from `next` on, counted as used, or `next` when all are used. */
    method Claim() returns (slot: nat)
      requires Shaped()
      modifies this`count
      ensures slot == next && count == if old(count) < slots.Length then old(count) + 1 else old(count)
    {
      slot := next;
      if count < slots.Length {
        for i := 0 to slots.Length
          invariant i == 0 && slot == next && count == old(count)
        {
          var candidate := (next + i) % slots.Length;
          if !used[candidate] {
            count := count + 1;
            return candidate;
          }
        }
      }
    }

    /** One finished read. */
    method Update(a: Attempt)
      requires Valid()
      modifies this, slots, used
      ensures Valid() && log == old(log) + [a]
    {
      hide IndexOf, RingQueue, RingIndex, Make, Record, Blank, Keys;
      ghost var before := Contents();
      KeysDistinct(log, slots.Length);
      var slot := FindOrCreate(a.request);
      ghost var k := RingIndex(slot, slots.Length, count, next);
      ghost var made := Contents();
      RingUpdate(slots[..], count, next, slot, Record(slots[slot], a));
      ghost var i := IndexOf(before, a.request);
      if i < |before| {
        assert Keys(before)[i] == Keys(before)[k];
      }
      slots[slot] := Record(slots[slot], a);
      log := log + [a];
      assert log[..|log| - 1] == old(log);
      assert Contents() == made[k := Record(made[k], a)];
      if i == |before| {
        MakeThenSet(before, slots.Length, Blank(a.request), Record(Blank(a.request), a));
      }
    }

    /** Looks a property up without recording anything. */
    method Lookup(request: PropertyRequest) returns (entry: Option<CachedProperty>)
      requires Valid()
      ensures entry.None? <==> request !in LastOf(Creations(log, slots.Length), slots.Length)
      ensures entry.Some? ==>
                entry.value.request == request && Remembers(entry.value, Since(log, slots.Length, request))
    {
      var slot := Find(request);
      RingFinds(slots[..], count, next, request);
      ResidentsAreNewest(log, slots.Length);
      if slot == slots.Length {
        assert forall i :: 0 <= i < |Contents()| ==> Keys(Contents())[i] != request;
        return None;
      }
      RingUpdate(slots[..], count, next, slot, slots[slot]);
      ghost var k := RingIndex(slot, slots.Length, count, next);
      EntriesRemember(log, slots.Length, k);
      assert Keys(Contents())[k] == request;
      return Some(slots[slot]);
    }
  }
}
