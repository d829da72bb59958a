/**
 The change-of-value notifications a session has received but not yet handed to a subscription: a
 short queue that every poll searches before it asks the network for one more.
 */
module CovInbox {
  import opened BacnetTypes
  import opened ByteOrder
  import opened ApplicationValue
  import opened CovMessages

  /** A notification and where it came from. */
  datatype Incoming = Incoming(source: Endpoint, news: CovNotification)

  /** Whose notifications a subscription takes, and about what; without a process id it takes none. */
  datatype Interest = Interest(peer: Endpoint, processId: Option<uint32>, request: PropertyRequest)

  // ----- which notification is for whom

  predicate About<R>(p: PropertyValue<R>, request: PropertyRequest) {
    p.property == request.property && p.arrayIndex == request.arrayIndex
  }

  /** The first property that is about the request, or the length. */
  function FirstAbout(items: seq<WireProperty>, request: PropertyRequest): (i: nat)
    ensures i <= |items| && (i < |items| ==> About(items[i], request))
    ensures forall k :: 0 <= k < i ==> !About(items[k], request)
  {
    if items == [] || About(items[0], request) then 0 else 1 + FirstAbout(items[1..], request)
  }

  predicate Matches(w: Interest, n: Incoming) {
    n.source == w.peer && w.processId == Some(n.news.processId) && n.news.monitored == w.request.objectId &&
    (FirstAbout(n.news.kept, w.request) < |n.news.kept| || About(n.news.primary, w.request))
  }

  /** The value a notification has for a request: its first property about it, else the primary one. */
  function ValueFor(news: CovNotification, request: PropertyRequest): WireValue {
    var i := FirstAbout(news.kept, request);
    if i < |news.kept| then news.kept[i].value else news.primary.value
  }

  method FindAbout(items: seq<WireProperty>, request: PropertyRequest) returns (index: nat)
    ensures index == FirstAbout(items, request)
  {
    for k := 0 to |items|
      invariant forall i :: 0 <= i < k ==> !About(items[i], request)
    {
      if items[k].property == request.property && items[k].arrayIndex == request.arrayIndex {
        return k;
      }
    }
    return |items|;
  }

  method Concerns(w: Interest, n: Incoming) returns (yes: bool)
    ensures yes == Matches(w, n)
    ensures yes <==> n.source == w.peer && w.processId == Some(n.news.processId) &&
                     n.news.monitored == w.request.objectId &&
                     exists p <- n.news.kept + [n.news.primary] ::
                       p.property == w.request.property && p.arrayIndex == w.request.arrayIndex
  {
    if n.source != w.peer || w.processId.None? || n.news.processId != w.processId.value ||
       n.news.monitored != w.request.objectId {
      return false;
    }
    var i := FindAbout(n.news.kept, w.request);
    return i < |n.news.kept| ||
           (n.news.primary.property == w.request.property && n.news.primary.arrayIndex == w.request.arrayIndex);
  }

  method TakeValue(news: CovNotification, request: PropertyRequest) returns (value: WireValue)
    ensures value == ValueFor(news, request)
  {
    var i := FindAbout(news.kept, request);
    value := if i < |news.kept| then news.kept[i].value else news.primary.value;
  }

  // ----- process ids

  function Or(a: nat, b: nat): (r: nat)
    decreases a + b
  {
    if a == 0 then b
    else if b == 0 then a
    else 2 * Or(a / 2, b / 2) + (if a % 2 == 1 || b % 2 == 1 then 1 else 0)
  }

  lemma PowersOfWord()
    ensures Pow2(22) == INSTANCES && Pow2(32) == 0x1_0000_0000
  {
    Pow2At32();
    assert Pow2(26) == 0x400_0000 by { assert Pow2(28) == 0x1000_0000 by { assert Pow2(30) == 0x4000_0000; } }
    assert Pow2(24) == 0x100_0000;
  }

  lemma {:induction false} OrFits(a: nat, b: nat, n: nat)
    requires a < Pow2(n) && b < Pow2(n)
    ensures Or(a, b) < Pow2(n)
    decreases n
  {
    if n > 0 {
      OrFits(a / 2, b / 2, n - 1);
    }
  }

  /** Object type, shifted within 32 bits, or'ed with the instance. */
  function ProcessIdOf(objectId: ObjectId): uint32 {
    var high := (objectId.kind % 1024) * INSTANCES;
    PowersOfWord();
    OrFits(high, objectId.instance, 32);
    Or(high, objectId.instance)
  }

  lemma {:induction false} OrOfApart(high: nat, low: nat, n: nat)
    requires low < Pow2(n)
    ensures Or(high * Pow2(n), low) == high * Pow2(n) + low
    decreases n
  {
    if n == 0 {
      assert high * Pow2(0) == high;
    } else {
      var p := Pow2(n - 1);
      HalfOfProduct(high, p);
      OrOfApart(high, low / 2, n - 1);
    }
  }

  lemma HalfOfProduct(high: nat, p: nat)
    ensures high * (2 * p) / 2 == high * p && high * (2 * p) % 2 == 0
  {
    assert high * (2 * p) == 2 * (high * p);
  }

  /** For an instance within its 22 bits the process id is the object id as it goes on the wire. */
  lemma ProcessIdIsWord(objectId: ObjectId)
    requires objectId.instance <= MAX_INSTANCE
    ensures ProcessIdOf(objectId) == ObjectIdWord(objectId)
  {
    PowersOfWord();
    OrOfApart(objectId.kind % 1024, objectId.instance, 22);
  }

  /** Two objects share a process id if and only if they differ by nothing but cut-off type bits. */
  lemma ProcessIdSharedIff(a: ObjectId, b: ObjectId)
    requires a.instance <= MAX_INSTANCE && b.instance <= MAX_INSTANCE
    ensures ProcessIdOf(a) == ProcessIdOf(b) <==> a.kind % 1024 == b.kind % 1024 && a.instance == b.instance
  {
    hide ProcessIdOf;
    ProcessIdIsWord(a);
    ProcessIdIsWord(b);
  }

  /** Two subscriptions of a session can want the same notification if and only if they watch one object. */
  lemma NotificationSharedIff(x: Interest, y: Interest)
    requires x.peer == y.peer
    requires x.processId == Some(ProcessIdOf(x.request.objectId))
    requires y.processId == Some(ProcessIdOf(y.request.objectId))
    ensures (exists n :: Matches(x, n) && Matches(y, n)) <==> x.request.objectId == y.request.objectId
  {
    if x.request.objectId == y.request.objectId {
      var px := PropertyValue(x.request.property, x.request.arrayIndex, Null);
      var py := PropertyValue(y.request.property, y.request.arrayIndex, Null);
      var news := CovNotification(x.processId.value, x.request.objectId, px, [px, py], false, 0);
      assert Matches(x, Incoming(x.peer, news)) && Matches(y, Incoming(x.peer, news));
    }
  }

  // ----- the queue

  function FirstMatch(s: seq<Incoming>, w: Interest): (i: nat)
    ensures i <= |s| && (i < |s| ==> Matches(w, s[i]))
    ensures forall k :: 0 <= k < i ==> !Matches(w, s[k])
  {
    if s == [] || Matches(w, s[0]) then 0 else 1 + FirstMatch(s[1..], w)
  }

  function Removed<T>(s: seq<T>, i: nat): seq<T>
    requires i < |s|
  {
    s[..i] + s[i + 1..]
  }

  /** A full queue drops its oldest notification to take a new one. */
  function Pushed(s: seq<Incoming>, n: Incoming, size: nat): (t: seq<Incoming>)
    requires 1 <= size
    ensures |s| <= size ==> |t| <= size
  {
    (if |s| >= size then s[1..] else s) + [n]
  }

  /** The oldest waiting match; without one, what has just arrived, which is queued if it is no match. */
  function Fetched(s: seq<Incoming>, w: Interest, arrival: Option<Incoming>, size: nat)
    : (seq<Incoming>, Option<Incoming>)
    requires 1 <= size
  {
    var i := FirstMatch(s, w);
    if i < |s| then (Removed(s, i), Some(s[i]))
    else if arrival.None? then (s, None)
    else if Matches(w, arrival.value) then (s, arrival)
    else (Pushed(s, arrival.value, size), None)
  }

  class Inbox {
    const slots: array<Incoming>
    var count: nat
    /** What the network yielded each time it was asked. */
    ghost var arrivals: seq<Option<Incoming>>

    ghost predicate Valid()
      reads this`count
    {
      1 <= slots.Length && count <= slots.Length
    }

    ghost function Contents(): (s: seq<Incoming>)
      reads this`count, slots
      requires Valid()
    {
      slots[..count]
    }

    constructor (size: nat)
      requires 1 <= size
      ensures Valid() && Contents() == [] && slots.Length == size && fresh(slots)
    {
      var none := PropertyValue(PRESENT_VALUE, NO_ARRAY_INDEX, Empty);
      var blank := Incoming(Endpoint(0, 0, 0, 0, 0), CovNotification(0, ObjectId(0, 0), none, [], false, 0));
      slots := new Incoming[size](i => blank);
      count, arrivals := 0, [];
    }

    /** Closes the gap an entry leaves. */
    method Remove(index: nat)
      requires Valid() && index < count
      modifies this`count, slots
      ensures Valid() && Contents() == Removed(old(Contents()), index)
    {
      ghost var s := Contents();
      for k := index + 1 to count
        invariant count == |s|
        invariant forall i :: 0 <= i < index || k <= i < count ==> slots[i] == s[i]
        invariant forall i :: index < i < k ==> slots[i - 1] == s[i]
      {
        slots[k - 1] := slots[k];
      }
      count := count - 1;
      assert forall i :: index <= i < count ==> slots[i] == s[i + 1];
    }

    method Push(n: Incoming)
      requires Valid()
      modifies this`count, slots
      ensures Valid() && Contents() == Pushed(old(Contents()), n, slots.Length)
    {
      if count == slots.Length {
        Remove(0);
      }
      slots[count] := n;
      count := count + 1;
    }

    method Take(w: Interest) returns (n: Option<Incoming>)
      requires Valid()
      modifies this`count, slots
      ensures Valid()
      ensures var s := old(Contents());
              var i := FirstMatch(s, w);
              if i < |s| then n == Some(s[i]) && Contents() == Removed(s, i) else n.None? && Contents() == s
    {
      hide Matches;
      ghost var s := Contents();
      for k := 0 to count
        invariant unchanged(`count, slots)
        invariant k <= FirstMatch(s, w)
      {
        var found := Concerns(w, slots[k]);
        if found {
          n := Some(slots[k]);
          Remove(k);
          return;
        }
      }
      n := None;
    }

    /** One notification from anyone, or none. */
    method Receive() returns (n: Option<Incoming>)
      modifies this`arrivals
      ensures arrivals == old(arrivals) + [n]
    {
      n := *;
      arrivals := arrivals + [n];
    }

    /** What a poll finds; the network is asked only when nothing waiting matches. */
    method Fetch(w: Interest) returns (n: Option<Incoming>, ghost arrival: Option<Incoming>)
      requires Valid()
      modifies this, slots
      ensures Valid()
      ensures arrivals == old(arrivals) + if FirstMatch(old(Contents()), w) < |old(Contents())| then [] else [arrival]
      ensures var (s, found) := Fetched(old(Contents()), w, arrival, slots.Length); Contents() == s && n == found
    {
      hide Matches;
      arrival := None;
      n := Take(w);
      if n.Some? {
        return;
      }
      var received := Receive();
      arrival := received;
      if received.Some? {
        var found := Concerns(w, received.value);
        if found {
          n := received;
        } else {
          Push(received.value);
        }
      }
    }
  }
}
