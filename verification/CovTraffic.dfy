/** Where every notification a session receives ends up, over whole runs of polls. */
module CovTraffic {
  import opened BacnetTypes
  import opened CovInbox

  /** A poll of one subscription: what arrives if the network is asked, and whether an acknowledgement goes out. */
  datatype Poll = Poll(interest: Interest, arrival: Option<Incoming>, acknowledged: bool)

  datatype Delivery = Delivery(interest: Interest, incoming: Incoming)

  datatype Traffic = Traffic(
    pending: seq<Incoming>, arrived: seq<Incoming>, delivered: seq<Delivery>, lost: seq<Incoming>)

  /** A confirmed notification is handed on only if it could be acknowledged. */
  predicate Accepted(n: Incoming, acknowledged: bool) {
    n.news.confirmed ==> acknowledged
  }

  function Queue(t: Traffic, n: Incoming, size: nat): Traffic
    requires 1 <= size
  {
    t.(pending := Pushed(t.pending, n, size), lost := t.lost + if |t.pending| >= size then [t.pending[0]] else [])
  }

  function Offer(t: Traffic, p: Poll, n: Incoming, size: nat): Traffic
    requires 1 <= size
  {
    if Accepted(n, p.acknowledged) then t.(delivered := t.delivered + [Delivery(p.interest, n)]) else Queue(t, n, size)
  }

  function Step(t: Traffic, p: Poll, size: nat): Traffic
    requires 1 <= size
  {
    var i := FirstMatch(t.pending, p.interest);
    if i < |t.pending| then Offer(t.(pending := Removed(t.pending, i)), p, t.pending[i], size)
    else
      match p.arrival
      case None => t
      case Some(n) =>
        var u := t.(arrived := t.arrived + [n]);
        if Matches(p.interest, n) then Offer(u, p, n, size) else Queue(u, n, size)
  }

  function Run(polls: seq<Poll>, size: nat): Traffic
    requires 1 <= size
  {
    if polls == [] then Traffic([], [], [], [])
    else Step(Run(polls[..|polls| - 1], size), polls[|polls| - 1], size)
  }

  /** What waits after a poll, and what it hands over; a notification that cannot be acknowledged goes back. */
  function Polled(s: seq<Incoming>, p: Poll, size: nat): (seq<Incoming>, Option<Incoming>)
    requires 1 <= size
  {
    var (waiting, n) := Fetched(s, p.interest, p.arrival, size);
    if n.Some? && !Accepted(n.value, p.acknowledged) then (Pushed(waiting, n.value, size), None) else (waiting, n)
  }

  lemma RunStep(polls: seq<Poll>, p: Poll, size: nat)
    requires 1 <= size
    ensures var (waiting, n) := Polled(Run(polls, size).pending, p, size);
            var t := Run(polls + [p], size);
            t.pending == waiting &&
            t.delivered == Run(polls, size).delivered + if n.Some? then [Delivery(p.interest, n.value)] else []
  {
    hide Matches, Pushed, FirstMatch, Accepted, Removed;
    assert (polls + [p])[..|polls|] == polls;
  }

  // ----- nothing is duplicated, and nothing vanishes unnoticed

  function Incomings(delivered: seq<Delivery>): (r: seq<Incoming>)
    ensures |r| == |delivered| && forall i :: 0 <= i < |r| ==> r[i] == delivered[i].incoming
  {
    seq(|delivered|, i requires 0 <= i < |delivered| => delivered[i].incoming)
  }

  /** All the notifications that are somewhere. */
  function Held(t: Traffic): multiset<Incoming> {
    multiset(t.pending) + (multiset(t.lost) + multiset(Incomings(t.delivered)))
  }

  ghost predicate Conserved(t: Traffic, size: nat) {
    |t.pending| <= size && multiset(t.arrived) == Held(t)
  }

  lemma RemovedMultiset<T>(s: seq<T>, i: nat)
    requires i < |s|
    ensures multiset(s) == multiset(Removed(s, i)) + multiset{s[i]}
  {
    assert s == s[..i] + [s[i]] + s[i + 1..];
  }

  lemma QueueHolds(t: Traffic, n: Incoming, size: nat)
    requires 1 <= size
    ensures Held(Queue(t, n, size)) == Held(t) + multiset{n}
  {
    var rest := multiset(Incomings(t.delivered));
    if |t.pending| >= size {
      var first := t.pending[0];
      assert t.pending == [first] + t.pending[1..];
      assert multiset(t.lost + [first]) == multiset(t.lost) + multiset{first};
    }
  }

  lemma OfferHolds(t: Traffic, p: Poll, n: Incoming, size: nat)
    requires 1 <= size
    ensures Held(Offer(t, p, n, size)) == Held(t) + multiset{n}
  {
    QueueHolds(t, n, size);
    assert Incomings(t.delivered + [Delivery(p.interest, n)]) == Incomings(t.delivered) + [n];
  }

  lemma StepConserves(t: Traffic, p: Poll, size: nat)
    requires 1 <= size && Conserved(t, size)
    ensures Conserved(Step(t, p, size), size)
  {
    hide Matches, Held;
    var i := FirstMatch(t.pending, p.interest);
    if i < |t.pending| {
      RemovedHolds(t, i);
      OfferHolds(t.(pending := Removed(t.pending, i)), p, t.pending[i], size);
    } else if p.arrival.Some? {
      var n := p.arrival.value;
      var u := t.(arrived := t.arrived + [n]);
      ArrivalHolds(t, n);
      OfferHolds(u, p, n, size);
      QueueHolds(u, n, size);
    }
  }

  lemma ArrivalHolds(t: Traffic, n: Incoming)
    ensures Held(t.(arrived := t.arrived + [n])) == Held(t)
    ensures multiset(t.arrived + [n]) == multiset(t.arrived) + multiset{n}
  {}

  lemma RemovedHolds(t: Traffic, i: nat)
    requires i < |t.pending|
    ensures Held(t) == Held(t.(pending := Removed(t.pending, i))) + multiset{t.pending[i]}
  {
    RemovedMultiset(t.pending, i);
  }

  /** Every notification that arrived waits, was delivered once, or was pushed out of the full queue. */
  lemma {:induction false} RunConserves(polls: seq<Poll>, size: nat)
    requires 1 <= size
    ensures Conserved(Run(polls, size), size)
  {
    hide Step;
    if polls != [] {
      RunConserves(polls[..|polls| - 1], size);
      StepConserves(Run(polls[..|polls| - 1], size), polls[|polls| - 1], size);
    }
  }

  // ----- order

  function Front<T>(s: seq<T>): seq<T>
    requires s != []
  {
    s[..|s| - 1]
  }

  function Last<T>(s: seq<T>): T
    requires s != []
  {
    s[|s| - 1]
  }

  ghost predicate Subsequence<T>(a: seq<T>, b: seq<T>)
    decreases |b|
  {
    a == [] ||
    (b != [] && (Subsequence(a, Front(b)) || (Last(a) == Last(b) && Subsequence(Front(a), Front(b)))))
  }

  lemma SubsequenceAppend<T>(a: seq<T>, b: seq<T>, x: T)
    requires Subsequence(a, b)
    ensures Subsequence(a, b + [x]) && Subsequence(a + [x], b + [x])
  {
    assert Front(a + [x]) == a && Front(b + [x]) == b;
  }

  lemma {:induction false} SubsequenceWithout<T>(a: seq<T>, i: nat, b: seq<T>)
    requires i < |a| && Subsequence(a, b)
    ensures Subsequence(Removed(a, i), b)
    decreases |b|
  {
    if Subsequence(a, Front(b)) {
      SubsequenceWithout(a, i, Front(b));
    } else if i == |a| - 1 {
      assert Removed(a, i) == Front(a);
    } else {
      SubsequenceWithout(Front(a), i, Front(b));
      assert Front(Removed(a, i)) == Removed(Front(a), i);
    }
  }

  /** The waiting notifications a subscription would take, oldest first. */
  function Matching(s: seq<Incoming>, w: Interest): seq<Incoming> {
    if s == [] then []
    else Matching(Front(s), w) + if Matches(w, Last(s)) then [Last(s)] else []
  }

  function DeliveredTo(delivered: seq<Delivery>, w: Interest): seq<Incoming> {
    if delivered == [] then []
    else DeliveredTo(Front(delivered), w) + if Last(delivered).interest == w then [Last(delivered).incoming] else []
  }

  lemma MatchingStep(s: seq<Incoming>, n: Incoming, w: Interest)
    ensures Matching(s + [n], w) == Matching(s, w) + if Matches(w, n) then [n] else []
  {
    assert Front(s + [n]) == s;
  }

  lemma DeliveredStep(s: seq<Delivery>, d: Delivery, w: Interest)
    ensures DeliveredTo(s + [d], w) == DeliveredTo(s, w) + if d.interest == w then [d.incoming] else []
  {
    assert Front(s + [d]) == s;
  }

  lemma {:induction false} MatchingConcat(a: seq<Incoming>, b: seq<Incoming>, w: Interest)
    ensures Matching(a + b, w) == Matching(a, w) + Matching(b, w)
    decreases |b|
  {
    hide Matches;
    if b == [] {
      assert a + b == a;
    } else {
      assert Front(a + b) == a + Front(b);
      MatchingConcat(a, Front(b), w);
    }
  }

  lemma MatchingOne(n: Incoming, w: Interest)
    ensures Matching([n], w) == if Matches(w, n) then [n] else []
  {
    assert Front([n]) == [];
  }

  lemma MatchingRemoved(s: seq<Incoming>, i: nat, w: Interest)
    requires i < |s|
    ensures var k := |Matching(s[..i], w)|;
            if Matches(w, s[i])
            then k < |Matching(s, w)| && Matching(s, w)[k] == s[i] &&
                 Matching(Removed(s, i), w) == Removed(Matching(s, w), k)
            else Matching(Removed(s, i), w) == Matching(s, w)
  {
    hide Matches, Matching;
    var x, y := Matching(s[..i], w), Matching(s[i + 1..], w);
    MatchingOne(s[i], w);
    assert s == s[..i] + ([s[i]] + s[i + 1..]);
    MatchingConcat(s[..i], [s[i]] + s[i + 1..], w);
    MatchingConcat([s[i]], s[i + 1..], w);
    MatchingConcat(s[..i], s[i + 1..], w);
    if Matches(w, s[i]) {
      assert Matching(s, w) == x + ([s[i]] + y);
    } else {
      assert [] + y == y;
    }
  }

  lemma {:induction false} NoMatchBefore(s: seq<Incoming>, i: nat, w: Interest)
    requires i <= FirstMatch(s, w)
    ensures Matching(s[..i], w) == []
    decreases i
  {
    if i > 0 {
      NoMatchBefore(s, i - 1, w);
      assert Front(s[..i]) == s[..i - 1];
    }
  }

  /** What a subscription was handed, and then what waits for it, came in this order. */
  ghost predicate InOrder(t: Traffic, w: Interest) {
    Subsequence(DeliveredTo(t.delivered, w) + Matching(t.pending, w), t.arrived)
  }

  lemma TakingKeepsOrder(t: Traffic, i: nat, taker: Interest, w: Interest)
    requires InOrder(t, w) && i == FirstMatch(t.pending, taker) < |t.pending|
    ensures InOrder(t.(pending := Removed(t.pending, i),
                       delivered := t.delivered + [Delivery(taker, t.pending[i])]), w)
  {
    hide Matches, Subsequence, Matching, DeliveredTo, FirstMatch;
    var before, waiting := DeliveredTo(t.delivered, w), Matching(t.pending, w);
    DeliveredStep(t.delivered, Delivery(taker, t.pending[i]), w);
    MatchingRemoved(t.pending, i, w);
    if taker == w {
      NoMatchBefore(t.pending, i, w);
      assert before + waiting == (before + [t.pending[i]]) + Removed(waiting, 0);
    } else {
      assert before + [] == before;
      if Matches(w, t.pending[i]) {
        var k := |Matching(t.pending[..i], w)|;
        SubsequenceWithout(before + waiting, |before| + k, t.arrived);
        assert Removed(before + waiting, |before| + k) == before + Removed(waiting, k);
      }
    }
  }

  lemma QueueKeepsOrder(t: Traffic, n: Incoming, size: nat, w: Interest)
    requires 1 <= size && InOrder(t, w)
    ensures InOrder(Queue(t.(arrived := t.arrived + [n]), n, size), w)
  {
    hide Matches, Subsequence, Matching, DeliveredTo, FirstMatch;
    var before, waiting := DeliveredTo(t.delivered, w), Matching(t.pending, w);
    var kept := if |t.pending| >= size then t.pending[1..] else t.pending;
    if |t.pending| >= size {
      MatchingRemoved(t.pending, 0, w);
      NoMatchBefore(t.pending, 0, w);
      assert Removed(t.pending, 0) == kept;
      if Matches(w, t.pending[0]) {
        SubsequenceWithout(before + waiting, |before|, t.arrived);
        assert Removed(before + waiting, |before|) == before + Matching(kept, w);
      }
    }
    MatchingStep(kept, n, w);
    SubsequenceAppend(before + Matching(kept, w), t.arrived, n);
    assert (before + Matching(kept, w)) + [n] == before + (Matching(kept, w) + [n]);
    assert Matching(kept, w) + [] == Matching(kept, w);
  }

  lemma HandingOverKeepsOrder(t: Traffic, taker: Interest, n: Incoming, w: Interest)
    requires InOrder(t, w) && FirstMatch(t.pending, taker) == |t.pending|
    ensures InOrder(t.(arrived := t.arrived + [n], delivered := t.delivered + [Delivery(taker, n)]), w)
  {
    hide Matches, Subsequence, Matching, DeliveredTo, FirstMatch;
    var before, waiting := DeliveredTo(t.delivered, w), Matching(t.pending, w);
    DeliveredStep(t.delivered, Delivery(taker, n), w);
    SubsequenceAppend(before + waiting, t.arrived, n);
    if taker == w {
      NoMatchBefore(t.pending, |t.pending|, w);
      assert t.pending[..|t.pending|] == t.pending;
      assert (before + waiting) + [n] == (before + [n]) + waiting;
    } else {
      assert before + [] == before;
    }
  }

  lemma EmptyInOrder(w: Interest)
    ensures InOrder(Traffic([], [], [], []), w)
  {}

  // ----- a failed acknowledgement

  lemma {:induction false} RotatedIff(rest: seq<Incoming>, x: Incoming)
    ensures rest + [x] == [x] + rest <==> forall n <- rest :: n == x
    decreases |rest|
  {
    if rest != [] {
      var tail := rest[1..];
      RotatedIff(tail, x);
      assert rest == [rest[0]] + tail && rest[0] in rest;
      assert forall n <- tail :: n in rest;
      if rest + [x] == [x] + rest {
        assert rest[0] == (rest + [x])[0] == x;
        assert tail + [x] == (rest + [x])[1..] == rest == [x] + tail;
      } else if rest[0] == x {
        assert rest + [x] == [x] + (tail + [x]) && [x] + rest == [x] + ([x] + tail);
      }
    }
  }

  lemma {:induction false} MatchingHolds(s: seq<Incoming>, w: Interest, n: Incoming)
    ensures n in Matching(s, w) <==> n in s && Matches(w, n)
  {
    hide Matches;
    if s != [] {
      assert s == Front(s) + [Last(s)];
      MatchingHolds(Front(s), w, n);
    }
  }

  /** What a subscription would take before, and after, the entry at `i` goes back to the end of the queue. */
  lemma RequeuedMatching(s: seq<Incoming>, i: nat, w: Interest, size: nat)
    requires i < |s| <= size && Matches(w, s[i])
    ensures var x, y := Matching(s[..i], w), Matching(s[i + 1..], w);
            Matching(s, w) == x + ([s[i]] + y) && Matching(Pushed(Removed(s, i), s[i], size), w) == x + (y + [s[i]])
  {
    hide Matches, Matching;
    MatchingOne(s[i], w);
    assert s == s[..i] + ([s[i]] + s[i + 1..]);
    MatchingConcat(s[..i], [s[i]] + s[i + 1..], w);
    MatchingConcat([s[i]], s[i + 1..], w);
    assert Pushed(Removed(s, i), s[i], size) == s[..i] + (s[i + 1..] + [s[i]]);
    MatchingConcat(s[..i], s[i + 1..] + [s[i]], w);
    MatchingConcat(s[i + 1..], [s[i]], w);
  }

  /** Nothing else waits behind this entry for a subscription that wants it. */
  predicate NothingBehind(s: seq<Incoming>, i: nat, w: Interest)
    requires i < |s|
  {
    Matches(w, s[i]) ==> forall n <- s[i + 1..] :: Matches(w, n) ==> n == s[i]
  }

  /**
   A notification that cannot be acknowledged goes back to the end of the queue. What waits for a
   subscription stays in order if and only if nothing different waits for it behind.
   */
  lemma RequeueKeepsOrderIff(s: seq<Incoming>, i: nat, w: Interest, size: nat)
    requires i < |s| <= size
    ensures Matching(Pushed(Removed(s, i), s[i], size), w) == Matching(s, w) <==> NothingBehind(s, i, w)
  {
    hide Matches, Matching;
    if Matches(w, s[i]) {
      var x, y := Matching(s[..i], w), Matching(s[i + 1..], w);
      RequeuedMatching(s, i, w, size);
      RotatedIff(y, s[i]);
      assert (x + ([s[i]] + y))[|x|..] == [s[i]] + y && (x + (y + [s[i]]))[|x|..] == y + [s[i]];
      forall n ensures n in y <==> n in s[i + 1..] && Matches(w, n) {
        MatchingHolds(s[i + 1..], w, n);
      }
    } else {
      MatchingRemoved(s, i, w);
      MatchingStep(Removed(s, i), s[i], w);
      assert Matching(s, w) + [] == Matching(s, w);
    }
  }

  /** The poll does not put a notification back behind another one that the same subscription waits for. */
  predicate Harmless(t: Traffic, p: Poll, w: Interest) {
    var i := FirstMatch(t.pending, p.interest);
    i < |t.pending| && !Accepted(t.pending[i], p.acknowledged) ==> NothingBehind(t.pending, i, w)
  }

  ghost predicate NothingOvertakes(polls: seq<Poll>, size: nat, w: Interest)
    requires 1 <= size
  {
    forall k :: 0 <= k < |polls| ==> Harmless(Run(polls[..k], size), polls[k], w)
  }

  lemma HarmlessStep(t: Traffic, p: Poll, size: nat, w: Interest)
    requires 1 <= size && |t.pending| <= size && InOrder(t, w) && Harmless(t, p, w)
    ensures InOrder(Step(t, p, size), w)
  {
    hide Matches, Subsequence, Matching, DeliveredTo, NothingBehind;
    var i := FirstMatch(t.pending, p.interest);
    if i < |t.pending| {
      TakingKeepsOrder(t, i, p.interest, w);
      RequeueKeepsOrderIff(t.pending, i, w, size);
    } else if p.arrival.Some? {
      HandingOverKeepsOrder(t, p.interest, p.arrival.value, w);
      QueueKeepsOrder(t, p.arrival.value, size, w);
    }
  }

  /**
   Whatever else is polled in between and whatever the queue drops, a subscription is handed its
   notifications in the order they arrived, as long as no failed acknowledgement puts one back behind
   another.
   */
  lemma {:induction false} DeliveredInOrder(polls: seq<Poll>, size: nat, w: Interest)
    requires 1 <= size && NothingOvertakes(polls, size, w)
    ensures InOrder(Run(polls, size), w)
  {
    hide Matches, InOrder, Harmless, Step;
    if polls == [] {
      EmptyInOrder(w);
    } else {
      var before, p := polls[..|polls| - 1], polls[|polls| - 1];
      PrefixOvertakes(polls, |polls| - 1, size, w);
      DeliveredInOrder(before, size, w);
      RunConserves(before, size);
      HarmlessStep(Run(before, size), p, size, w);
    }
  }

  lemma PrefixOvertakes(polls: seq<Poll>, m: nat, size: nat, w: Interest)
    requires 1 <= size && m <= |polls| && NothingOvertakes(polls, size, w)
    ensures NothingOvertakes(polls[..m], size, w)
  {
    hide Run, Harmless;
    forall k | 0 <= k < m ensures Harmless(Run(polls[..m][..k], size), polls[..m][k], w) {
      assert polls[..m][..k] == polls[..k];
    }
  }

  // ----- and only then

  ghost predicate Distinct<T>(s: seq<T>) {
    forall i, j :: 0 <= i < j < |s| ==> s[i] != s[j]
  }

  /** Two elements of a subsequence stand in the same order in the whole. */
  lemma {:induction false} Positions<T>(a: seq<T>, b: seq<T>, p: nat, q: nat) returns (u: nat, v: nat)
    requires Subsequence(a, b) && p < q < |a|
    ensures u < v < |b| && b[u] == a[p] && b[v] == a[q]
    decreases |b|
  {
    if Subsequence(a, Front(b)) {
      u, v := Positions(a, Front(b), p, q);
    } else if q < |a| - 1 {
      u, v := Positions(Front(a), Front(b), p, q);
    } else {
      v := |b| - 1;
      u := Position(Front(a), Front(b), p);
    }
  }

  lemma {:induction false} Position<T>(a: seq<T>, b: seq<T>, p: nat) returns (u: nat)
    requires Subsequence(a, b) && p < |a|
    ensures u < |b| && b[u] == a[p]
    decreases |b|
  {
    if Subsequence(a, Front(b)) {
      u := Position(a, Front(b), p);
    } else if p < |a| - 1 {
      u := Position(Front(a), Front(b), p);
    } else {
      u := |b| - 1;
    }
  }

  /** A harmful poll of distinct notifications in order leaves them out of order. */
  lemma HarmfulStep(t: Traffic, p: Poll, size: nat, w: Interest)
    requires 1 <= size && |t.pending| <= size && InOrder(t, w) && Distinct(t.arrived) && !Harmless(t, p, w)
    ensures !InOrder(Step(t, p, size), w)
  {
    hide Matches, Subsequence, Matching, DeliveredTo;
    var i := FirstMatch(t.pending, p.interest);
    var n, before := t.pending[i], DeliveredTo(t.delivered, w);
    var x, y := Matching(t.pending[..i], w), Matching(t.pending[i + 1..], w);
    RequeuedMatching(t.pending, i, w, size);
    var other :| other in t.pending[i + 1..] && Matches(w, other) && other != n;
    MatchingHolds(t.pending[i + 1..], w, other);
    var k :| 0 <= k < |y| && y[k] == other;
    if InOrder(Step(t, p, size), w) {
      var a, b := before + (x + ([n] + y)), before + (x + (y + [n]));
      var j := |before| + |x|;
      assert a[j] == n && a[j + 1 + k] == other && b[j + k] == other && b[j + |y|] == n;
      var u, v := Positions(a, t.arrived, j, j + 1 + k);
      var u', v' := Positions(b, t.arrived, j + k, j + |y|);
    }
  }

  lemma StepArrivals(t: Traffic, p: Poll, size: nat)
    requires 1 <= size
    ensures t.arrived <= Step(t, p, size).arrived
  {
    hide Matches, FirstMatch, Pushed;
  }

  lemma {:induction false} ArrivedGrows(polls: seq<Poll>, m: nat, size: nat)
    requires 1 <= size && m <= |polls|
    ensures Run(polls[..m], size).arrived <= Run(polls, size).arrived
    decreases |polls|
  {
    hide Step;
    if m == |polls| {
      assert polls[..m] == polls;
    } else {
      var last := |polls| - 1;
      assert polls[..last][..m] == polls[..m];
      ArrivedGrows(polls[..last], m, size);
      StepArrivals(Run(polls[..last], size), polls[last], size);
    }
  }

  lemma RunSplits(polls: seq<Poll>, k: nat, size: nat)
    requires 1 <= size && k < |polls|
    ensures Run(polls[..k + 1], size) == Step(Run(polls[..k], size), polls[k], size)
  {
    hide Step;
    assert polls[..k + 1][..k] == polls[..k];
  }

  /**
   If no two notifications that arrive are the same, a subscription's notifications stay in order all
   through a run if and only if no failed acknowledgement puts one back behind another.
   */
  lemma AlwaysInOrderIff(polls: seq<Poll>, size: nat, w: Interest)
    requires 1 <= size && Distinct(Run(polls, size).arrived)
    ensures (forall m :: 0 <= m <= |polls| ==> InOrder(Run(polls[..m], size), w)) <==> NothingOvertakes(polls, size, w)
  {
    hide Run, InOrder, Harmless;
    if NothingOvertakes(polls, size, w) {
      forall m | 0 <= m <= |polls| ensures InOrder(Run(polls[..m], size), w) {
        PrefixOvertakes(polls, m, size, w);
        DeliveredInOrder(polls[..m], size, w);
      }
    } else {
      var k :| 0 <= k < |polls| && !Harmless(Run(polls[..k], size), polls[k], w);
      if InOrder(Run(polls[..k], size), w) {
        RunConserves(polls[..k], size);
        ArrivedGrows(polls, k, size);
        HarmfulStep(Run(polls[..k], size), polls[k], size, w);
        RunSplits(polls, k, size);
      }
    }
  }

  // ----- a run in which it happens

  /** Two notifications for one subscription arrive while another is polled; then one refusal, two polls. */
  function Refusal(a: Incoming, b: Incoming, other: Interest, w: Interest): seq<Poll> {
    [Poll(other, Some(a), true), Poll(other, Some(b), true), Poll(w, None, false), Poll(w, None, true),
     Poll(w, None, true)]
  }

  /** The older notification is handed over last. */
  lemma RefusalReorders(a: Incoming, b: Incoming, other: Interest, w: Interest, size: nat)
    requires 2 <= size && a != b && a.news.confirmed && b.news.confirmed
    requires Matches(w, a) && Matches(w, b) && !Matches(other, a) && !Matches(other, b)
    ensures var t := Run(Refusal(a, b, other, w), size);
            t.arrived == [a, b] && DeliveredTo(t.delivered, w) == [b, a] && t.pending == [] && !InOrder(t, w)
  {
    hide Matches, DeliveredTo, Subsequence, Step;
    var polls := Refusal(a, b, other, w);
    var t := Traffic([b, a], [a, b], [], []);
    Arrivals(a, b, other, w, size);
    Handovers(t, a, b, w, size);
    var d := [Delivery(w, b), Delivery(w, a)];
    RunSplits(polls, 0, size);
    RunSplits(polls, 1, size);
    RunSplits(polls, 2, size);
    RunSplits(polls, 3, size);
    RunSplits(polls, 4, size);
    assert polls[..5] == polls;
    InReverse(a, b, w, Traffic([], [a, b], d, []));
  }

  lemma Arrivals(a: Incoming, b: Incoming, other: Interest, w: Interest, size: nat)
    requires 2 <= size && a != b && a.news.confirmed && b.news.confirmed
    requires Matches(w, a) && Matches(w, b) && !Matches(other, a) && !Matches(other, b)
    ensures Step(Traffic([], [], [], []), Poll(other, Some(a), true), size) == Traffic([a], [a], [], [])
    ensures Step(Traffic([a], [a], [], []), Poll(other, Some(b), true), size) == Traffic([a, b], [a, b], [], [])
    ensures Step(Traffic([a, b], [a, b], [], []), Poll(w, None, false), size) == Traffic([b, a], [a, b], [], [])
  {
    hide Matches;
  }

  lemma Handovers(t: Traffic, a: Incoming, b: Incoming, w: Interest, size: nat)
    requires 1 <= size && Matches(w, a) && Matches(w, b) && t == Traffic([b, a], [a, b], [], [])
    ensures Step(t, Poll(w, None, true), size) == Traffic([a], [a, b], [Delivery(w, b)], [])
    ensures Step(Traffic([a], [a, b], [Delivery(w, b)], []), Poll(w, None, true), size)
            == Traffic([], [a, b], [Delivery(w, b), Delivery(w, a)], [])
  {
    hide Matches;
  }

  lemma InReverse(a: Incoming, b: Incoming, w: Interest, t: Traffic)
    requires a != b && t == Traffic([], [a, b], [Delivery(w, b), Delivery(w, a)], [])
    ensures DeliveredTo(t.delivered, w) == [b, a] && !InOrder(t, w)
  {
    hide Matches;
    DeliveredStep([Delivery(w, b)], Delivery(w, a), w);
    DeliveredStep([], Delivery(w, b), w);
    assert [Delivery(w, b)] + [Delivery(w, a)] == t.delivered;
    assert [] + [Delivery(w, b)] == [Delivery(w, b)];
    var none: seq<Incoming> := [];
    assert [b, a] + Matching(t.pending, w) == [b, a];
    if Subsequence([b, a], [a, b]) {
      var u, v := Positions([b, a], [a, b], 0, 1);
    }
  }
}
