/**
 A client program: sessions, jobs and subscriptions made by their constructors and driven by any
 sequence of calls. Whatever it does, at most one transaction is outstanding in every session.
 */
module SessionLifecycle {
  import opened BacnetTypes
  import opened ScanMachine
  import opened DeviceSession
  import opened SubscriptionEvents

  /** What a program has made. */
  datatype Cast = Cast(
    sessions: seq<Session>, scans: seq<ObjectListScanJob>, readJobs: seq<PropertyReadJob>, subs: seq<Subscription>)

  ghost function Everything(w: Cast): Registry {
    Registry(set s | s in w.sessions, set j | j in w.scans, set j | j in w.readJobs, set b | b in w.subs)
  }

  predicate Apart(s: Session, t: Session) {
    s.cache != t.cache && s.cache.slots != t.cache.slots && s.cache.used != t.cache.used && s.inbox != t.inbox &&
    s.inbox.slots != t.inbox.slots
  }

  ghost predicate Owns(s: Session, things: set<object>) {
    s in things && s.cache in things && s.cache.slots in things && s.cache.used in things && s.inbox in things &&
    s.inbox.slots in things
  }

  /** No session shares its cache or inbox, and no scan its result buffer. */
  ghost predicate Separate(w: Cast, things: set<object>)
    reads w.scans
  {
    (forall s <- w.sessions :: Owns(s, things)) &&
    (forall s, t :: s in w.sessions && t in w.sessions && s != t ==> Apart(s, t)) &&
    (forall j <- w.scans :: j in things && (j.results != null ==> j.results in things)) &&
    (forall j <- w.readJobs :: j in things) && (forall b <- w.subs :: b in things) &&
    (forall j, k :: j in w.scans && k in w.scans && j != k ==> j.results == null || j.results != k.results)
  }

  /** `things` holds every object there is, with the caches, inboxes and result buffers. */
  ghost predicate Good(w: Cast, things: set<object>)
    reads w.sessions, w.scans, w.readJobs, w.subs, things
  {
    Separate(w, things) && Sound(Everything(w)) &&
    (forall s <- w.sessions :: s.Ready() && s.Listens()) &&
    (forall j <- w.scans :: j.Valid()) && (forall b <- w.subs :: b.Valid())
  }

  lemma NothingIsGood()
    ensures Good(Cast([], [], [], []), {})
  {
    EmptyIsSound();
    assert Everything(Cast([], [], [], [])) == Registry({}, {}, {}, {});
  }

  // ----- making

  method Open(
    w: Cast, deviceInstance: uint32, endpoint: Endpoint, cacheSize: nat, inboxSize: nat, ghost things: set<object>)
    returns (s: Session, ghost grown: set<object>)
    requires Good(w, things) && 1 <= cacheSize && 1 <= inboxSize
    ensures Good(w.(sessions := w.sessions + [s]), grown) && fresh(grown - things)
  {
    hide Sound, Session.Ready, Session.Listens, ObjectListScanJob.Valid, Subscription.Valid;
    s := new Session(deviceInstance, endpoint, cacheSize, inboxSize);
    NewSessionIsSound(Everything(w), s);
    grown := things + {s, s.cache, s.cache.slots, s.cache.used, s.inbox, s.inbox.slots};
    assert Everything(w.(sessions := w.sessions + [s])) == Everything(w).(sessions := Everything(w).sessions + {s});
  }

  method MakeScan(w: Cast, ghost things: set<object>) returns (job: ObjectListScanJob)
    requires Good(w, things)
    ensures fresh(job) && Good(w.(scans := w.scans + [job]), things + {job})
  {
    hide Sound, Session.Ready, Session.Listens, ObjectListScanJob.Valid, Subscription.Valid;
    job := new ObjectListScanJob();
    NewScanIsSound(Everything(w), job);
    assert Everything(w.(scans := w.scans + [job])) == Everything(w).(scans := Everything(w).scans + {job});
  }

  method MakeRead(w: Cast, ghost things: set<object>) returns (job: PropertyReadJob)
    requires Good(w, things)
    ensures fresh(job) && Good(w.(readJobs := w.readJobs + [job]), things + {job})
  {
    hide Sound, Session.Ready, Session.Listens, ObjectListScanJob.Valid, Subscription.Valid;
    job := new PropertyReadJob();
    NewReadIsSound(Everything(w), job);
    assert Everything(w.(readJobs := w.readJobs + [job])) == Everything(w).(readJobs := Everything(w).readJobs + {job});
  }

  method Subscribe(
    w: Cast, s: Session, request: PropertyRequest, options: SubscribeOptions, listening: bool, now: uint32,
    ghost things: set<object>) returns (sub: Subscription)
    requires Good(w, things) && s in w.sessions
    ensures fresh(sub) && Good(w.(subs := w.subs + [sub]), things + {sub})
  {
    hide Sound, Session.Ready, Session.Listens, ObjectListScanJob.Valid, Subscription.Valid;
    sub := new Subscription(s, request, options, listening, now);
    NewSubscriptionIsSound(Everything(w), sub);
    assert Everything(w.(subs := w.subs + [sub])) == Everything(w).(subs := Everything(w).subs + {sub});
  }

  /** A subscription moved into a new one. */
  method MoveOut(w: Cast, from: Subscription, ghost things: set<object>) returns (sub: Subscription)
    requires Good(w, things) && from in w.subs
    modifies things
    ensures fresh(sub) && Good(w.(subs := w.subs + [sub]), things + {sub})
  {
    hide Sound, Session.Ready, Session.Listens, ObjectListScanJob.Valid, Subscription.Valid, Subscription.MovedTo,
         AtMostOne;
    sub := new Subscription.Moved(from, Everything(w));
    ghost var w' := w.(subs := w.subs + [sub]);
    assert Everything(w') == Everything(w).(subs := Everything(w).subs + {sub});
    assert Separate(w', things + {sub});
    assert forall s <- w.sessions :: s.Ready() && s.Listens();
    assert forall j <- w.scans :: j.Valid();
    forall b <- w'.subs ensures b.Valid() {
      assert b == sub || b in w.subs;
    }
  }

  // ----- scans and reads

  method BeginScan(
    w: Cast, s: Session, job: ObjectListScanJob, options: ScanOptions, capacity: nat, now: uint32,
    ghost things: set<object>) returns (ghost grown: set<object>)
    requires Good(w, things) && s in w.sessions && job in w.scans
    modifies things
    ensures Good(w, grown) && fresh(grown - things)
  {
    hide Sound, Session.Ready, Session.Listens, ObjectListScanJob.Valid, Subscription.Valid, Session.ScanPolled,
         Session.ReadPolled, Session.SubscriptionPolled, Session.Awaited, Session.TapeOf;
    var results := new ScannedObject[capacity](i => Scanned(ObjectId(0, 0)));
    var started := s.BeginObjectListScan(job, options, results, capacity, now, Everything(w));
    grown := things + {results};
    forall t <- w.sessions ensures t.Ready() && t.Listens() {
      assert t != s ==> Apart(t, s);
    }
    forall j <- w.scans ensures j.Valid() {
      assert j != job ==> j.results == null || j.results != old(job.results);
    }
    assert Separate(w, grown) && forall b <- w.subs :: b.Valid();
  }

  method PollScan(w: Cast, s: Session, job: ObjectListScanJob, now: uint32, ghost things: set<object>)
    requires Good(w, things) && s in w.sessions && job in w.scans
    modifies things
    ensures Good(w, things)
  {
    hide Sound, Session.Ready, Session.Listens, ObjectListScanJob.Valid, Subscription.Valid, Session.ScanPolled,
         Session.ReadPolled, Session.SubscriptionPolled, Session.Awaited, Session.TapeOf;
    s.PollObjectListScan(job, now, Everything(w));
    forall t <- w.sessions ensures t.Ready() && t.Listens() {
      assert t != s ==> Apart(t, s);
    }
    forall j <- w.scans ensures j.Valid() {
      assert j != job ==> j.results == null || j.results != old(job.results);
    }
  }

  method CancelScan(w: Cast, s: Session, job: ObjectListScanJob, ghost things: set<object>)
    requires Good(w, things) && s in w.sessions && job in w.scans
    modifies things
    ensures Good(w, things)
  {
    hide Sound, Session.Ready, Session.Listens, ObjectListScanJob.Valid, Subscription.Valid, Session.ScanPolled,
         Session.ReadPolled, Session.SubscriptionPolled, Session.Awaited, Session.TapeOf;
    s.CancelObjectListScan(job, Everything(w));
  }

  method BeginRead(
    w: Cast, s: Session, job: PropertyReadJob, request: PropertyRequest, timeout: uint32, now: uint32,
    ghost things: set<object>)
    requires Good(w, things) && s in w.sessions && job in w.readJobs
    modifies things
    ensures Good(w, things)
  {
    hide Sound, Session.Ready, Session.Listens, ObjectListScanJob.Valid, Subscription.Valid, Session.ScanPolled,
         Session.ReadPolled, Session.SubscriptionPolled, Session.Awaited, Session.TapeOf;
    var started := s.BeginPropertyRead(job, request, timeout, now, Everything(w));
    forall t <- w.sessions ensures t.Ready() && t.Listens() {
      assert t != s ==> Apart(t, s);
    }
  }

  method PollRead(w: Cast, s: Session, job: PropertyReadJob, now: uint32, ghost things: set<object>)
    requires Good(w, things) && s in w.sessions && job in w.readJobs
    modifies things
    ensures Good(w, things)
  {
    hide Sound, Session.Ready, Session.Listens, ObjectListScanJob.Valid, Subscription.Valid, Session.ScanPolled,
         Session.ReadPolled, Session.SubscriptionPolled, Session.Awaited, Session.TapeOf;
    s.PollPropertyRead(job, now, Everything(w));
    forall t <- w.sessions ensures t.Ready() && t.Listens() {
      assert t != s ==> Apart(t, s);
    }
  }

  method CancelRead(w: Cast, s: Session, job: PropertyReadJob, ghost things: set<object>)
    requires Good(w, things) && s in w.sessions && job in w.readJobs
    modifies things
    ensures Good(w, things)
  {
    hide Sound, Session.Ready, Session.Listens, ObjectListScanJob.Valid, Subscription.Valid, Session.ScanPolled,
         Session.ReadPolled, Session.SubscriptionPolled, Session.Awaited, Session.TapeOf;
    s.CancelPropertyRead(job, Everything(w));
  }

  // ----- subscriptions

  method Poll(w: Cast, s: Session, sub: Subscription, now: uint32, ghost things: set<object>)
    requires Good(w, things) && s in w.sessions && sub in w.subs
    modifies things
    ensures Good(w, things)
  {
    hide Sound, Session.Ready, Session.Listens, ObjectListScanJob.Valid, Subscription.Valid, Session.ScanPolled,
         Session.ReadPolled, Session.SubscriptionPolled, Session.Awaited, Session.TapeOf;
    SoundAt(Everything(w), s);
    s.PollSubscription(sub, now, Everything(w));
    forall t <- w.sessions ensures t.Ready() && t.Listens() {
      assert t != s ==> Apart(t, s);
    }
  }

  method PollAll(w: Cast, s: Session, now: uint32, ghost things: set<object>)
    requires Good(w, things) && s in w.sessions
    modifies things
    ensures Good(w, things)
  {
    hide Sound, Session.Ready, Session.Listens, ObjectListScanJob.Valid, Subscription.Valid, Session.ScanPolled,
         Session.ReadPolled, Session.SubscriptionPolled, Session.Awaited, Session.TapeOf;
    SoundAt(Everything(w), s);
    s.PollSubscriptions(w.subs, now, Everything(w));
    forall t <- w.sessions ensures t.Ready() && t.Listens() {
      assert t != s ==> Apart(t, s);
    }
  }

  /** Whatever is outstanding in a session. */
  method PollSession(w: Cast, s: Session, now: uint32, ghost things: set<object>)
    requires Good(w, things) && s in w.sessions
    modifies things
    ensures Good(w, things)
  {
    hide Sound, Session.Ready, Session.Listens, ObjectListScanJob.Valid, Subscription.Valid, Session.ScanPolled,
         Session.ReadPolled, Session.SubscriptionPolled, Session.Awaited, Session.TapeOf;
    SoundAt(Everything(w), s);
    ghost var job := s.inFlightScan;
    s.PollInFlight(now, Everything(w));
    forall t <- w.sessions ensures t.Ready() && t.Listens() {
      assert t != s ==> Apart(t, s);
    }
    forall j <- w.scans ensures j.Valid() {
      assert j != job ==> j.results == null || job == null || j.results != old(job.results);
    }
  }

  method Refresh(w: Cast, sub: Subscription, ghost things: set<object>)
    requires Good(w, things) && sub in w.subs
    modifies things
    ensures Good(w, things)
  {
    hide Session.Ready, Session.Listens, ObjectListScanJob.Valid, Subscription.Valid;
    sub.RequestRefresh();
  }

  method Stop(w: Cast, sub: Subscription, ghost things: set<object>)
    requires Good(w, things) && sub in w.subs
    modifies things
    ensures Good(w, things)
  {
    hide Sound, Session.Ready, Session.Listens, ObjectListScanJob.Valid, Subscription.Valid, Session.ScanPolled,
         Session.ReadPolled, Session.SubscriptionPolled, Session.Awaited, Session.TapeOf;
    sub.Stop(Everything(w));
  }

  method Move(w: Cast, sub: Subscription, from: Subscription, ghost things: set<object>)
    requires Good(w, things) && sub in w.subs && from in w.subs
    modifies things
    ensures Good(w, things)
  {
    hide Sound, Session.Ready, Session.Listens, ObjectListScanJob.Valid, Subscription.Valid, Subscription.MovedTo,
         AtMostOne;
    sub.MoveFrom(from, Everything(w));
    assert forall s <- w.sessions :: s.Ready() && s.Listens();
    assert forall j <- w.scans :: j.Valid();
    assert forall b <- w.subs :: b.Valid();
    assert Separate(w, things);
  }

  // ----- any sequence of calls

  /** A call names what it is about by its place in the order of making; a place not yet filled is no call. */
  datatype Call =
    | OpenSession(deviceInstance: uint32, endpoint: Endpoint, cacheSize: nat, inboxSize: nat)
    | NewScan
    | NewRead
    | NewSubscription(session: nat, request: PropertyRequest, wishes: SubscribeOptions, listening: bool)
    | ScanBegin(session: nat, job: nat, options: ScanOptions, capacity: nat)
    | ScanPoll(session: nat, job: nat)
    | ScanCancel(session: nat, job: nat)
    | ReadBegin(session: nat, job: nat, request: PropertyRequest, timeout: uint32)
    | ReadPoll(session: nat, job: nat)
    | ReadCancel(session: nat, job: nat)
    | SubscriptionPoll(session: nat, sub: nat)
    | SubscriptionsPoll(session: nat)
    | AnyPoll(session: nat)
    | SubscriptionRefresh(sub: nat)
    | SubscriptionStop(sub: nat)
    | SubscriptionMove(sub: nat, from: nat)
    | SubscriptionMoveOut(from: nat)

  method Make(w: Cast, c: Call, now: uint32, ghost things: set<object>) returns (w': Cast, ghost grown: set<object>)
    requires Good(w, things)
    modifies things
    ensures Good(w', grown) && fresh(grown - things)
  {
    hide Good;
    w', grown := w, things;
    match c
    case OpenSession(deviceInstance, endpoint, cacheSize, inboxSize) =>
      if 1 <= cacheSize && 1 <= inboxSize {
        var s;
        s, grown := Open(w, deviceInstance, endpoint, cacheSize, inboxSize, things);
        w' := w.(sessions := w.sessions + [s]);
      }
    case NewScan =>
      var job := MakeScan(w, things);
      w', grown := w.(scans := w.scans + [job]), things + {job};
    case NewRead =>
      var job := MakeRead(w, things);
      w', grown := w.(readJobs := w.readJobs + [job]), things + {job};
    case NewSubscription(i, request, wishes, listening) =>
      if i < |w.sessions| {
        var sub := Subscribe(w, w.sessions[i], request, wishes, listening, now, things);
        w', grown := w.(subs := w.subs + [sub]), things + {sub};
      }
    case SubscriptionMoveOut(i) =>
      if i < |w.subs| {
        var sub := MoveOut(w, w.subs[i], things);
        w', grown := w.(subs := w.subs + [sub]), things + {sub};
      }
    case _ =>
  }

  method Work(w: Cast, c: Call, now: uint32, ghost things: set<object>) returns (ghost grown: set<object>)
    requires Good(w, things)
    modifies things
    ensures Good(w, grown) && fresh(grown - things)
  {
    hide Good;
    grown := things;
    match c
    case ScanBegin(i, k, options, capacity) =>
      if i < |w.sessions| && k < |w.scans| {
        grown := BeginScan(w, w.sessions[i], w.scans[k], options, capacity, now, things);
      }
    case ScanPoll(i, k) =>
      if i < |w.sessions| && k < |w.scans| {
        PollScan(w, w.sessions[i], w.scans[k], now, things);
      }
    case ScanCancel(i, k) =>
      if i < |w.sessions| && k < |w.scans| {
        CancelScan(w, w.sessions[i], w.scans[k], things);
      }
    case ReadBegin(i, k, request, timeout) =>
      if i < |w.sessions| && k < |w.readJobs| {
        BeginRead(w, w.sessions[i], w.readJobs[k], request, timeout, now, things);
      }
    case ReadPoll(i, k) =>
      if i < |w.sessions| && k < |w.readJobs| {
        PollRead(w, w.sessions[i], w.readJobs[k], now, things);
      }
    case ReadCancel(i, k) =>
      if i < |w.sessions| && k < |w.readJobs| {
        CancelRead(w, w.sessions[i], w.readJobs[k], things);
      }
    case _ =>
  }

  method Serve(w: Cast, c: Call, now: uint32, ghost things: set<object>)
    requires Good(w, things)
    modifies things
    ensures Good(w, things)
  {
    hide Good;
    match c
    case SubscriptionPoll(i, k) =>
      if i < |w.sessions| && k < |w.subs| {
        Poll(w, w.sessions[i], w.subs[k], now, things);
      }
    case SubscriptionsPoll(i) =>
      if i < |w.sessions| {
        PollAll(w, w.sessions[i], now, things);
      }
    case AnyPoll(i) =>
      if i < |w.sessions| {
        PollSession(w, w.sessions[i], now, things);
      }
    case SubscriptionRefresh(k) =>
      if k < |w.subs| {
        Refresh(w, w.subs[k], things);
      }
    case SubscriptionStop(k) =>
      if k < |w.subs| {
        Stop(w, w.subs[k], things);
      }
    case SubscriptionMove(k, i) =>
      if k < |w.subs| && i < |w.subs| {
        Move(w, w.subs[k], w.subs[i], things);
      }
    case _ =>
  }

  /**
   From nothing, through any sequence of calls at any times: no session ever has two transactions
   outstanding, every job is where its replies lead, every callback knows what its subscription knows.
   */
  method Drive(calls: seq<(Call, uint32)>) returns (w: Cast, ghost things: set<object>)
    ensures Good(w, things)
    ensures forall s <- w.sessions :: AtMostOne(s)
    ensures forall j <- w.scans ::
              j.Valid() && (j.status.JobActive? <==> j.session != null && j.session.inFlightScan == j)
    ensures forall b <- w.subs :: b.listening ==> Informed(b.heard, b.Knows(), b.options.notifyOnStatusChange)
  {
    hide Sound;
    w, things := Cast([], [], [], []), {};
    NothingIsGood();
    for i := 0 to |calls|
      invariant Good(w, things) && fresh(things)
    {
      hide Good;
      var (c, now) := calls[i];
      w, things := Make(w, c, now, things);
      things := Work(w, c, now, things);
      Serve(w, c, now, things);
    }
    GoodIsSound(w, things);
  }

  lemma GoodIsSound(w: Cast, things: set<object>)
    requires Good(w, things)
    ensures forall s <- w.sessions :: AtMostOne(s)
    ensures forall j <- w.scans ::
              j.Valid() && (j.status.JobActive? <==> j.session != null && j.session.inFlightScan == j)
    ensures forall b <- w.subs :: b.listening ==> Informed(b.heard, b.Knows(), b.options.notifyOnStatusChange)
  {}
}
