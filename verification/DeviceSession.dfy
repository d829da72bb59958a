/** A client's session with one device: scans, reads and subscriptions over one transaction at a time. */
module DeviceSession {
  import opened BacnetTypes
  import opened ApplicationValue
  import opened ReadStatus
  import opened PropertyCache
  import opened ScanMachine
  import opened ScanRuns
  import opened WrappingClock
  import opened CovInbox
  import opened SessionWire
  import Messages = CovMessages
  import opened SubscriptionEvents
  import RoundRobin
  import Traffic = CovTraffic

  class ObjectListScanJob {
    var session: Session?
    var options: ScanOptions
    var results: array?<ScannedObject>
    var resultCapacity: nat
    var result: ScanResult
    var status: JobStatus
    var phase: Phase
    var currentIndex: uint32
    var maxIndex: uint32
    var requestInFlight: bool
    var invokeId: uint8
    var startedAt: uint32
    var request: PropertyRequest
    var currentStoreIndex: nat
    var hasCurrentStoreIndex: bool
    /** The finished requests of this scan. */
    ghost var log: Log

    constructor ()
      ensures status.JobIdle? && session == null && results == null && Valid()
    {
      session, results, resultCapacity := null, null, 0;
      options := ScanOptions([], 0, 0, false, false, false);
      result := ScanResult(DeviceSkipped, 0, 0, 0, 0, false);
      status, phase, currentIndex, maxIndex := JobIdle, Idle, 0, 0;
      requestInFlight, invokeId, startedAt := false, 0, 0;
      request := PropertyRequest(ObjectId(DEVICE, 0), OBJECT_LIST, 0);
      currentStoreIndex, hasCurrentStoreIndex := 0, false;
      log := [];
    }

    method Expect(request: PropertyRequest, phase: Phase)
      requires Fits()
      modifies `phase, `request
      ensures Fits() && View() == old(View()).(phase := phase) && this.request == request
    {
      this.phase, this.request := phase, request;
    }

    method CountFailed(status: DeviceReadStatus)
      requires Fits()
      modifies `result
      ensures Fits()
      ensures View() == old(View()).(result := if old(result).countStatus.DeviceSkipped?
                                               then old(result).(countStatus := status) else old(result))
    {
      if result.countStatus.DeviceSkipped? {
        result := result.(countStatus := status);
      }
    }

    method End(status: JobStatus, phase: Phase)
      requires Fits()
      modifies `status, `phase
      ensures Fits() && View() == old(View()).(status := status, phase := phase)
      ensures this.status == status
    {
      this.status, this.phase := status, phase;
    }

    /** From now on the job waits for its request. */
    method Launch(id: uint8, now: uint32)
      requires session != null && status.JobActive? && Follows(session.device)
      requires request == RequestOf(View(), session.device) && id != 0
      modifies `invokeId, `startedAt, `requestInFlight
      ensures Valid() && status.JobActive? && startedAt == now && invokeId == id
    {
      hide View, Replay, RequestOf, Issued;
      invokeId, startedAt, requestInFlight := id, now, true;
    }

    method Clear()
      modifies this
      ensures session == null && results == null && resultCapacity == 0 && log == [] && !requestInFlight
      ensures result == ScanResult(DeviceSkipped, 0, 0, 0, 0, false) && !hasCurrentStoreIndex
      ensures currentIndex == 0 && maxIndex == 0
    {
      session, results, resultCapacity, log := null, null, 0, [];
      options := ScanOptions([], 0, 0, false, false, false);
      result := ScanResult(DeviceSkipped, 0, 0, 0, 0, false);
      currentIndex, maxIndex, hasCurrentStoreIndex, requestInFlight := 0, 0, false, false;
      ClearRest();
    }

    method ClearRest()
      modifies `status, `phase, `invokeId, `startedAt, `request, `currentStoreIndex
    {
      status, phase, currentStoreIndex := JobIdle, Idle, 0;
      invokeId, startedAt, request := 0, 0, PropertyRequest(ObjectId(DEVICE, 0), OBJECT_LIST, 0);
    }

    /** Without a result buffer there is no room at all. */
    ghost function Capacity(): nat
      reads `results, `resultCapacity
    {
      if results == null then 0 else resultCapacity
    }

    ghost predicate Fits()
      reads `results, `resultCapacity, `result, `hasCurrentStoreIndex, `currentStoreIndex
    {
      (results != null ==> resultCapacity <= results.Length) && result.stored <= Capacity() &&
      (hasCurrentStoreIndex ==> currentStoreIndex < result.stored)
    }

    ghost function View(): (s: Scan)
      reads `results, `resultCapacity, `result, `hasCurrentStoreIndex, `currentStoreIndex
      reads `status, `phase, `currentIndex, `maxIndex, results
      requires Fits()
      ensures s.storing.Some? ==> s.storing.value < |s.objects|
      ensures s.result == result
    {
      Scan(status, phase, result, currentIndex, maxIndex,
           if hasCurrentStoreIndex then Some(currentStoreIndex) else None,
           if results == null then [] else results[..result.stored])
    }

    /** The job is where its finished requests lead. */
    ghost predicate Follows(target: ObjectId)
      reads `results, `resultCapacity, `result, `hasCurrentStoreIndex, `currentStoreIndex
      reads `status, `phase, `currentIndex, `maxIndex, `options, `log, results
    {
      Fits() && Issued(log, options, Capacity(), target) && View() == Replay(log, options, Capacity())
    }

    /** An active scan always waits for the request its finished ones lead to. */
    ghost predicate Valid()
      reads this, results
    {
      (requestInFlight <==> status.JobActive?) &&
      (status.JobActive? ==>
         session != null && Follows(session.device) && request == RequestOf(View(), session.device)) &&
      (status.JobComplete? || status.JobFailed? ==> session != null && Follows(session.device))
    }

    /** A step of this scan in its session, with everything else left alone. */
    twostate lemma KeepsSound(r: Registry)
      requires old(Sound(r)) && this in r.scans && session != null && session in r.sessions
      requires forall x <- r.sessions :: x != session ==> SessionKept(x)
      requires forall x <- r.scans :: x != this ==> ScanKept(x)
      requires forall x <- r.readJobs :: ReadKept(x)
      requires forall x <- r.subs :: SubscriptionKept(x)
      requires session.inFlightRead == session.Before().read
      requires session.inFlightSubscription == session.Before().subscription
      requires session.Before().scan == this ||
               (session.Before() == Pointers(null, null, null) && !old(status.JobActive?))
      requires session.inFlightScan == if status.JobActive? then this else null
      ensures Sound(r)
    {}
  }

  class PropertyReadJob {
    var session: Session?
    var status: JobStatus
    var request: PropertyRequest
    var readStatus: PropertyReadStatus
    var value: WireValue
    var errorClass: uint32
    var errorCode: uint32
    var timeout: uint32
    var invokeId: uint8
    var startedAt: uint32

    constructor ()
      ensures status.JobIdle? && session == null
    {
      session, status, request := null, JobIdle, PropertyRequest(ObjectId(DEVICE, 0), OBJECT_NAME, NO_ARRAY_INDEX);
      readStatus, value, errorClass, errorCode := Busy, Empty, 0, 0;
      timeout, invokeId, startedAt := 0, 0, 0;
    }

    /** Clears the job and makes it active in a session. */
    method Reset(session: Session, request: PropertyRequest, timeout: uint32)
      modifies this
      ensures this.session == session && status.JobActive? && this.request == request && this.timeout == timeout
    {
      this.session, status, this.request, this.timeout := session, JobActive, request, timeout;
      readStatus, value, errorClass, errorCode, invokeId, startedAt := Busy, Empty, 0, 0, 0, 0;
    }

    /** A step of this read in its session, with everything else left alone. */
    twostate lemma KeepsSound(r: Registry)
      requires old(Sound(r)) && this in r.readJobs && session != null && session in r.sessions
      requires forall x <- r.sessions :: x != session ==> SessionKept(x)
      requires forall x <- r.scans :: ScanKept(x)
      requires forall x <- r.readJobs :: x != this ==> ReadKept(x)
      requires forall x <- r.subs :: SubscriptionKept(x)
      requires session.inFlightScan == session.Before().scan
      requires session.inFlightSubscription == session.Before().subscription
      requires session.Before().read == this ||
               (session.Before() == Pointers(null, null, null) && !old(status.JobActive?))
      requires session.inFlightRead == if status.JobActive? then this else null
      ensures Sound(r)
    {}
  }

  datatype SubscribeOptions = SubscribeOptions(
    fallbackPoll: uint32, timeout: uint32, lifetime: uint32, renewBefore: uint32,
    preferCov: bool, immediateFirstRead: bool, notifyOnStatusChange: bool,
    usePropertyCov: bool, confirmed: bool, increment: Option<uint32>)

  /** When to ask for change-of-value service again after it was refused. */
  function RetryAt(o: SubscribeOptions, now: uint32): uint32 {
    var delay: nat := if o.renewBefore != 0 then o.renewBefore else 1;
    Wrap(now + delay * 1000)
  }

  /** How long service is used before it is renewed, in seconds. */
  function RenewSeconds(o: SubscribeOptions): uint32 {
    if o.lifetime > o.renewBefore then o.lifetime - o.renewBefore else o.lifetime
  }

  function RenewAt(o: SubscribeOptions, now: uint32): uint32 {
    Wrap(now + RenewSeconds(o) * 1000)
  }

  /**
   The renewal is judged exactly, and falls due before the lifetime ends if and only if it is
   planned for some time before the end and not for longer than the lifetime.
   */
  lemma RenewalIsBeforeEndIff(o: SubscribeOptions, time: nat)
    requires 1 <= o.lifetime <= MAX_EXACT_LIFETIME
    ensures RenewAt(o, Wrap(time)) == Wrap(time + 1000 * RenewSeconds(o)) && JudgesDelay(time, 1000 * RenewSeconds(o))
    ensures Reached(Wrap(time + 1000 * o.lifetime - 1), RenewAt(o, Wrap(time))) <==> 0 < o.renewBefore < o.lifetime
  {
    WrapOfSum(time, 1000 * RenewSeconds(o));
    LifetimeJudgedIff(time, RenewSeconds(o));
    ReachedIsExact(time + 1000 * o.lifetime - 1, time + 1000 * RenewSeconds(o));
  }

  datatype Operation = NoOperation | PollOperation | SubscribeOperation

  const DEFAULT_TIMEOUT: uint32 := 1000

  /** What a subscription knows, and what its callback was told. */
  datatype Memory = Memory(
    hasValue: bool, lastValue: WireValue, hasStatus: bool, lastStatus: DeviceReadStatus, lastUpdate: uint32,
    lastReasons: Reasons, listening: bool, heard: seq<SubscriptionEvent>)

  /** What a subscription has yet to do. */
  datatype Plan = Plan(
    refreshRequested: bool, initialReadPending: bool, nextPollAt: uint32, covActive: bool, covFallback: bool,
    covRenewAt: uint32, processId: Option<uint32>)

  /** Whether a plan calls for a poll now: for the renewal of a service, a refresh, a first or a regular read. */
  predicate Planned(p: Plan, o: SubscribeOptions, now: uint32) {
    if p.covActive then Reached(now, p.covRenewAt)
    else p.refreshRequested || p.initialReadPending || (o.fallbackPoll != 0 && Reached(now, p.nextPollAt))
  }

  /** Whether change-of-value service is to be asked for: not before its renewal or retry time. */
  predicate ServicePlanned(p: Plan, o: SubscribeOptions, now: uint32) {
    o.preferCov && !((p.covFallback || p.covActive) && !Reached(now, p.covRenewAt))
  }

  /** Service is asked for when it is wanted, and after an answer not before the time planned then. */
  lemma ServicePlannedIff(p: Plan, o: SubscribeOptions, answered: nat, delay: nat, now: nat)
    requires delay <= HALF && answered <= now < answered + delay + HALF
    requires p.covFallback || p.covActive ==> p.covRenewAt == Wrap(answered + delay)
    ensures ServicePlanned(p, o, Wrap(now))
            <==> o.preferCov && (p.covFallback || p.covActive ==> answered + delay <= now)
  {
    DelayJudgedIff(answered, delay);
  }

  /**
   A retry is planned the renewal margin ahead of time, or one second when there is no margin, and is
   judged exactly if and only if that is at most 2147483 s.
   */
  lemma RetryIsAheadIff(o: SubscribeOptions, refused: nat)
    ensures var delay := if o.renewBefore == 0 then 1000 else 1000 * o.renewBefore;
            RetryAt(o, Wrap(refused)) == Wrap(refused + delay) &&
            (JudgesDelay(refused, delay) <==> o.renewBefore <= MAX_EXACT_LIFETIME)
  {
    var delay := if o.renewBefore == 0 then 1000 else 1000 * o.renewBefore;
    WrapOfSum(refused, delay);
    DelayJudgedIff(refused, delay);
  }

  /** While it is served a subscription is due exactly for its renewal. */
  lemma RenewalDueIff(p: Plan, o: SubscribeOptions, accepted: nat, now: nat)
    requires p.covActive && p.covRenewAt == RenewAt(o, Wrap(accepted)) && RenewSeconds(o) <= MAX_EXACT_LIFETIME
    requires accepted <= now < accepted + 1000 * RenewSeconds(o) + HALF
    ensures Planned(p, o, Wrap(now)) <==> accepted + 1000 * RenewSeconds(o) <= now
  {
    WrapOfSum(accepted, 1000 * RenewSeconds(o));
    DelayJudgedIff(accepted, 1000 * RenewSeconds(o));
  }

  /** It reads at once when that is pending, and otherwise the regular interval after `since`, or never. */
  ghost predicate ReadsInTime(p: Plan, o: SubscribeOptions, since: nat) {
    forall now: nat :: since <= now < since + o.fallbackPoll + HALF ==>
      (Planned(p, o, Wrap(now)) <==> p.initialReadPending || (0 < o.fallbackPoll && since + o.fallbackPoll <= now))
  }

  /**
   A subscription that is not served, made or last read at `since`, reads in time if and only if a
   read is pending anyway or the regular interval is at most 2^31 ms.
   */
  lemma ReadsInTimeIff(p: Plan, o: SubscribeOptions, since: nat)
    requires !p.covActive && !p.refreshRequested
    requires p.nextPollAt == if o.fallbackPoll == 0 then 0 else Wrap(since + o.fallbackPoll)
    ensures ReadsInTime(p, o, since) <==> p.initialReadPending || o.fallbackPoll <= HALF
  {
    DelayJudgedIff(since, o.fallbackPoll);
    hide Reached, Wrap;
    if ReadsInTime(p, o, since) && !p.initialReadPending && o.fallbackPoll > 0 {
      forall now: nat | since <= now < since + o.fallbackPoll + HALF
        ensures Reached(Wrap(now), Wrap(since + o.fallbackPoll)) <==> since + o.fallbackPoll <= now
      {
        assert Planned(p, o, Wrap(now)) <==> since + o.fallbackPoll <= now;
      }
    }
  }

  /** So a new one reads at once if it is asked to, and otherwise after the regular interval. */
  lemma FirstReadIff(o: SubscribeOptions, created: nat)
    ensures ReadsInTime(FirstPlan(o, Wrap(created)), o, created) <==> o.immediateFirstRead || o.fallbackPoll <= HALF
    ensures FirstPlan(o, Wrap(created)).initialReadPending == o.immediateFirstRead
  {
    WrapOfSum(created, o.fallbackPoll);
    ReadsInTimeIff(FirstPlan(o, Wrap(created)), o, created);
  }

  /** A new subscription reads at once if it is asked to, and otherwise when the first regular read is due. */
  function FirstPlan(o: SubscribeOptions, now: uint32): Plan {
    Plan(false, o.immediateFirstRead, if o.fallbackPoll > 0 then Wrap(now + o.fallbackPoll) else 0, false, false, 0,
         None)
  }

  class Subscription {
    var session: Session?
    var request: PropertyRequest
    var options: SubscribeOptions
    var active: bool
    var inFlight: bool
    var hasValue: bool
    var lastValue: WireValue
    var hasStatus: bool
    var lastStatus: DeviceReadStatus
    var lastUpdate: uint32
    var lastReasons: Reasons
    var refreshRequested: bool
    var initialReadPending: bool
    var nextPollAt: uint32
    var invokeId: uint8
    var startedAt: uint32
    var operation: Operation
    var covActive: bool
    var covFallback: bool
    var covRenewAt: uint32
    var processId: Option<uint32>
    /** Whether there is a callback, and everything it was called with. */
    var listening: bool
    ghost var heard: seq<SubscriptionEvent>

    constructor (
      session: Session, request: PropertyRequest, options: SubscribeOptions, listening: bool, now: uint32)
      ensures this.session == session && active && !inFlight && this.request == request
      ensures this.listening == listening && Valid() && !hasValue
      ensures this.options == if options.timeout == 0 then options.(timeout := DEFAULT_TIMEOUT) else options
      ensures Plans() == FirstPlan(options, now)
    {
      this.session, this.request, this.options := session, request, options;
      if options.timeout == 0 {
        this.options := options.(timeout := DEFAULT_TIMEOUT);
      }
      active, inFlight, hasValue, lastValue := true, false, false, Empty;
      hasStatus, lastStatus, lastUpdate, lastReasons := false, DeviceSkipped, 0, NO_REASONS;
      refreshRequested, initialReadPending := false, options.immediateFirstRead;
      nextPollAt := if options.fallbackPoll > 0 then Wrap(now + options.fallbackPoll) else 0;
      invokeId, startedAt, operation := 0, 0, NoOperation;
      covActive, covFallback, covRenewAt, processId := false, false, 0, None;
      this.listening, heard := listening, [];
    }

    /** Move construction: the new subscription takes the place of another, which is left empty. */
    constructor Moved(other: Subscription, ghost r: Registry)
      requires Sound(r) && other in r.subs
      modifies other, r.sessions`inFlightSubscription
      ensures Sound(r.(subs := r.subs + {this})) && other.MovedTo(this)
      ensures other.Valid() && (old(other.Valid()) ==> Valid())
    {
      session, request, options := null, other.request, other.options;
      active, inFlight, hasValue, lastValue := false, false, false, Empty;
      hasStatus, lastStatus, lastUpdate, lastReasons := false, DeviceSkipped, 0, NO_REASONS;
      refreshRequested, initialReadPending, nextPollAt := false, false, 0;
      invokeId, startedAt, operation := 0, 0, NoOperation;
      covActive, covFallback, covRenewAt, processId := false, false, 0, None;
      listening, heard := false, [];
      new;
      NewSubscriptionIsSound(r, this);
      Adopt(other, r.(subs := r.subs + {this}));
    }

    ghost function Knows(): Known
      reads `hasValue, `lastValue, `hasStatus, `lastStatus
    {
      Known(if hasValue then Some(lastValue) else None, if hasStatus then Some(lastStatus) else None)
    }

    ghost function Remembers(): Memory
      reads `hasValue, `lastValue, `hasStatus, `lastStatus, `lastUpdate, `lastReasons, `listening, `heard
    {
      Memory(hasValue, lastValue, hasStatus, lastStatus, lastUpdate, lastReasons, listening, heard)
    }

    function Plans(): Plan
      reads `refreshRequested, `initialReadPending, `nextPollAt, `covActive, `covFallback, `covRenewAt, `processId
    {
      Plan(refreshRequested, initialReadPending, nextPollAt, covActive, covFallback, covRenewAt, processId)
    }

    /**
     The callback, if there is one, has heard of the value and status held now; and a subscription
     that asked for change-of-value service has its object's process id.
     */
    ghost predicate Valid()
      reads `hasValue, `lastValue, `hasStatus, `lastStatus, `listening, `heard, `request, `options
      reads `processId, `covActive, `operation
    {
      (listening ==> Informed(heard, Knows(), options.notifyOnStatusChange)) &&
      (processId.Some? ==> processId.value == ProcessIdOf(request.objectId)) &&
      (covActive || operation.SubscribeOperation? ==> processId.Some?)
    }

    /** What an outcome makes the callback hear. */
    ghost function Hears(x: Outcome): seq<SubscriptionEvent>
      reads `hasValue, `lastValue, `hasStatus, `lastStatus, `listening, `options
    {
      if listening then Told(Knows(), x, options.notifyOnStatusChange) else []
    }

    function Wants(): Interest
      reads `session, `request, `processId
      requires session != null
    {
      Interest(session.endpoint, processId, request)
    }

    /** The change-of-value service a subscription asks for: by property as its options say, or by object. */
    function Asks(): Messages.SubscribeRequest
      reads this
      requires processId.Some?
    {
      if options.usePropertyCov then
        Messages.SubscribeRequest(processId.value, request.objectId, true, request.property, request.arrayIndex,
                                  options.confirmed, options.lifetime, options.increment)
      else
        Messages.SubscribeRequest(processId.value, request.objectId, false, PRESENT_VALUE, NO_ARRAY_INDEX,
                                  options.confirmed, options.lifetime, None)
    }

    /** The request that a subscription in flight waits for. */
    ghost function Call(): WireEvent
      reads this
      requires operation.SubscribeOperation? ==> processId.Some?
    {
      if operation.SubscribeOperation? then ServiceAsked(Asks(), invokeId, true)
      else ReadAsked(request, invokeId, true)
    }

    predicate IsDue(now: uint32)
      reads this
    {
      active && !inFlight && Planned(Plans(), options, now)
    }

    /** Change-of-value service is wanted, and not to be left alone until the renewal or retry time. */
    predicate CovDue(now: uint32)
      reads this
    {
      active && !inFlight && ServicePlanned(Plans(), options, now)
    }

    /** A request that has waited for its timeout, and was not sent just now. */
    predicate Overdue(now: uint32)
      reads this
    {
      inFlight && startedAt != now && Wrap(now - startedAt) >= options.timeout
    }

    /** A request has gone out for this subscription. */
    method Launch(operation: Operation, invokeId: uint8, now: uint32)
      modifies this`inFlight, this`invokeId, this`startedAt, this`operation
      ensures inFlight && this.invokeId == invokeId && startedAt == now && this.operation == operation
    {
      inFlight, this.invokeId, startedAt, this.operation := true, invokeId, now, operation;
    }

    method ClearInFlight()
      modifies this`inFlight, this`invokeId, this`startedAt, this`operation
      ensures !inFlight && invokeId == 0 && startedAt == 0 && operation == NoOperation
    {
      inFlight, invokeId, startedAt, operation := false, 0, 0, NoOperation;
    }

    /** Compares a finished read or notification with what is known. */
    method Compare(x: Outcome) returns (e: SubscriptionEvent)
      ensures e == Change(Knows(), x, options.notifyOnStatusChange)
    {
      hide SameValue;
      var statusChanged := !hasStatus || lastStatus != x.status;
      var first, changed, value := false, false, if hasValue then Some(lastValue) else None;
      if x.status.DeviceAck? && x.value.Some? {
        first := !hasValue;
        changed := first || !SameValue(lastValue, x.value.value);
        if changed {
          value := x.value;
        }
      }
      e := SubscriptionEvent(x.status, value, first, changed, statusChanged,
                             Reasons(first, changed, statusChanged && options.notifyOnStatusChange), x.properties);
    }

    /** Takes a finished read or notification in, and tells the callback what is different. */
    method TakeOver(x: Outcome, now: uint32)
      modifies this`lastValue, this`hasValue, this`lastStatus, this`hasStatus, this`lastUpdate, this`lastReasons
      modifies this`initialReadPending, this`nextPollAt, this`heard
      ensures Knows() == After(old(Knows()), x) && hasStatus && lastStatus == x.status && lastUpdate == now
      ensures lastReasons == Change(old(Knows()), x, options.notifyOnStatusChange).reasons
      ensures heard == old(heard) + old(Hears(x))
      ensures !initialReadPending
      ensures nextPollAt == if options.fallbackPoll == 0 then 0 else Wrap(now + options.fallbackPoll)
    {
      hide SameValue;
      var e := Compare(x);
      if e.changed {
        lastValue := x.value.value;
      }
      hasValue := e.value.Some?;
      hasStatus, lastStatus, lastUpdate, lastReasons := true, x.status, now, e.reasons;
      if listening && lastReasons != NO_REASONS {
        heard := heard + [e];
      }
      initialReadPending := false;
      nextPollAt := if options.fallbackPoll == 0 then 0 else Wrap(now + options.fallbackPoll);
    }

    method Finish(x: Outcome, now: uint32)
      modifies this`lastValue, this`hasValue, this`lastStatus, this`hasStatus, this`lastUpdate, this`lastReasons
      modifies this`initialReadPending, this`nextPollAt, this`heard
      modifies this`inFlight, this`invokeId, this`startedAt, this`operation
      ensures !inFlight && Knows() == After(old(Knows()), x) && heard == old(heard) + old(Hears(x))
      ensures lastReasons == Change(old(Knows()), x, options.notifyOnStatusChange).reasons
      ensures lastStatus == x.status && lastUpdate == now && !initialReadPending
      ensures nextPollAt == if options.fallbackPoll == 0 then 0 else Wrap(now + options.fallbackPoll)
      ensures old(Valid()) ==> Valid()
    {
      hide Valid, Knows, Hears, Change, After;
      TakeOver(x, now);
      ClearInFlight();
      if old(Valid()) {
        FinishKeepsValid(x);
      }
    }

    method RequestRefresh()
      modifies this`refreshRequested
      ensures refreshRequested == (active || old(refreshRequested)) && (old(Valid()) ==> Valid())
      ensures active && !inFlight ==> forall now :: IsDue(now) <==> !covActive || Reached(now, covRenewAt)
    {
      if active {
        refreshRequested := true;
      }
    }

    /** Stopping lets go of the transaction in flight. */
    method Stop(ghost r: Registry)
      requires Sound(r) && this in r.subs
      modifies this, r.sessions`inFlightSubscription
      ensures Sound(r) && !active && !inFlight && session == old(session) && (old(Valid()) ==> Valid())
    {
      hide Valid, Sound;
      SubscriptionAt(r, this);
      if !active {
        return;
      }
      Release(r);
      label Released:
      active, refreshRequested, initialReadPending := false, false, false;
      RestKeepsSound@Released(r);
    }

    /** Destroys the subscription, or makes room for another moved into it. */
    method Release(ghost r: Registry)
      requires Sound(r) && this in r.subs
      modifies this`inFlight, this`invokeId, this`startedAt, this`operation, r.sessions`inFlightSubscription
      ensures Sound(r) && !inFlight && (old(Valid()) ==> Valid())
      ensures forall s <- r.sessions ::
                s.inFlightSubscription == if s == session && old(s.inFlightSubscription) == this then null
                                          else old(s.inFlightSubscription)
    {
      if session != null && session.inFlightSubscription == this {
        session.inFlightSubscription := null;
      }
      ClearInFlight();
    }

    /** Move assignment: the transaction in flight follows the subscription to its new place. */
    method MoveFrom(other: Subscription, ghost r: Registry)
      requires Sound(r) && this in r.subs && other in r.subs
      modifies this, other, r.sessions`inFlightSubscription
      ensures Sound(r)
      ensures if this == other then unchanged(this) else other.MovedTo(this)
      ensures old(other.Valid()) ==> Valid() && other.Valid()
    {
      if this == other {
        return;
      }
      Release(r);
      Adopt(other, r);
    }

    /** Takes over everything, the transaction in flight included, and leaves the other one empty. */
    method Adopt(other: Subscription, ghost r: Registry)
      requires Sound(r) && this in r.subs && other in r.subs && this != other && !inFlight
      modifies this, other, r.sessions`inFlightSubscription
      ensures Sound(r) && other.MovedTo(this) && other.Valid() && (old(other.Valid()) ==> Valid())
    {
      hide Sound, Remembers, Plans, Valid;
      SubscriptionAt(r, other);
      CopyFrom(other);
      if session != null && session.inFlightSubscription == other {
        session.inFlightSubscription := this;
      }
      other.Vacate();
      other.MoveKeepsSound((this, r));
      if old(other.Valid()) {
        other.MoveKeepsValid(this);
      }
      other.VacantIsValid();
    }

    /** The other subscription is now what this one was, and this one is empty. */
    twostate predicate MovedTo(new other: Subscription)
      reads this, other
    {
      other.session == old(session) && other.request == old(request) && other.options == old(options) &&
      other.active == old(active) && other.inFlight == old(inFlight) && other.invokeId == old(invokeId) &&
      other.startedAt == old(startedAt) && other.operation == old(operation) &&
      other.Remembers() == old(Remembers()) && other.Plans() == old(Plans()) && Vacant()
    }

    predicate Vacant()
      reads this
    {
      session == null && !active && !inFlight && operation.NoOperation? && !hasValue && !listening && !covActive &&
      processId.None?
    }

    method CopyFrom(other: Subscription)
      requires this != other
      modifies this
      ensures session == other.session && request == other.request && active == other.active
      ensures inFlight == other.inFlight && invokeId == other.invokeId && startedAt == other.startedAt
      ensures operation == other.operation && options == other.options
      ensures Remembers() == other.Remembers() && Plans() == other.Plans()
    {
      hide Remembers, Plans;
      CopyIdentity(other);
      CopyInFlight(other);
      CopyValue(other);
      CopyPlan(other);
    }

    method CopyIdentity(other: Subscription)
      requires this != other
      modifies this`session, this`request, this`options, this`active
      ensures session == other.session && request == other.request && active == other.active
      ensures options == other.options
    {
      session, request, options, active := other.session, other.request, other.options, other.active;
    }

    method CopyInFlight(other: Subscription)
      requires this != other
      modifies this`inFlight, this`invokeId, this`startedAt, this`operation
      ensures inFlight == other.inFlight && invokeId == other.invokeId && startedAt == other.startedAt
      ensures operation == other.operation
    {
      inFlight, invokeId, startedAt, operation := other.inFlight, other.invokeId, other.startedAt, other.operation;
    }

    method CopyValue(other: Subscription)
      requires this != other
      modifies this`hasValue, this`lastValue, this`hasStatus, this`lastStatus, this`lastUpdate, this`lastReasons
      modifies this`listening, this`heard
      ensures Remembers() == other.Remembers()
    {
      hasValue, lastValue, hasStatus, lastStatus := other.hasValue, other.lastValue, other.hasStatus, other.lastStatus;
      lastUpdate, lastReasons, listening, heard := other.lastUpdate, other.lastReasons, other.listening, other.heard;
    }

    method CopyPlan(other: Subscription)
      requires this != other
      modifies this`refreshRequested, this`initialReadPending, this`nextPollAt
      modifies this`covActive, this`covFallback, this`covRenewAt, this`processId
      ensures Plans() == other.Plans()
    {
      refreshRequested, initialReadPending := other.refreshRequested, other.initialReadPending;
      nextPollAt, covActive, covFallback := other.nextPollAt, other.covActive, other.covFallback;
      covRenewAt, processId := other.covRenewAt, other.processId;
    }

    method Vacate()
      modifies this
      ensures Vacant()
    {
      session, active := null, false;
      ClearInFlight();
      VacateValue();
      VacatePlan();
    }

    method VacateValue()
      modifies this`hasValue, this`hasStatus, this`lastStatus, this`lastUpdate, this`lastReasons, this`listening,
               this`heard
      ensures !hasValue && !listening
    {
      hasValue, hasStatus, lastStatus, lastUpdate, lastReasons := false, false, DeviceSkipped, 0, NO_REASONS;
      listening, heard := false, [];
    }

    method VacatePlan()
      modifies this`refreshRequested, this`initialReadPending, this`nextPollAt, this`covActive, this`covFallback,
               this`covRenewAt, this`processId
      ensures !covActive && processId.None?
    {
      refreshRequested, initialReadPending, nextPollAt := false, false, 0;
      covActive, covFallback, covRenewAt, processId := false, false, 0, None;
    }

    /** A step that leaves alone what the callback knows, and does not use a process id it has not got. */
    twostate lemma KeepsValid()
      requires old(Valid())
      requires request == old(request) && options == old(options) && Knows() == old(Knows())
      requires listening == old(listening) && heard == old(heard)
      requires processId in {old(processId), Some(ProcessIdOf(request.objectId))}
      requires covActive || operation.SubscribeOperation? ==>
                 processId.Some? || old(covActive || operation.SubscribeOperation?)
      ensures Valid()
    {
      hide Informed, ProcessIdOf;
    }

    twostate lemma MoveKeepsValid(other: Subscription)
      requires old(Valid()) && MovedTo(other)
      ensures other.Valid()
    {
      hide Informed, ProcessIdOf;
      assert other.Remembers() == old(Remembers()) && other.Plans() == old(Plans());
    }

    lemma VacantIsValid()
      requires Vacant()
      ensures Valid()
    {}

    /** A move takes the session's pointer along; the parameter pairs the new place with the registry. */
    twostate lemma MoveKeepsSound(p: (Subscription, Registry))
      requires var r := p.1; old(Sound(r)) && this in r.subs && p.0 in r.subs && this != p.0 && !old(p.0.inFlight)
      requires MovedTo(p.0)
      requires forall x <- p.1.sessions ::
                 x.inFlightScan == old(x.inFlightScan) && x.inFlightRead == old(x.inFlightRead) &&
                 x.inFlightSubscription == if x == old(session) && old(x.inFlightSubscription) == this then p.0
                                           else old(x.inFlightSubscription)
      requires forall x <- p.1.scans :: ScanKept(x)
      requires forall x <- p.1.readJobs :: ReadKept(x)
      requires forall x <- p.1.subs :: x != this && x != p.0 ==> SubscriptionKept(x)
      ensures Sound(p.1)
    {}

    /** A subscription with nothing in flight may be stopped. */
    twostate lemma RestKeepsSound(r: Registry)
      requires old(Sound(r)) && this in r.subs && session == old(session) && !old(inFlight) && !inFlight
      requires forall x <- r.sessions :: SessionKept(x)
      requires forall x <- r.scans :: ScanKept(x)
      requires forall x <- r.readJobs :: ReadKept(x)
      requires forall x <- r.subs :: x != this ==> SubscriptionKept(x)
      ensures Sound(r)
    {}

    /** A finished read or notification that is taken over and told. */
    twostate lemma FinishKeepsValid(x: Outcome)
      requires old(Valid())
      requires request == old(request) && options == old(options) && listening == old(listening)
      requires Knows() == After(old(Knows()), x) && heard == old(heard) + old(Hears(x))
      requires processId == old(processId) && covActive == old(covActive) && operation.NoOperation?
      ensures Valid()
    {
      hide Informed, Told, After, ProcessIdOf;
      if listening {
        InformedAfter(old(heard), old(Knows()), x, options.notifyOnStatusChange);
      }
    }

    /** A step of this subscription in its session, with everything else left alone. */
    twostate lemma KeepsSound(r: Registry)
      requires old(Sound(r)) && this in r.subs && session != null && session in r.sessions
      requires forall x <- r.sessions :: x != session ==> SessionKept(x)
      requires forall x <- r.scans :: ScanKept(x)
      requires forall x <- r.readJobs :: ReadKept(x)
      requires forall x <- r.subs :: x != this ==> SubscriptionKept(x)
      requires session.inFlightScan == session.Before().scan && session.inFlightRead == session.Before().read
      requires session.Before().subscription in {null, this} && old(session) == session
      requires session.inFlightSubscription == if inFlight then this else null
      requires inFlight ==> active && session.inFlightScan == null && session.inFlightRead == null
      ensures Sound(r)
    {}
  }

  // ----- one transaction at a time

  /** The three in-flight pointers of a session. */
  datatype Pointers = Pointers(scan: ObjectListScanJob?, read: PropertyReadJob?, subscription: Subscription?)

  /** The sessions of a client with the jobs and subscriptions that may use them. */
  datatype Registry = Registry(
    sessions: set<Session>, scans: set<ObjectListScanJob>,
    readJobs: set<PropertyReadJob>, subs: set<Subscription>)

  ghost predicate AtMostOne(s: Session)
    reads s
  {
    (s.inFlightScan == null || s.inFlightRead == null) &&
    (s.inFlightScan == null || s.inFlightSubscription == null) &&
    (s.inFlightRead == null || s.inFlightSubscription == null)
  }

  /**
   Every session has at most one transaction outstanding; a scan or read is active, and a
   subscription in flight, exactly when its session points to it.
   */
  ghost predicate Sound(r: Registry)
    reads r.sessions, r.scans, r.readJobs, r.subs
  {
    (forall s <- r.sessions ::
       AtMostOne(s) &&
       (s.inFlightScan != null ==> s.inFlightScan in r.scans && s.inFlightScan.session == s) &&
       (s.inFlightRead != null ==> s.inFlightRead in r.readJobs && s.inFlightRead.session == s) &&
       (s.inFlightSubscription != null ==> s.inFlightSubscription in r.subs && s.inFlightSubscription.session == s)) &&
    (forall j <- r.scans ::
       (j.session != null ==> j.session in r.sessions) &&
       (j.status.JobActive? <==> j.session != null && j.session.inFlightScan == j)) &&
    (forall j <- r.readJobs ::
       (j.session != null ==> j.session in r.sessions) &&
       (j.status.JobActive? <==> j.session != null && j.session.inFlightRead == j)) &&
    (forall b <- r.subs ::
       (b.session != null ==> b.session in r.sessions) &&
       (b.inFlight <==> b.session != null && b.session.inFlightSubscription == b) &&
       (b.inFlight ==> b.active))
  }

  /** What soundness says of one session. */
  lemma SoundAt(r: Registry, s: Session)
    requires Sound(r) && s in r.sessions
    ensures AtMostOne(s)
    ensures s.inFlightScan != null ==>
              s.inFlightScan in r.scans && s.inFlightScan.session == s && s.inFlightScan.status.JobActive?
    ensures s.inFlightRead != null ==>
              s.inFlightRead in r.readJobs && s.inFlightRead.session == s && s.inFlightRead.status.JobActive?
    ensures s.inFlightSubscription != null ==>
              var b := s.inFlightSubscription; b in r.subs && b.session == s && b.inFlight && b.active
  {}

  twostate predicate SessionKept(s: Session)
    reads s
  {
    s.inFlightScan == old(s.inFlightScan) && s.inFlightRead == old(s.inFlightRead) &&
    s.inFlightSubscription == old(s.inFlightSubscription)
  }

  twostate predicate ScanKept(job: ObjectListScanJob)
    reads job
  {
    job.session == old(job.session) && job.status == old(job.status)
  }

  twostate predicate ReadKept(job: PropertyReadJob)
    reads job
  {
    job.session == old(job.session) && job.status == old(job.status)
  }

  twostate predicate SubscriptionKept(sub: Subscription)
    reads sub
  {
    sub.session == old(sub.session) && sub.inFlight == old(sub.inFlight) && sub.active == old(sub.active)
  }

  lemma NotInFlight(r: Registry, s: Session, sub: Subscription)
    requires Sound(r) && sub in r.subs && sub.session == s && s.inFlightSubscription == null
    ensures !sub.inFlight
  {}

  lemma SubscriptionAt(r: Registry, sub: Subscription)
    requires Sound(r) && sub in r.subs
    ensures (sub.inFlight ==> sub.active) && (sub.session != null ==> sub.session in r.sessions)
  {}

  class Session {
    const device: ObjectId
    const endpoint: Endpoint
    const cache: Cache
    const inbox: Inbox
    var nextInvokeId: uint8
    var inFlightScan: ObjectListScanJob?
    var inFlightRead: PropertyReadJob?
    var inFlightSubscription: Subscription?
    var roundRobin: nat
    /** Everything asked of the network and what came back. */
    ghost var wire: seq<WireEvent>
    /** Every poll that looked for a notification. */
    ghost var polls: seq<Traffic.Poll>

    /** What waits in the inbox is what the polls have left there. */
    ghost predicate Listens()
      reads this`polls, inbox, inbox.slots
    {
      inbox.Valid() && inbox.Contents() == Traffic.Run(polls, inbox.slots.Length).pending
    }

    ghost predicate Ready()
      reads `nextInvokeId, cache, cache.slots, cache.used
    {
      cache.Valid() && nextInvokeId != 0
    }

    constructor (deviceInstance: uint32, endpoint: Endpoint, cacheSize: nat, inboxSize: nat)
      requires 1 <= cacheSize && 1 <= inboxSize
      ensures Ready() && inFlightScan == null && inFlightRead == null && inFlightSubscription == null
      ensures device == ObjectId(DEVICE, deviceInstance) && this.endpoint == endpoint
      ensures Listens() && polls == [] && wire == []
      ensures fresh(cache) && fresh(cache.slots) && fresh(cache.used) && fresh(inbox) && fresh(inbox.slots)
    {
      device, this.endpoint := ObjectId(DEVICE, deviceInstance), endpoint;
      cache := new Cache(cacheSize);
      inbox := new Inbox(inboxSize);
      nextInvokeId, roundRobin, wire, polls := 1, 0, [], [];
      inFlightScan, inFlightRead, inFlightSubscription := null, null, null;
    }

    /** Invoke ids run from 1 to 255 and start again. */
    method AllocateInvokeId() returns (id: uint8)
      requires nextInvokeId != 0
      modifies this`nextInvokeId
      ensures id == old(nextInvokeId) && nextInvokeId == if id == 255 then 1 else id + 1
    {
      id := nextInvokeId;
      nextInvokeId := if nextInvokeId == 255 then 0 else nextInvokeId + 1;
      if nextInvokeId == 0 {
        nextInvokeId := 1;
      }
    }

    /** Puts a read request to the transport under a fresh invoke id; it may not be taken. */
    method SendRead(request: PropertyRequest) returns (sent: bool, id: uint8)
      requires nextInvokeId != 0
      modifies this`nextInvokeId, this`wire
      ensures id == old(nextInvokeId) != 0 && nextInvokeId != 0
      ensures wire == old(wire) + [ReadAsked(request, id, sent)]
    {
      id := AllocateInvokeId();
      sent := *;
      wire := wire + [ReadAsked(request, id, sent)];
    }

    /** Puts a SubscribeCOV request to the transport under a fresh invoke id; it may not be taken. */
    method SendSubscribe(asked: Messages.SubscribeRequest) returns (sent: bool, id: uint8)
      requires nextInvokeId != 0
      modifies this`nextInvokeId, this`wire
      ensures id == old(nextInvokeId) != 0 && nextInvokeId != 0
      ensures wire == old(wire) + [ServiceAsked(asked, id, sent)]
    {
      id := AllocateInvokeId();
      sent := *;
      wire := wire + [ServiceAsked(asked, id, sent)];
    }

    /** Polls the network for the reply to a read. */
    method ReceiveRead() returns (got: Received)
      modifies this`wire
      ensures wire == old(wire) + [ReadAnswered(got)]
    {
      got := *;
      wire := wire + [ReadAnswered(got)];
    }

    /** Polls the network for the answer to a SubscribeCOV request. */
    method ReceiveService() returns (answer: ServiceAnswer)
      modifies this`wire
      ensures wire == old(wire) + [ServiceAnswered(answer)]
    {
      answer := *;
      wire := wire + [ServiceAnswered(answer)];
    }

    /** The acknowledgement of a confirmed notification may not get out. */
    method AcknowledgeNews() returns (sent: bool)
      modifies this`wire
      ensures wire == old(wire) + [NewsAcknowledged(sent)]
    {
      sent := *;
      wire := wire + [NewsAcknowledged(sent)];
    }

    /** A step that touches none of the pointers. */
    twostate lemma KeepsSound(r: Registry)
      requires old(Sound(r)) && this in r.sessions
      requires forall x <- r.sessions :: SessionKept(x)
      requires forall x <- r.scans :: ScanKept(x)
      requires forall x <- r.readJobs :: ReadKept(x)
      requires forall x <- r.subs :: SubscriptionKept(x)
      ensures Sound(r)
    {}

    twostate function Before(): Pointers {
      Pointers(old(inFlightScan), old(inFlightRead), old(inFlightSubscription))
    }

    predicate IsBusy()
      reads this
    {
      inFlightSubscription != null || inFlightScan != null || inFlightRead != null
    }

    // ----- the object-list scan

    /** A job in the middle of a step: it belongs to this session and has nothing in flight. */
    ghost predicate Working(job: ObjectListScanJob)
      reads this, cache, cache.slots, cache.used, job, job.results
    {
      Ready() && job.session == this && job.status.JobActive? && !job.requestInFlight && job.Fits() &&
      Issued(job.log, job.options, job.Capacity(), device) && inFlightScan == job
    }

    twostate predicate Kept(job: ObjectListScanJob)
      reads job
    {
      job.session == old(job.session) && job.options == old(job.options) &&
      job.results == old(job.results) && job.resultCapacity == old(job.resultCapacity) &&
      old(job.log) <= job.log
    }

    /** What every step of a scan leaves: a job that waits for its next request, or has ended and let go. */
    twostate predicate Stepped(job: ObjectListScanJob)
      reads this, cache, cache.slots, cache.used, job, job.results, job.session
    {
      Ready() && Kept(job) && job.Valid() && old(cache.log) <= cache.log &&
      (job.status.JobActive? || job.status.JobComplete? || job.status.JobFailed?) &&
      inFlightScan == if job.status.JobActive? then job else null
    }

    /** An active job has just sent its request. */
    predicate Started(job: ObjectListScanJob, now: uint32)
      reads job
    {
      job.status.JobActive? ==> job.startedAt == now && job.invokeId != 0
    }

    ghost function TapeOf(job: ObjectListScanJob): Tape
      reads this`wire, cache`log, job`log
    {
      Tape(wire, job.log, cache.log)
    }

    /** What an active job waits for. */
    ghost function Awaited(job: ObjectListScanJob): Option<WireEvent>
      reads job
    {
      if job.status.JobActive? then Some(ReadAsked(job.request, job.invokeId, true)) else None
    }

    method TryStartScanRead(job: ObjectListScanJob, request: PropertyRequest, phase: Phase, now: uint32)
      requires Working(job)
      requires job.View().(phase := phase) == Replay(job.log, job.options, job.Capacity())
      requires request == RequestOf(Replay(job.log, job.options, job.Capacity()), device)
      modifies this`nextInvokeId, this`wire, this`inFlightScan, job, job.results, cache, cache.slots, cache.used
      ensures Stepped(job) && Started(job, now)
      ensures Spoke(old(TapeOf(job)), TapeOf(job), Awaited(job), now)
      decreases Work(Replay(job.log, job.options, job.Capacity()), job.options), 4
    {
      hide Replay, RequestOf, Issued, Work, Fold, Cache.Valid, Cache.Contents, Cache.Shaped, ObjectListScanJob.View;
      hide Spoke;
      ghost var before := TapeOf(job);
      var sent, invokeId := SendRead(request);
      job.Expect(request, phase);
      if !sent {
        ScanSendFailed(job, now);
        SpokeAgain(before, request, invokeId, TapeOf(job), Awaited(job), now);
        return;
      }
      job.Launch(invokeId, now);
      OneSpoken(before, ReadAsked(request, invokeId, true), now);
    }

    /** A request that could not be sent is finished on the spot. */
    method ScanSendFailed(job: ObjectListScanJob, now: uint32)
      requires Ready() && job.session == this && job.status.JobActive? && inFlightScan == job
      requires job.Follows(device) && job.request == RequestOf(job.View(), device)
      modifies this`nextInvokeId, this`wire, this`inFlightScan, job, job.results, cache, cache.slots, cache.used
      ensures Stepped(job) && Started(job, now)
      ensures Spoke(SendFailing(old(TapeOf(job)), old(job.request), now), TapeOf(job), Awaited(job), now)
      decreases Work(Replay(job.log, job.options, job.Capacity()), job.options), 3
    {
      hide Spoke, Replay, RequestOf, Issued, Work, Fold, Cache.Valid, Cache.Contents, Cache.Shaped;
      ScanEnded(job, Reply(DeviceSendFailed, None), Attempt(job.request, SendFailed, None, now, 0, 0), now);
    }

    /** The outstanding request has ended: it is put on record, and the scan goes on. */
    method ScanEnded(job: ObjectListScanJob, reply: Reply, record: Attempt, now: uint32)
      requires Ready() && job.session == this && job.status.JobActive? && inFlightScan == job
      requires job.Follows(device) && job.request == RequestOf(job.View(), device) && Finished(reply)
      modifies this`nextInvokeId, this`wire, this`inFlightScan, job, job.results, cache, cache.slots, cache.used
      ensures Stepped(job) && Started(job, now)
      ensures Spoke(Tape(old(wire), old(job.log) + [Exchange(old(job.request), reply)], old(cache.log) + [record]),
                    TapeOf(job), Awaited(job), now)
      decreases Work(Replay(job.log, job.options, job.Capacity()), job.options), 2
    {
      hide Spoke, Replay, RequestOf, Issued, Work, Fold, Cache.Valid, Cache.Contents, Cache.Shaped;
      cache.Update(record);
      FinishScanRead(job, reply, now);
    }

    method FinishScanRead(job: ObjectListScanJob, reply: Reply, now: uint32)
      requires Ready() && job.session == this && job.status.JobActive? && inFlightScan == job
      requires job.Follows(device) && job.request == RequestOf(job.View(), device) && Finished(reply)
      modifies this`nextInvokeId, this`wire, this`inFlightScan, job, job.results, cache, cache.slots, cache.used
      ensures Stepped(job) && Started(job, now)
      ensures Spoke(old(TapeOf(job)).(log := old(job.log) + [Exchange(old(job.request), reply)]), TapeOf(job),
                    Awaited(job), now)
      decreases Work(Replay(job.log, job.options, job.Capacity()), job.options), 1
    {
      hide Spoke, Replay, RequestOf, Issued, Work, Fold, FinishCount, FinishEntry, FinishProperty, Cache.Valid,
           Cache.Contents, Cache.Shaped;
      ghost var before := job.View();
      job.requestInFlight, job.invokeId, job.startedAt := false, 0, 0;
      LogReply(job.log, Exchange(job.request, reply), job.options, job.Capacity(), device);
      job.log := job.log + [Exchange(job.request, reply)];
      if job.phase.ReadCount? {
        CountArrived(job, reply, now);
      } else if job.phase.ReadEntry? {
        EntryArrived(job, reply, now);
      } else {
        PropertyArrived(job, reply, now);
      }
    }

    method CountArrived(job: ObjectListScanJob, reply: Reply, now: uint32)
      requires Working(job) && job.phase.ReadCount? && !job.hasCurrentStoreIndex
      requires FinishCount(job.View(), job.options, reply) == Replay(job.log, job.options, job.Capacity())
      modifies this`nextInvokeId, this`wire, this`inFlightScan, job, job.results, cache, cache.slots, cache.used
      ensures Stepped(job) && Started(job, now)
      ensures Spoke(old(TapeOf(job)), TapeOf(job), Awaited(job), now)
      decreases Work(Replay(job.log, job.options, job.Capacity()), job.options), 6
    {
      hide Spoke, Replay, RequestOf, Issued, Work, Fold, Cache.Valid, Cache.Contents, Cache.Shaped, AdvanceEntry;
      job.result := job.result.(countStatus := reply.status);
      if !reply.status.DeviceAck? {
        FailScan(job, reply.status);
        NothingSpoken(TapeOf(job), now);
        return;
      }
      if reply.value.None? || !reply.value.value.Unsigned? {
        FailScan(job, DeviceError);
        NothingSpoken(TapeOf(job), now);
        return;
      }
      job.result := job.result.(count := reply.value.value.number);
      job.maxIndex := if job.result.count < job.options.limit then job.result.count else job.options.limit;
      if job.result.count > job.options.limit {
        job.result := job.result.(truncated := true);
      }
      job.currentIndex := 1;
      AdvanceScan(job, now);
    }

    method EntryArrived(job: ObjectListScanJob, reply: Reply, now: uint32)
      requires Working(job) && job.phase.ReadEntry? && !job.hasCurrentStoreIndex
      requires FinishEntry(job.View(), job.options, job.Capacity(), reply)
               == Replay(job.log, job.options, job.Capacity())
      modifies this`nextInvokeId, this`wire, this`inFlightScan, job, job.results, cache, cache.slots, cache.used
      ensures Stepped(job) && Started(job, now)
      ensures Spoke(old(TapeOf(job)), TapeOf(job), Awaited(job), now)
      decreases Work(Replay(job.log, job.options, job.Capacity()), job.options), 8
    {
      hide Spoke, Replay, RequestOf, Issued, Work, Fold, Found;
      if !reply.status.DeviceAck? {
        CompleteScan(job);
        NothingSpoken(TapeOf(job), now);
        return;
      }
      job.result := job.result.(inspected := Successor(job.result.inspected));
      if reply.value.None? || !reply.value.value.ObjectIdentifier? {
        job.currentIndex := Successor(job.currentIndex);
        AdvanceScan(job, now);
        return;
      }
      var objectId := reply.value.value.objectId;
      if !Accepts(job.options, objectId) {
        job.currentIndex := Successor(job.currentIndex);
        AdvanceScan(job, now);
        return;
      }
      ObjectFound(job, objectId, now);
    }

    /** Stores an accepted object if there is room. */
    method ObjectFound(job: ObjectListScanJob, objectId: ObjectId, now: uint32)
      requires Working(job) && job.phase.ReadEntry? && !job.hasCurrentStoreIndex
      requires Found(job.View(), job.options, job.Capacity(), objectId)
               == Replay(job.log, job.options, job.Capacity())
      modifies this`nextInvokeId, this`wire, this`inFlightScan, job, job.results, cache, cache.slots, cache.used
      ensures Stepped(job) && Started(job, now)
      ensures Spoke(old(TapeOf(job)), TapeOf(job), Awaited(job), now)
      decreases Work(Replay(job.log, job.options, job.Capacity()), job.options), 7
    {
      hide Spoke, Replay, RequestOf, Issued, Work, Fold, Cache.Valid, Cache.Contents, NextRead, AdvanceEntry;
      job.result := job.result.(found := job.result.found + 1);
      job.hasCurrentStoreIndex := false;
      if job.results == null {
        job.result := job.result.(truncated := true);
        job.currentIndex := Successor(job.currentIndex);
        AdvanceScan(job, now);
        return;
      }
      if job.result.stored >= job.resultCapacity {
        job.result := job.result.(truncated := true);
        job.currentIndex := Successor(job.currentIndex);
        AdvanceScan(job, now);
        return;
      }
      StoreObject(job, objectId, now);
    }

    method StoreObject(job: ObjectListScanJob, objectId: ObjectId, now: uint32)
      requires Working(job) && job.results != null && job.result.stored < job.resultCapacity
      requires Advance(Store(job.View(), objectId), job.options) == Replay(job.log, job.options, job.Capacity())
      modifies this`nextInvokeId, this`wire, this`inFlightScan, job, job.results, cache, cache.slots, cache.used
      ensures Stepped(job) && Started(job, now)
      ensures Spoke(old(TapeOf(job)), TapeOf(job), Awaited(job), now)
      decreases Work(Replay(job.log, job.options, job.Capacity()), job.options), 6
    {
      hide Spoke, Replay, RequestOf, Issued, Work, Fold, Cache.Valid, Cache.Contents, Advance;
      ghost var before := job.View().objects;
      job.currentStoreIndex := job.result.stored;
      job.results[job.currentStoreIndex] := Scanned(objectId);
      job.result := job.result.(stored := job.result.stored + 1);
      job.hasCurrentStoreIndex := true;
      assert job.View().objects == before + [Scanned(objectId)];
      AdvanceScan(job, now);
    }

    method PropertyArrived(job: ObjectListScanJob, reply: Reply, now: uint32)
      requires Working(job) && job.hasCurrentStoreIndex
      requires FinishProperty(job.View(), job.options, reply) == Replay(job.log, job.options, job.Capacity())
      modifies this`nextInvokeId, this`wire, this`inFlightScan, job, job.results, cache, cache.slots, cache.used
      ensures Stepped(job) && Started(job, now)
      ensures Spoke(old(TapeOf(job)), TapeOf(job), Awaited(job), now)
      decreases Work(Replay(job.log, job.options, job.Capacity()), job.options), 6
    {
      hide Spoke, Replay, RequestOf, Issued, Work, Fold;
      var x := job.results[job.currentStoreIndex];
      var kept := reply.status.DeviceAck? && reply.value.Some?;
      if job.phase.ReadName? {
        x := x.(nameStatus := reply.status, name := if kept then reply.value.value else x.name);
      } else if job.phase.ReadDescription? {
        x := x.(descriptionStatus := reply.status, description := if kept then reply.value.value else x.description);
      } else if job.phase.ReadPresentValue? {
        x := x.(presentValueStatus := reply.status, presentValue := if kept then reply.value.value else x.presentValue);
      }
      job.results[job.currentStoreIndex] := x;
      AdvanceScan(job, now);
    }

    method AdvanceScan(job: ObjectListScanJob, now: uint32)
      requires Working(job)
      requires Advance(job.View(), job.options) == Replay(job.log, job.options, job.Capacity())
      modifies this`nextInvokeId, this`wire, this`inFlightScan, job, job.results, cache, cache.slots, cache.used
      ensures Stepped(job) && Started(job, now)
      ensures Spoke(old(TapeOf(job)), TapeOf(job), Awaited(job), now)
      decreases Work(Replay(job.log, job.options, job.Capacity()), job.options), 5
    {
      hide Spoke, Replay, Issued, Work, Fold;
      if job.hasCurrentStoreIndex {
        var x := job.results[job.currentStoreIndex];
        if job.options.readName && x.nameStatus.DeviceSkipped? {
          TryStartScanRead(job, PropertyRequest(x.objectId, OBJECT_NAME, NO_ARRAY_INDEX), ReadName, now);
          return;
        }
        if job.options.readDescription && x.descriptionStatus.DeviceSkipped? {
          TryStartScanRead(job, PropertyRequest(x.objectId, DESCRIPTION, NO_ARRAY_INDEX), ReadDescription, now);
          return;
        }
        if job.options.readPresentValue && x.presentValueStatus.DeviceSkipped? {
          TryStartScanRead(job, PropertyRequest(x.objectId, PRESENT_VALUE, NO_ARRAY_INDEX), ReadPresentValue, now);
          return;
        }
        job.hasCurrentStoreIndex := false;
        job.currentIndex := Successor(job.currentIndex);
      }
      if job.currentIndex == 0 || job.currentIndex > job.maxIndex {
        CompleteScan(job);
        NothingSpoken(TapeOf(job), now);
        return;
      }
      TryStartScanRead(job, PropertyRequest(device, OBJECT_LIST, job.currentIndex), ReadEntry, now);
    }

    method CompleteScan(job: ObjectListScanJob)
      requires Working(job)
      requires Complete(job.View()) == Replay(job.log, job.options, job.Capacity())
      modifies this`inFlightScan, job
      ensures Stepped(job) && !job.status.JobActive?
      ensures TapeOf(job) == old(TapeOf(job))
    {
      hide Spoke, Replay, RequestOf, Issued, Work, Fold;
      ReleaseScan(job);
      job.End(JobComplete, Finish);
    }

    method FailScan(job: ObjectListScanJob, status: DeviceReadStatus)
      requires Working(job)
      requires ScanMachine.Fail(job.View(), status) == Replay(job.log, job.options, job.Capacity())
      modifies this`inFlightScan, job
      ensures Stepped(job) && !job.status.JobActive?
      ensures TapeOf(job) == old(TapeOf(job))
    {
      hide Spoke, Replay, RequestOf, Issued, Work, Fold, ObjectListScanJob.View, Cache.Valid;
      job.CountFailed(status);
      ReleaseScan(job);
      job.End(JobFailed, Failing);
    }

    method ReleaseScan(job: ObjectListScanJob)
      modifies this`inFlightScan, job`requestInFlight, job`invokeId, job`startedAt
      ensures inFlightScan == if old(inFlightScan) == job then null else old(inFlightScan)
      ensures !job.requestInFlight
    {
      if inFlightScan == job {
        inFlightScan := null;
      }
      job.requestInFlight, job.invokeId, job.startedAt := false, 0, 0;
    }

    /** Refused while the session is busy or the job still active; otherwise asks for the count. */
    method BeginObjectListScan(
      job: ObjectListScanJob, options: ScanOptions, results: array?<ScannedObject>, resultCapacity: nat, now: uint32,
      ghost r: Registry) returns (started: bool)
      requires Ready() && Sound(r) && this in r.sessions && job in r.scans
      requires results != null ==> resultCapacity <= results.Length
      modifies this`nextInvokeId, this`wire, this`inFlightScan, job, results, cache, cache.slots, cache.used
      ensures Ready() && Sound(r) && old(cache.log) <= cache.log
      ensures if old(IsBusy() || job.status.JobActive?) then !started && unchanged(this, job)
              else job.session == this && job.options == options && job.results == results &&
                   job.resultCapacity == resultCapacity && job.Valid() && (started <==> job.status.JobActive?) &&
                   Started(job, now) &&
                   Spoke(Tape(old(wire), [], old(cache.log)), TapeOf(job), Awaited(job), now)
    {
      hide Sound, AtMostOne;
      if IsBusy() || job.status.JobActive? {
        return false;
      }
      StartScan(job, options, results, resultCapacity, now);
      started := job.status.JobActive?;
      job.KeepsSound(r);
    }

    method StartScan(
      job: ObjectListScanJob, options: ScanOptions, results: array?<ScannedObject>, resultCapacity: nat, now: uint32)
      requires Ready() && (results != null ==> resultCapacity <= results.Length)
      modifies this`nextInvokeId, this`wire, this`inFlightScan, job, results, cache, cache.slots, cache.used
      ensures Ready() && job.Valid() && old(cache.log) <= cache.log
      ensures job.session == this && job.options == options && job.results == results
      ensures job.resultCapacity == resultCapacity
      ensures job.status.JobActive? || job.status.JobComplete? || job.status.JobFailed?
      ensures inFlightScan == if job.status.JobActive? then job else null
      ensures Started(job, now) && Spoke(Tape(old(wire), [], old(cache.log)), TapeOf(job), Awaited(job), now)
    {
      hide Replay, RequestOf, Issued, Work, Fold, Cache.Valid, Cache.Contents, Cache.Shaped;
      EmptyLog(options, if results == null then 0 else resultCapacity, device);
      job.Clear();
      job.session, job.options, job.results, job.resultCapacity := this, options, results, resultCapacity;
      job.status, job.phase := JobActive, ReadCount;
      inFlightScan := job;
      TryStartScanRead(job, PropertyRequest(device, OBJECT_LIST, 0), ReadCount, now);
    }

    /**
     What a poll of an active scan comes to. A reply is taken over as it came - acknowledged or not,
     with its value - and put on record with its error codes; a request that has waited for its
     timeout is finished without a value; and until then nothing changes.
     */
    twostate predicate ScanPolled(job: ObjectListScanJob, now: uint32)
      reads this, cache, job
    {
      var asked, n, m := old(job.request), |old(job.log)|, |old(cache.log)|;
      old(wire) < wire && wire[|old(wire)|].ReadAnswered? && n <= |job.log| && m <= |cache.log| &&
      var got := wire[|old(wire)|].reply;
      if got.poll != NoReply then
        n < |job.log| && job.log[n] == Exchange(asked, Reply(Graded(got), Some(got.value))) &&
        m < |cache.log| && cache.log[m] == AttemptOf(asked, got, now) &&
        WentOn(job, now)
      else if Wrap(now - old(job.startedAt)) >= old(job.options.timeout) then
        n < |job.log| && job.log[n] == Exchange(asked, Reply(DeviceTimeout, None)) &&
        m < |cache.log| && cache.log[m] == Attempt(asked, Timeout, None, now, 0, 0) &&
        WentOn(job, now)
      else
        unchanged(job, cache) && wire == old(wire) + [ReadAnswered(got)]
    }

    /** After the one exchange that has ended the scan asks for what its replies now lead to. */
    twostate predicate WentOn(job: ObjectListScanJob, now: uint32)
      requires old(wire) < wire && |old(job.log)| < |job.log| && |old(cache.log)| < |cache.log|
      reads this, cache, job
    {
      Spoke(Tape(wire[..|old(wire)| + 1], old(job.log) + [job.log[|old(job.log)|]],
                 old(cache.log) + [cache.log[|old(cache.log)|]]),
            TapeOf(job), Awaited(job), now)
    }

    method PollObjectListScan(job: ObjectListScanJob, now: uint32, ghost r: Registry)
      requires Ready() && Sound(r) && this in r.sessions && job in r.scans && job.Valid()
      modifies this`nextInvokeId, this`wire, this`inFlightScan, job, job.results, cache, cache.slots, cache.used
      ensures Ready() && Sound(r) && job.Valid() && Kept(job) && old(cache.log) <= cache.log
      ensures job.session == this ==> !Overdue(job, now)
      ensures if old(job.session != this || !job.status.JobActive?) then unchanged(this, job, cache)
              else ScanPolled(job, now)
    {
      if job.session != this || !job.status.JobActive? {
        return;
      }
      PollInFlightScan(now, r);
    }

    /** The reply, the timeout, or neither. */
    method PollInFlightScan(now: uint32, ghost r: Registry)
      requires Ready() && Sound(r) && this in r.sessions
      requires inFlightScan != null ==> inFlightScan.Valid()
      modifies this`nextInvokeId, this`wire, this`inFlightScan, cache, cache.slots, cache.used
      modifies inFlightScan, if inFlightScan == null then null else inFlightScan.results
      ensures Ready() && Sound(r) && old(cache.log) <= cache.log
      ensures var job := old(inFlightScan);
              job != null ==> job.Valid() && Kept(job) && !Overdue(job, now) && ScanPolled(job, now)
    {
      hide Sound, AtMostOne, ScanPolled;
      SoundAt(r, this);
      if inFlightScan == null {
        return;
      }
      var job := inFlightScan;
      ScanReply(job, now);
      job.KeepsSound(r);
    }

    /** A request that has waited for its timeout, and was not sent just now. */
    predicate Overdue(job: ObjectListScanJob, now: uint32)
      reads job
    {
      job.status.JobActive? && job.startedAt != now && Wrap(now - job.startedAt) >= job.options.timeout
    }

    method ScanReply(job: ObjectListScanJob, now: uint32)
      requires Ready() && inFlightScan == job && job.status.JobActive? && job.session == this && job.Valid()
      modifies this`nextInvokeId, this`wire, this`inFlightScan, job, job.results, cache, cache.slots, cache.used
      ensures Stepped(job) && !Overdue(job, now) && ScanPolled(job, now)
    {
      hide Replay, RequestOf, Issued, Fold, Spoke, Classify, DeviceStatus, ObjectListScanJob.View, Cache.Valid;
      var got := ReceiveRead();
      ghost var heard := TapeOf(job);
      if got.poll != NoReply {
        var status := Classify(got.poll, got.value, got.errorClass, got.errorCode, job.request.arrayIndex);
        GradedIsDeviceStatus(got, job.request.arrayIndex);
        ghost var x := Exchange(job.request, Reply(Graded(got), Some(got.value)));
        var record := Attempt(job.request, status, Some(got.value), now, got.errorClass, got.errorCode);
        ScanEnded(job, Reply(DeviceStatus(status), Some(got.value)), record, now);
        SpokeShows(heard, x, record, TapeOf(job), Awaited(job), now);
        return;
      }
      if Wrap(now - job.startedAt) >= job.options.timeout {
        ghost var x := Exchange(job.request, Reply(DeviceTimeout, None));
        var record := Attempt(job.request, Timeout, None, now, 0, 0);
        ScanEnded(job, Reply(DeviceTimeout, None), record, now);
        SpokeShows(heard, x, record, TapeOf(job), Awaited(job), now);
      }
    }

    method CancelObjectListScan(job: ObjectListScanJob, ghost r: Registry)
      requires Sound(r) && this in r.sessions && job in r.scans && job.Valid()
      modifies this`inFlightScan, job
      ensures Sound(r) && job.Valid()
      ensures if old(job.session != this || job.status in {JobComplete, JobFailed, JobCancelled})
              then unchanged(this, job)
              else job.status.JobCancelled? && inFlightScan != job && job.result == old(job.result) &&
                   job.results == old(job.results) && job.log == old(job.log)
    {
      if job.session != this || job.status in {JobComplete, JobFailed, JobCancelled} {
        return;
      }
      ReleaseScan(job);
      job.status, job.phase := JobCancelled, Stopped;
    }

    // ----- single property reads

    method BeginPropertyRead(
      job: PropertyReadJob, request: PropertyRequest, timeout: uint32, now: uint32, ghost r: Registry)
      returns (started: bool)
      requires Ready() && Sound(r) && this in r.sessions && job in r.readJobs
      modifies this`nextInvokeId, this`wire, this`inFlightRead, job, cache, cache.slots, cache.used
      ensures Ready() && Sound(r)
      ensures if old(IsBusy() || job.status.JobActive?) then !started && unchanged(this, job, cache)
              else job.session == this && job.request == request && (started <==> job.status.JobActive?) &&
                   (started ==> job.startedAt == now && job.invokeId == old(nextInvokeId) && job.timeout == timeout) &&
                   wire == old(wire) + [ReadAsked(request, old(nextInvokeId), started)] &&
                   cache.log
                   == old(cache.log) + (if started then [] else [Attempt(request, SendFailed, None, now, 0, 0)])
    {
      hide Sound, AtMostOne, Fold;
      if IsBusy() || job.status.JobActive? {
        return false;
      }
      job.Reset(this, request, timeout);
      inFlightRead := job;
      var sent, invokeId := SendRead(request);
      started := sent;
      if sent {
        job.invokeId, job.startedAt := invokeId, now;
      } else {
        FinishPropertyRead(job, SendFailed, None, now, 0, 0);
      }
      job.KeepsSound(r);
    }

    method FinishPropertyRead(
      job: PropertyReadJob, status: PropertyReadStatus, value: Option<WireValue>, now: uint32,
      errorClass: uint32, errorCode: uint32)
      requires Ready() && inFlightRead == job
      modifies this`inFlightRead, job, cache, cache.slots, cache.used
      ensures Ready() && inFlightRead == null
      ensures job.session == old(job.session) && job.request == old(job.request) && job.readStatus == status
      ensures job.status == if status.Ack? || status.EmptyValue? then JobComplete else JobFailed
      ensures job.value == if value.Some? then value.value else Empty
      ensures job.errorClass == errorClass && job.errorCode == errorCode
      ensures cache.log == old(cache.log) + [Attempt(job.request, status, value, now, errorClass, errorCode)]
    {
      hide Fold, Cache.Contents;
      job.readStatus, job.errorClass, job.errorCode := status, errorClass, errorCode;
      job.value := if value.Some? then value.value else Empty;
      cache.Update(Attempt(job.request, status, value, now, errorClass, errorCode));
      ReleasePropertyRead(job);
      job.status := if status.Ack? || status.EmptyValue? then JobComplete else JobFailed;
    }

    method ReleasePropertyRead(job: PropertyReadJob)
      modifies this`inFlightRead, job`invokeId, job`startedAt
      ensures inFlightRead == if old(inFlightRead) == job then null else old(inFlightRead)
    {
      if inFlightRead == job {
        inFlightRead := null;
      }
      job.invokeId, job.startedAt := 0, 0;
    }

    /**
     What a poll of an active read comes to: the reply as it came, complete if the device acknowledged a
     value or none; the timeout; or nothing.
     */
    twostate predicate ReadPolled(job: PropertyReadJob, now: uint32)
      reads this, cache, job
    {
      var asked := old(job.request);
      |wire| == |old(wire)| + 1 && old(wire) < wire && wire[|old(wire)|].ReadAnswered? &&
      job.request == asked && job.session == old(job.session) &&
      var got := wire[|old(wire)|].reply;
      if got.poll != NoReply then
        cache.log == old(cache.log) + [AttemptOf(asked, got, now)] &&
        job.readStatus == AttemptOf(asked, got, now).status &&
        job.value == got.value && job.errorClass == got.errorClass && job.errorCode == got.errorCode &&
        job.status == if got.poll.AckReply? && !got.value.Unsupported? then JobComplete else JobFailed
      else if Wrap(now - old(job.startedAt)) >= old(job.timeout) then
        cache.log == old(cache.log) + [Attempt(asked, Timeout, None, now, 0, 0)] &&
        job.readStatus == Timeout && job.value == Empty && job.status == JobFailed
      else
        unchanged(job, cache)
    }

    method PollPropertyRead(job: PropertyReadJob, now: uint32, ghost r: Registry)
      requires Ready() && Sound(r) && this in r.sessions && job in r.readJobs
      modifies this`wire, this`inFlightRead, job, cache, cache.slots, cache.used
      ensures Ready() && Sound(r)
      ensures job.session == this && job.status.JobActive? ==> Wrap(now - job.startedAt) < job.timeout
      ensures if old(job.session != this || !job.status.JobActive?) then unchanged(this, job, cache)
              else ReadPolled(job, now)
    {
      if job.session != this || !job.status.JobActive? {
        return;
      }
      PollInFlightRead(now, r);
    }

    method PollInFlightRead(now: uint32, ghost r: Registry)
      requires Ready() && Sound(r) && this in r.sessions
      modifies this`wire, this`inFlightRead, inFlightRead, cache, cache.slots, cache.used
      ensures Ready() && Sound(r)
      ensures inFlightRead != null ==>
                inFlightRead == old(inFlightRead) && Wrap(now - inFlightRead.startedAt) < inFlightRead.timeout
      ensures var job := old(inFlightRead);
              job != null ==> (inFlightRead == job <==> job.status.JobActive?) && ReadPolled(job, now)
    {
      hide Sound, AtMostOne, Fold, ReadPolled;
      SoundAt(r, this);
      if inFlightRead == null {
        return;
      }
      var job := inFlightRead;
      ReadReply(job, now);
      job.KeepsSound(r);
    }

    method ReadReply(job: PropertyReadJob, now: uint32)
      requires Ready() && inFlightRead == job && job.status.JobActive?
      modifies this`wire, this`inFlightRead, job, cache, cache.slots, cache.used
      ensures Ready() && job.session == old(job.session)
      ensures inFlightRead == if job.status.JobActive? then job else null
      ensures job.status.JobActive? ==> Wrap(now - job.startedAt) < job.timeout
      ensures ReadPolled(job, now)
    {
      hide Fold;
      var got := ReceiveRead();
      if got.poll != NoReply {
        var status := Classify(got.poll, got.value, got.errorClass, got.errorCode, job.request.arrayIndex);
        FinishPropertyRead(job, status, Some(got.value), now, got.errorClass, got.errorCode);
        return;
      }
      if Wrap(now - job.startedAt) >= job.timeout {
        FinishPropertyRead(job, Timeout, None, now, 0, 0);
      }
    }

    method CancelPropertyRead(job: PropertyReadJob, ghost r: Registry)
      requires Sound(r) && this in r.sessions && job in r.readJobs
      modifies this`inFlightRead, job
      ensures Sound(r)
      ensures if old(job.session != this || !job.status.JobActive?) then unchanged(this, job)
              else job.status.JobCancelled? && inFlightRead == null
    {
      if job.session != this || !job.status.JobActive? {
        return;
      }
      ReleasePropertyRead(job);
      job.status := JobCancelled;
    }

    /** Polls whichever transaction is outstanding. */
    method PollInFlight(now: uint32, ghost r: Registry)
      requires Ready() && Sound(r) && this in r.sessions
      requires inFlightScan != null ==> inFlightScan.Valid()
      modifies this`nextInvokeId, this`wire, this`inFlightScan, this`inFlightRead, this`inFlightSubscription
      modifies cache, cache.slots, cache.used, inFlightRead, inFlightSubscription
      modifies inFlightScan, if inFlightScan == null then null else inFlightScan.results
      ensures Ready() && Sound(r)
      ensures var job := old(inFlightScan); job != null ==> job.Valid() && Kept(job) && ScanPolled(job, now)
      ensures old(inFlightRead) != null ==> ReadPolled(old(inFlightRead), now)
      ensures old(inFlightSubscription) != null ==> SubscriptionPolled(old(inFlightSubscription), now)
      ensures old(inFlightSubscription) != null && old(inFlightSubscription.Valid()) ==>
                old(inFlightSubscription).Valid()
    {
      hide Subscription.Valid, ObjectListScanJob.Valid, Sound, Fold, ScanPolled, ReadPolled, SubscriptionPolled;
      SoundAt(r, this);
      if inFlightRead != null {
        PollInFlightRead(now, r);
      } else if inFlightScan != null {
        PollInFlightScan(now, r);
      } else if inFlightSubscription != null {
        PollInFlightSubscription(now, r);
      }
    }

    // ----- subscriptions

    /** The first thing done was to ask the network for what is outstanding. */
    twostate predicate NetworkPolled()
      reads this`wire
    {
      old(wire) < wire && (wire[|old(wire)|].ReadAnswered? || wire[|old(wire)|].ServiceAnswered?)
    }

    /** Polls the outstanding request, takes a notification in, and starts what is due. */
    method PollSubscription(sub: Subscription, now: uint32, ghost r: Registry)
      requires Ready() && Listens() && Sound(r) && this in r.sessions && sub in r.subs
      modifies this`nextInvokeId, this`wire, this`inFlightSubscription, this`polls, sub, inFlightSubscription
      modifies cache, cache.slots, cache.used, inbox, inbox.slots
      ensures Ready() && Listens() && Sound(r) && old(cache.log) <= cache.log
      ensures inFlightSubscription != null && sub.session == this ==> !inFlightSubscription.Overdue(now)
      ensures old(sub.Valid()) ==> sub.Valid()
      ensures old(inFlightSubscription) != null && old(inFlightSubscription.Valid()) ==>
                old(inFlightSubscription).Valid()
      ensures sub.session == this && old(inFlightSubscription) != null ==> NetworkPolled()
      ensures old(sub.session == this && inFlightSubscription == null) ==>
                if old(sub.covActive)
                then |polls| == |old(polls)| + 1 && polls[|old(polls)|].interest == old(sub.Wants())
                else old(sub.IsDue(now)) && inFlightScan == null && inFlightRead == null ==>
                       inFlightSubscription == sub || SendHasFailed(sub, now)
      ensures polls == old(polls) || (|polls| == |old(polls)| + 1 && old(polls) <= polls)
    {
      hide Sound, AtMostOne, Fold, Listens, Subscription.Valid, Cache.Valid, SubscriptionPolled, HeardTruly;
      if sub.session != this {
        return;
      }
      PollInFlightSubscription(now, r);
      if inFlightSubscription != null {
        return;
      }
      label Polled:
      NotInFlight(r, this, sub);
      var refused := false;
      if sub.covActive {
        refused := HearNews(sub, now);
      }
      sub.KeepsSound@Polled(r);
      if !refused {
        StartNext(sub, now, r);
      }
    }

    /** The poll names what really arrived, if the network was asked, and what became of the acknowledgement. */
    twostate predicate HeardTruly(p: Traffic.Poll)
      reads this`wire, inbox`arrivals
      requires old(inbox.Valid())
    {
      var waiting := old(inbox.Contents());
      var news := Fetched(waiting, p.interest, p.arrival, inbox.slots.Length).1;
      inbox.arrivals
      == old(inbox.arrivals) + (if FirstMatch(waiting, p.interest) < |waiting| then [] else [p.arrival]) &&
      wire
      == old(wire) + (if news.Some? && news.value.news.confirmed then [NewsAcknowledged(p.acknowledged)] else [])
    }

    /** The next notification for a subscription; a confirmed one is acknowledged. */
    method FetchNews(w: Interest) returns (news: Option<Incoming>, acknowledged: bool, ghost p: Traffic.Poll)
      requires inbox.Valid()
      modifies this`wire, inbox, inbox.slots
      ensures old(wire) <= wire && inbox.Valid() && p.interest == w && p.acknowledged == acknowledged && HeardTruly(p)
      ensures var (s, found) := Fetched(old(inbox.Contents()), w, p.arrival, inbox.slots.Length);
              inbox.Contents() == s && news == found
    {
      hide Fetched, FirstMatch;
      ghost var arrival;
      news, arrival := inbox.Fetch(w);
      acknowledged := false;
      if news.Some? && news.value.news.confirmed {
        acknowledged := AcknowledgeNews();
      }
      p := Traffic.Poll(w, arrival, acknowledged);
    }

    /** Hands the subscription the next notification for it; one that cannot be acknowledged is put back. */
    method HearNews(sub: Subscription, now: uint32) returns (refused: bool)
      requires Ready() && Listens() && sub.session == this && sub.covActive && !sub.inFlight
      requires inFlightSubscription == null
      modifies this`wire, this`polls, this`inFlightSubscription, sub, cache, cache.slots, cache.used, inbox, inbox.slots
      ensures Ready() && Listens() && sub.session == this && sub.active == old(sub.active) && !sub.inFlight
      ensures inFlightSubscription == null && sub.covActive
      ensures old(wire) <= wire
      ensures |polls| == |old(polls)| + 1 && old(polls) <= polls
      ensures var p := polls[|old(polls)|];
              p.interest == old(sub.Wants()) && HeardTruly(p) &&
              match Traffic.Polled(old(inbox.Contents()), p, inbox.slots.Length).1
              case None => unchanged(sub, cache)
              case Some(n) =>
                var x := Outcome(DeviceAck, Some(ValueFor(n.news, sub.request)), n.news.kept);
                !refused && sub.request == old(sub.request) && sub.Knows() == After(old(sub.Knows()), x) &&
                sub.heard == old(sub.heard) + old(sub.Hears(x)) &&
                cache.log == old(cache.log) + Recorded(sub, x, Ack, now, 0, 0)
      ensures old(cache.log) <= cache.log && (old(sub.Valid()) ==> sub.Valid())
    {
      hide Fold, Cache.Valid, Cache.Contents, Cache.Shaped, Fetched, Matches, Pushed, Traffic.Run, Told, After,
           Recorded, Informed, ProcessIdOf, Noted, ValueFor, HeardTruly;
      ghost var waiting := inbox.Contents();
      var news, acknowledged, p := FetchNews(sub.Wants());
      Traffic.RunStep(polls, p, inbox.slots.Length);
      polls := polls + [p];
      if news.None? {
        return false;
      }
      if news.value.news.confirmed && !acknowledged {
        inbox.Push(news.value);
        return true;
      }
      var value := TakeValue(news.value.news, sub.request);
      FinishSubscriptionPoll(sub, Outcome(DeviceAck, Some(value), news.value.news.kept), Ack, now, 0, 0);
      refused := false;
    }

    /** A read of this subscription could not be sent, which is on record. */
    twostate predicate SendHasFailed(sub: Subscription, now: uint32)
      reads this, sub, cache
    {
      wire != [] && wire[|wire| - 1].ReadAsked? && wire[|wire| - 1].request == sub.request &&
      !wire[|wire| - 1].taken &&
      sub.lastStatus.DeviceSendFailed? && sub.lastUpdate == now &&
      cache.log == old(cache.log) + [Attempt(sub.request, SendFailed, None, now, 0, 0)]
    }

    /** Asks for change-of-value service if that is due, and otherwise reads. */
    method StartNext(sub: Subscription, now: uint32, ghost r: Registry)
      requires Ready() && Sound(r) && this in r.sessions && sub in r.subs
      requires sub.session == this && inFlightSubscription == null
      modifies this`nextInvokeId, this`wire, this`inFlightSubscription, sub, cache, cache.slots, cache.used
      ensures Ready() && Sound(r) && old(cache.log) <= cache.log
      ensures old(wire) <= wire
      ensures inFlightSubscription != null ==>
                inFlightSubscription == sub && inFlightScan == null && inFlightRead == null && sub.startedAt == now &&
                (sub.operation.SubscribeOperation? ==> sub.processId.Some?) &&
                wire != [] && wire[|wire| - 1] == sub.Call()
      ensures inFlightScan != null || inFlightRead != null ==>
                inFlightSubscription == null && unchanged(sub, cache)
      ensures inFlightScan == null && inFlightRead == null && old(sub.IsDue(now)) ==>
                inFlightSubscription == sub || SendHasFailed(sub, now)
      ensures sub.covActive && sub.options.preferCov && sub.inFlight ==> !sub.operation.PollOperation?
      ensures sub.request == old(sub.request) && sub.options == old(sub.options)
      ensures old(sub.Valid()) ==> sub.Valid()
    {
      hide Sound, AtMostOne, Fold, Subscription.Valid;
      NotInFlight(r, this, sub);
      var started := TryStartCovSubscription(sub, now);
      if !started {
        TryStartSubscriptionPoll(sub, now);
      }
      sub.KeepsSound(r);
    }

    /** The chosen one, if any, has had its turn: it is started, or its failed send is on record, unless a scan runs. */
    twostate predicate Turned(subs: seq<Subscription>, chosen: nat, now: uint32)
      reads this, cache, subs
    {
      chosen < |subs| ==>
        roundRobin == RoundRobin.Next(chosen, |subs|) &&
        (inFlightScan == null && inFlightRead == null ==>
           inFlightSubscription == subs[chosen] || SendHasFailed(subs[chosen], now))
    }

    /** Polls the outstanding request and, if the session is free, starts the next subscription in turn. */
    method PollSubscriptions(subs: seq<Subscription>, now: uint32, ghost r: Registry)
      requires Ready() && Sound(r) && this in r.sessions && (forall b <- subs :: b in r.subs)
      modifies this`nextInvokeId, this`wire, this`inFlightSubscription, this`roundRobin, subs, inFlightSubscription
      modifies cache, cache.slots, cache.used
      ensures Ready() && Sound(r) && old(cache.log) <= cache.log
      ensures inFlightSubscription != null ==> !inFlightSubscription.Overdue(now)
      ensures old(inFlightSubscription) != null ==> NetworkPolled()
      ensures old(inFlightSubscription) == null && inFlightRead == null && |subs| > 0 ==>
                Turned(subs, old(RoundRobin.Choice(Due(subs, now), Position(|subs|), 0)), now)
      ensures forall b <- subs :: old(b.Valid()) ==> b.Valid()
      ensures old(inFlightSubscription) != null && old(inFlightSubscription.Valid()) ==>
                old(inFlightSubscription).Valid()
    {
      hide Sound, AtMostOne, Fold, Subscription.IsDue, Subscription.Valid, Due, Position, Cache.Valid,
           SubscriptionPolled, RoundRobin.Choice, RoundRobin.Next;
      PollInFlightSubscription(now, r);
      if inFlightSubscription != null || inFlightRead != null || |subs| == 0 {
        return;
      }
      var chosen := StartInTurn(subs, now, r);
    }

    /** Where the turn begins. */
    function Position(count: nat): (position: nat)
      reads this`roundRobin
      requires 0 < count
      ensures position < count
    {
      if roundRobin < count then roundRobin else 0
    }

    predicate Serves(sub: Subscription, now: uint32)
      reads sub
    {
      sub.session == this && sub.IsDue(now)
    }

    ghost function Due(subs: seq<Subscription>, now: uint32): (due: seq<bool>)
      reads subs
      ensures |due| == |subs| && forall i :: 0 <= i < |subs| ==> due[i] == Serves(subs[i], now)
    {
      seq(|subs|, i requires 0 <= i < |subs| reads subs => Serves(subs[i], now))
    }

    /**
     Chooses the first due subscription from the round-robin position on and moves the position past
     it. It is started unless a scan or read is in flight.
     */
    method StartInTurn(subs: seq<Subscription>, now: uint32, ghost r: Registry) returns (chosen: nat)
      requires Ready() && Sound(r) && this in r.sessions && (forall b <- subs :: b in r.subs)
      requires inFlightSubscription == null && |subs| > 0
      modifies this`nextInvokeId, this`wire, this`inFlightSubscription, this`roundRobin, subs
      modifies cache, cache.slots, cache.used
      ensures Ready() && Sound(r) && old(cache.log) <= cache.log
      ensures old(wire) <= wire
      ensures chosen == old(RoundRobin.Choice(Due(subs, now), Position(|subs|), 0))
      ensures chosen < |subs| ==>
                roundRobin == RoundRobin.Next(chosen, |subs|) &&
                (forall b <- subs :: b != subs[chosen] ==> unchanged(b))
      ensures chosen == |subs| ==>
                roundRobin == old(Position(|subs|)) && inFlightSubscription == null && unchanged(cache) &&
                (forall b <- subs :: unchanged(b))
      ensures inFlightSubscription != null ==>
                chosen < |subs| && inFlightSubscription == subs[chosen] && subs[chosen].startedAt == now
      ensures chosen < |subs| && inFlightScan == null && inFlightRead == null ==>
                inFlightSubscription == subs[chosen] || SendHasFailed(subs[chosen], now)
      ensures chosen < |subs| && (inFlightScan != null || inFlightRead != null) ==>
                inFlightSubscription == null && unchanged(subs[chosen], cache)
      ensures forall b <- subs :: old(b.Valid()) ==> b.Valid()
    {
      hide Sound, AtMostOne, Fold, Subscription.Valid, RoundRobin.Choice, RoundRobin.Next, Due, Position;
      chosen := ChooseInTurn(subs, now);
      KeepsSound(r);
      if chosen < |subs| {
        StartNext(subs[chosen], now, r);
      }
    }

    method ChooseInTurn(subs: seq<Subscription>, now: uint32) returns (chosen: nat)
      requires |subs| > 0
      modifies this`roundRobin
      ensures chosen == old(RoundRobin.Choice(Due(subs, now), Position(|subs|), 0))
      ensures roundRobin == if chosen < |subs| then RoundRobin.Next(chosen, |subs|) else old(Position(|subs|))
      ensures chosen < |subs| ==> subs[chosen].session == this && subs[chosen].IsDue(now)
    {
      hide Subscription.IsDue, RoundRobin.Choice, RoundRobin.Place, RoundRobin.Next, RoundRobin.Offset;
      ghost var due := Due(subs, now);
      if roundRobin >= |subs| {
        roundRobin := 0;
      }
      for i := 0 to |subs|
        invariant roundRobin == old(Position(|subs|))
        invariant RoundRobin.Choice(due, roundRobin, 0) == RoundRobin.Choice(due, roundRobin, i)
      {
        var index := (roundRobin + i) % |subs|;
        RoundRobin.PlaceIsRemainder(roundRobin, i, |subs|);
        RoundRobin.ChoiceStep(due, roundRobin, i);
        if subs[index].session == this && subs[index].IsDue(now) {
          RoundRobin.NextIsRemainder(index, |subs|);
          roundRobin := (index + 1) % |subs|;
          return index;
        }
      }
      RoundRobin.ChoiceEnds(due, roundRobin);
      chosen := |subs|;
    }

    /** What a poll of an outstanding read comes to: the reply as it came, the timeout, or nothing. */
    twostate predicate PollPolled(sub: Subscription, now: uint32)
      reads this, cache, sub
    {
      old(wire) < wire && wire[|old(wire)|].ReadAnswered? &&
      var got := wire[|old(wire)|].reply;
      if got.poll != NoReply then
        !sub.inFlight && cache.log == old(cache.log) + [AttemptOf(old(sub.request), got, now)] &&
        Took(sub, Outcome(Graded(got), Some(got.value), []), now)
      else if Wrap(now - old(sub.startedAt)) >= old(sub.options.timeout) then
        !sub.inFlight && cache.log == old(cache.log) + [Attempt(old(sub.request), Timeout, None, now, 0, 0)] &&
        Took(sub, Outcome(DeviceTimeout, None, []), now)
      else
        unchanged(sub, cache)
    }

    /** The subscription knows, and its callback has heard, what this outcome makes of what was known. */
    twostate predicate Took(sub: Subscription, x: Outcome, now: uint32)
      reads sub
    {
      sub.Knows() == After(old(sub.Knows()), x) && sub.heard == old(sub.heard) + old(sub.Hears(x)) &&
      sub.lastStatus == x.status && sub.lastUpdate == now && !sub.initialReadPending &&
      sub.nextPollAt == if sub.options.fallbackPoll == 0 then 0 else Wrap(now + sub.options.fallbackPoll)
    }

    /**
     What a poll of an outstanding SubscribeCOV request comes to: accepted, it is served until the
     renewal; refused or timed out, it falls back to reading until the retry; and until then nothing.
     */
    twostate predicate ServicePolled(sub: Subscription, now: uint32)
      reads this, sub
    {
      old(wire) < wire && wire[|old(wire)|].ServiceAnswered? &&
      match wire[|old(wire)|].answer
      case Accepted =>
        !sub.inFlight && sub.covActive && !sub.covFallback && sub.covRenewAt == RenewAt(sub.options, now) &&
        sub.initialReadPending == old(sub.initialReadPending)
      case Refused => FellBack(sub, now)
      case NoAnswer =>
        if Wrap(now - old(sub.startedAt)) >= old(sub.options.timeout) then FellBack(sub, now) else unchanged(sub)
    }

    predicate FellBack(sub: Subscription, now: uint32)
      reads sub
    {
      !sub.inFlight && !sub.covActive && sub.covFallback && sub.initialReadPending &&
      sub.covRenewAt == RetryAt(sub.options, now)
    }

    /** What a poll of whatever this subscription waits for comes to. */
    twostate predicate SubscriptionPolled(sub: Subscription, now: uint32)
      reads this, cache, sub
    {
      |wire| == |old(wire)| + 1 && sub.request == old(sub.request) && sub.options == old(sub.options) &&
      if old(sub.operation).SubscribeOperation? then ServicePolled(sub, now) && cache.log == old(cache.log)
      else PollPolled(sub, now) && sub.covActive == old(sub.covActive)
    }

    method PollInFlightSubscription(now: uint32, ghost r: Registry)
      requires Ready() && Sound(r) && this in r.sessions
      modifies this`wire, this`inFlightSubscription, inFlightSubscription, cache, cache.slots, cache.used
      ensures Ready() && Sound(r) && old(cache.log) <= cache.log
      ensures inFlightSubscription == old(inFlightSubscription) || inFlightSubscription == null
      ensures if old(inFlightSubscription) == null then unchanged(this, cache) else NetworkPolled()
      ensures var sub := old(inFlightSubscription);
              sub != null ==>
                sub.session == this && (old(inFlightSubscription.Valid()) ==> sub.Valid()) &&
                SubscriptionPolled(sub, now)
      ensures inFlightSubscription != null ==> !inFlightSubscription.Overdue(now)
    {
      hide Sound, AtMostOne, Fold, SubscriptionPolled, Subscription.Valid;
      SoundAt(r, this);
      if inFlightSubscription == null {
        return;
      }
      var sub := inFlightSubscription;
      SubscriptionReply(sub, now);
      sub.KeepsSound(r);
    }

    method SubscriptionReply(sub: Subscription, now: uint32)
      requires Ready() && inFlightSubscription == sub && sub.session == this && sub.inFlight && sub.active
      modifies this`wire, this`inFlightSubscription, sub, cache, cache.slots, cache.used
      ensures Ready() && sub.session == this && sub.active && old(cache.log) <= cache.log
      ensures inFlightSubscription == if sub.inFlight then sub else null
      ensures sub.inFlight ==> unchanged(sub, cache) && Wrap(now - sub.startedAt) < sub.options.timeout
      ensures NetworkPolled() && SubscriptionPolled(sub, now)
      ensures old(sub.Valid()) ==> sub.Valid()
    {
      if sub.operation.SubscribeOperation? {
        hide Fold, PollPolled, Subscription.Valid, ServicePolled;
        CovReply(sub, now);
      } else {
        hide Fold, ServicePolled;
        ReadForSubscription(sub, now);
      }
    }

    /** The reply to a read on behalf of a subscription. */
    method ReadForSubscription(sub: Subscription, now: uint32)
      requires Ready() && inFlightSubscription == sub && sub.session == this && sub.inFlight && sub.active
      modifies this`wire, this`inFlightSubscription, sub, cache, cache.slots, cache.used
      ensures Ready() && sub.session == this && sub.active && old(cache.log) <= cache.log
      ensures inFlightSubscription == if sub.inFlight then sub else null
      ensures sub.inFlight ==> unchanged(sub, cache) && Wrap(now - sub.startedAt) < sub.options.timeout
      ensures |wire| == |old(wire)| + 1 && NetworkPolled() && PollPolled(sub, now)
      ensures sub.request == old(sub.request) && sub.options == old(sub.options)
      ensures sub.covActive == old(sub.covActive) && (old(sub.Valid()) ==> sub.Valid())
    {
      hide Fold, Classify, DeviceStatus, Told, After, Subscription.Valid, Informed;
      var got := ReceiveRead();
      if got.poll != NoReply {
        var status := Classify(got.poll, got.value, got.errorClass, got.errorCode, sub.request.arrayIndex);
        GradedIsDeviceStatus(got, sub.request.arrayIndex);
        FinishSubscriptionPoll(sub, Outcome(DeviceStatus(status), Some(got.value), []), status, now, got.errorClass,
                               got.errorCode);
        return;
      }
      if Wrap(now - sub.startedAt) >= sub.options.timeout {
        FinishSubscriptionPoll(sub, Outcome(DeviceTimeout, None, []), Timeout, now, 0, 0);
      }
    }

    /** The answer to a SubscribeCOV request: served from now on, or read by polling until the retry. */
    method CovReply(sub: Subscription, now: uint32)
      requires inFlightSubscription == sub && sub.inFlight && sub.operation.SubscribeOperation?
      modifies this`wire, this`inFlightSubscription, sub
      ensures sub.session == old(sub.session) && sub.active == old(sub.active)
      ensures sub.request == old(sub.request) && sub.options == old(sub.options)
      ensures inFlightSubscription == if sub.inFlight then sub else null
      ensures sub.inFlight ==> unchanged(sub) && Wrap(now - sub.startedAt) < sub.options.timeout
      ensures |wire| == |old(wire)| + 1 && NetworkPolled() && ServicePolled(sub, now)
      ensures old(sub.Valid()) ==> sub.Valid()
    {
      hide Subscription.Valid, FellBack, RenewAt;
      var answer := ReceiveService();
      if answer.NoAnswer? && Wrap(now - sub.startedAt) < sub.options.timeout {
        return;
      }
      SettleService(sub, answer.Accepted?, now);
    }

    method SettleService(sub: Subscription, accepted: bool, now: uint32)
      requires inFlightSubscription == sub && sub.inFlight && sub.operation.SubscribeOperation?
      modifies this`inFlightSubscription, sub`covActive, sub`covFallback, sub`covRenewAt, sub`initialReadPending
      modifies sub`inFlight, sub`invokeId, sub`startedAt, sub`operation
      ensures inFlightSubscription == null && !sub.inFlight && (old(sub.Valid()) ==> sub.Valid())
      ensures if accepted then
                sub.covActive && !sub.covFallback && sub.covRenewAt == RenewAt(sub.options, now) &&
                sub.initialReadPending == old(sub.initialReadPending)
              else FellBack(sub, now)
    {
      hide Subscription.Valid, RenewAt, RetryAt;
      if accepted {
        sub.covActive, sub.covFallback := true, false;
        sub.covRenewAt := RenewAt(sub.options, now);
      } else {
        ScheduleCovRetry(sub, now);
      }
      sub.ClearInFlight();
      inFlightSubscription := null;
      if old(sub.Valid()) {
        sub.KeepsValid();
      }
    }

    method ScheduleCovRetry(sub: Subscription, now: uint32)
      modifies sub`covActive, sub`covFallback, sub`initialReadPending, sub`covRenewAt
      ensures !sub.covActive && sub.covFallback && sub.initialReadPending
      ensures sub.covRenewAt == RetryAt(sub.options, now)
    {
      sub.covActive, sub.covFallback, sub.initialReadPending := false, true, true;
      sub.covRenewAt := RetryAt(sub.options, now);
    }

    method TryStartSubscriptionPoll(sub: Subscription, now: uint32)
      requires Ready() && sub.session == this && !sub.inFlight && inFlightSubscription == null
      modifies this`nextInvokeId, this`wire, this`inFlightSubscription, sub, cache, cache.slots, cache.used
      ensures Ready() && sub.session == this && sub.active == old(sub.active) && old(cache.log) <= cache.log
      ensures old(wire) <= wire
      ensures sub.request == old(sub.request) && sub.options == old(sub.options)
      ensures sub.covActive == old(sub.covActive)
      ensures inFlightSubscription == if sub.inFlight then sub else null
      ensures if !old(sub.IsDue(now)) || inFlightScan != null || inFlightRead != null then unchanged(this, sub, cache)
              else if sub.inFlight then
                sub.startedAt == now && sub.invokeId == old(nextInvokeId) && sub.operation == PollOperation &&
                !sub.refreshRequested && unchanged(cache) && wire == old(wire) + [sub.Call()]
              else
                SendHasFailed(sub, now)
      ensures sub.inFlight ==> sub.active && inFlightScan == null && inFlightRead == null
      ensures old(sub.Valid()) ==> sub.Valid()
    {
      hide Fold, Subscription.Valid;
      if !sub.IsDue(now) || inFlightScan != null || inFlightRead != null {
        return;
      }
      var sent, invokeId := SendRead(sub.request);
      if sent {
        SubscriptionSent(sub, invokeId, now);
      } else {
        FinishSubscriptionPoll(sub, Outcome(DeviceSendFailed, None, []), SendFailed, now, 0, 0);
      }
    }

    method SubscriptionSent(sub: Subscription, invokeId: uint8, now: uint32)
      modifies this`inFlightSubscription, sub`refreshRequested
      modifies sub`inFlight, sub`invokeId, sub`startedAt, sub`operation
      ensures sub.inFlight && sub.invokeId == invokeId && sub.startedAt == now && sub.operation == PollOperation
      ensures inFlightSubscription == sub && !sub.refreshRequested && (old(sub.Valid()) ==> sub.Valid())
    {
      hide Subscription.Valid;
      sub.Launch(PollOperation, invokeId, now);
      sub.refreshRequested := false;
      inFlightSubscription := sub;
      if old(sub.Valid()) {
        sub.KeepsValid();
      }
    }

    /** A SubscribeCOV request of this subscription has just gone out. */
    twostate predicate Asked(sub: Subscription, now: uint32)
      reads sub
    {
      sub.inFlight && sub.startedAt == now && sub.invokeId == old(nextInvokeId) && sub.operation == SubscribeOperation
    }

    method TryStartCovSubscription(sub: Subscription, now: uint32) returns (started: bool)
      requires Ready() && sub.session == this && !sub.inFlight && inFlightSubscription == null
      modifies this`nextInvokeId, this`wire, this`inFlightSubscription, sub
      ensures Ready() && sub.session == this && sub.active == old(sub.active)
      ensures sub.request == old(sub.request) && sub.options == old(sub.options)
      ensures inFlightSubscription == if sub.inFlight then sub else null
      ensures started == sub.inFlight
      ensures if !old(sub.CovDue(now)) || inFlightScan != null || inFlightRead != null then unchanged(this, sub)
              else
                sub.processId.Some? && (if started then Asked(sub, now) else FellBack(sub, now)) &&
                sub.processId == (if old(sub.processId).Some? then old(sub.processId)
                                  else Some(ProcessIdOf(sub.request.objectId))) &&
                wire == old(wire) + [ServiceAsked(sub.Asks(), old(nextInvokeId), started)]
      ensures started ==> sub.active && inFlightScan == null && inFlightRead == null
      ensures old(sub.Valid()) ==> sub.Valid()
    {
      hide Subscription.Valid;
      if !sub.active || sub.inFlight || inFlightRead != null || inFlightScan != null || !sub.options.preferCov ||
         (sub.covFallback && !Reached(now, sub.covRenewAt)) || (sub.covActive && !Reached(now, sub.covRenewAt)) {
        return false;
      }
      started := Subscribe(sub, now);
    }

    method Subscribe(sub: Subscription, now: uint32) returns (started: bool)
      requires nextInvokeId != 0 && !sub.inFlight && inFlightSubscription == null
      modifies this`nextInvokeId, this`wire, this`inFlightSubscription, sub`processId, sub`initialReadPending
      modifies sub`covActive, sub`covFallback, sub`covRenewAt
      modifies sub`inFlight, sub`invokeId, sub`startedAt, sub`operation
      ensures nextInvokeId != 0 && started == sub.inFlight
      ensures inFlightSubscription == if sub.inFlight then sub else null
      ensures sub.processId == if old(sub.processId).Some? then old(sub.processId)
                               else Some(ProcessIdOf(sub.request.objectId))
      ensures if started then Asked(sub, now) else FellBack(sub, now)
      ensures wire == old(wire) + [ServiceAsked(sub.Asks(), old(nextInvokeId), started)]
      ensures old(sub.Valid()) ==> sub.Valid()
    {
      hide Subscription.Valid, ProcessIdOf;
      if sub.processId.None? {
        sub.processId := Some(ProcessIdOf(sub.request.objectId));
      }
      var invokeId;
      started, invokeId := SendSubscribe(sub.Asks());
      if started {
        sub.Launch(SubscribeOperation, invokeId, now);
        inFlightSubscription := sub;
      } else {
        ScheduleCovRetry(sub, now);
      }
      if old(sub.Valid()) {
        sub.KeepsValid();
      }
    }

    /** A read or notification has ended: cache it, take the value over, and plan the next poll. */
    method FinishSubscriptionPoll(
      sub: Subscription, x: Outcome, propertyStatus: PropertyReadStatus, now: uint32, errorClass: uint32,
      errorCode: uint32)
      requires Ready()
      modifies this`inFlightSubscription, sub, cache, cache.slots, cache.used
      ensures Ready() && sub.session == old(sub.session) && sub.active == old(sub.active) && !sub.inFlight
      ensures sub.request == old(sub.request) && sub.options == old(sub.options)
      ensures sub.covActive == old(sub.covActive) && sub.processId == old(sub.processId)
      ensures inFlightSubscription == if old(inFlightSubscription) == sub then null else old(inFlightSubscription)
      ensures cache.log == old(cache.log) + Recorded(sub, x, propertyStatus, now, errorClass, errorCode)
      ensures sub.Knows() == After(old(sub.Knows()), x) && sub.heard == old(sub.heard) + old(sub.Hears(x))
      ensures sub.lastReasons == Change(old(sub.Knows()), x, sub.options.notifyOnStatusChange).reasons
      ensures sub.lastStatus == x.status && sub.lastUpdate == now && !sub.initialReadPending
      ensures sub.nextPollAt == if sub.options.fallbackPoll == 0 then 0 else Wrap(now + sub.options.fallbackPoll)
      ensures old(sub.Valid()) ==> sub.Valid()
    {
      hide Fold, Cache.Valid, Cache.Contents, Cache.Shaped, Change, After, Noted, Subscription.Valid,
           Subscription.Hears, Subscription.Knows;
      cache.Update(Attempt(sub.request, propertyStatus, x.value, now, errorClass, errorCode));
      RecordNotification(sub, x.properties, now);
      sub.Finish(x, now);
      if inFlightSubscription == sub {
        inFlightSubscription := null;
      }
    }

    /** Every property of a notification goes into the cache. */
    method RecordNotification(sub: Subscription, properties: seq<WireProperty>, now: uint32)
      requires Ready()
      modifies cache, cache.slots, cache.used
      ensures Ready() && cache.log == old(cache.log) + Noted(sub.request.objectId, properties, now)
    {
      hide Fold;
      for k := 0 to |properties|
        invariant Ready() && cache.log == old(cache.log) + Noted(sub.request.objectId, properties[..k], now)
      {
        var p := properties[k];
        cache.Update(Attempt(PropertyRequest(sub.request.objectId, p.property, p.arrayIndex), Ack, Some(p.value),
                             now, 0, 0));
        NotedStep(sub.request.objectId, properties[..k], p, now);
        assert properties[..k + 1] == properties[..k] + [p];
      }
      assert properties[..|properties|] == properties;
    }
  }

  /** What the properties of a notification add to the cache. */
  function Noted(objectId: ObjectId, properties: seq<WireProperty>, now: uint32): seq<Attempt> {
    seq(|properties|, i requires 0 <= i < |properties| =>
      var p := properties[i];
      Attempt(PropertyRequest(objectId, p.property, p.arrayIndex), Ack, Some(p.value), now, 0, 0))
  }

  lemma NotedStep(objectId: ObjectId, properties: seq<WireProperty>, p: WireProperty, now: uint32)
    ensures Noted(objectId, properties + [p], now)
            == Noted(objectId, properties, now)
               + [Attempt(PropertyRequest(objectId, p.property, p.arrayIndex), Ack, Some(p.value), now, 0, 0)]
  {}

  /** What a finished read or notification adds to the cache. */
  function Recorded(
    sub: Subscription, x: Outcome, status: PropertyReadStatus, now: uint32, errorClass: uint32, errorCode: uint32)
    : seq<Attempt>
    reads sub
  {
    [Attempt(sub.request, status, x.value, now, errorClass, errorCode)] + Noted(sub.request.objectId, x.properties, now)
  }

  lemma EmptyLog(o: ScanOptions, capacity: nat, device: ObjectId)
    ensures Issued([], o, capacity, device) && Replay([], o, capacity) == Start()
    ensures RequestOf(Start(), device) == PropertyRequest(device, OBJECT_LIST, 0)
  {}

  /** What a caller finds in the buffer of a completed scan: exactly what the specification says. */
  lemma CompletedJobMeetsSpecification(job: ObjectListScanJob, answers: seq<Reply>)
    requires job.Valid() && job.status.JobComplete? && job.log != []
    requires CountOf(job.log[0].reply).Some? ==>
               |answers| == Limited(job.options, CountOf(job.log[0].reply).value)
    requires FromDevice(job.log, answers)
    ensures CountOf(job.log[0].reply).Some?
    ensures job.result == Summary(job.options, job.Capacity(), CountOf(job.log[0].reply).value, answers)
    ensures job.results != null ==>
              job.result.stored <= job.results.Length &&
              StoredIds(job.results[..job.result.stored])
              == FirstOf(WantedIds(job.options, AckedPrefix(answers)), job.resultCapacity) &&
              forall k :: 0 <= k < job.result.stored ==> FullyRead(job.options, job.results[k])
  {
    RunReads(job.log, job.options, job.Capacity(), job.session.device);
    CompleteScanMeetsSpecification(job.log, job.options, job.Capacity(), job.session.device, answers);
  }

  /**
   A failed job got one reply, which brought no count; its count is reported as acknowledged exactly
   when that reply acknowledged something that is no number.
   */
  lemma FailedJobCountIff(job: ObjectListScanJob)
    requires job.Valid() && job.status.JobFailed?
    ensures |job.log| == 1 && CountOf(job.log[0].reply).None?
    ensures job.result.countStatus.DeviceAck? <==> Acked(job.log[0].reply)
  {
    FailedCountStatusIff(job.log, job.options, job.Capacity(), job.session.device);
  }

  /** The requests a job has sent so far. */
  ghost function RequestsOf(job: ObjectListScanJob): nat
    reads job
  {
    |job.log| + if job.status.JobActive? then 1 else 0
  }

  /** No job ever sends more than one request for the count, one an entry, and the enabled reads an object. */
  lemma JobRequestBound(job: ObjectListScanJob)
    requires job.Valid() && (job.status.JobActive? || job.status.JobComplete? || job.status.JobFailed?)
    ensures RequestsOf(job)
            <= 1 + (if job.log != [] && CountOf(job.log[0].reply).Some?
                    then Limited(job.options, CountOf(job.log[0].reply).value) else 0)
               + EnabledReads(job.options) * job.result.stored
  {
    hide EnabledReads;
    if job.log == [] {
      assert RequestsOf(job) <= 1;
    } else {
      RequestBound(job.log, job.options, job.Capacity(), job.session.device);
    }
  }

  // ----- building a registry

  lemma EmptyIsSound()
    ensures Sound(Registry({}, {}, {}, {}))
  {}

  lemma NewSessionIsSound(r: Registry, s: Session)
    requires Sound(r) && s.inFlightScan == null && s.inFlightRead == null && s.inFlightSubscription == null
    requires s !in r.sessions
    ensures Sound(r.(sessions := r.sessions + {s}))
  {}

  lemma NewScanIsSound(r: Registry, job: ObjectListScanJob)
    requires Sound(r) && job.session == null && job.status.JobIdle?
    ensures Sound(r.(scans := r.scans + {job}))
  {}

  lemma NewReadIsSound(r: Registry, job: PropertyReadJob)
    requires Sound(r) && job.session == null && job.status.JobIdle?
    ensures Sound(r.(readJobs := r.readJobs + {job}))
  {}

  lemma NewSubscriptionIsSound(r: Registry, sub: Subscription)
    requires Sound(r) && sub !in r.subs && !sub.inFlight && (sub.session == null || sub.session in r.sessions)
    ensures Sound(r.(subs := r.subs + {sub}))
  {}

  /** A reply to the request an active scan waits for moves it on and leaves less to do. */
  lemma LogReply(log: Log, x: Exchange, o: ScanOptions, capacity: nat, device: ObjectId)
    requires Issued(log, o, capacity, device) && Finished(x.reply)
    requires var s := Replay(log, o, capacity); s.status.JobActive? && x.request == RequestOf(s, device)
    ensures Issued(log + [x], o, capacity, device)
    ensures Replay(log + [x], o, capacity) == Next(Replay(log, o, capacity), o, capacity, x.reply)
    ensures Work(Replay(log + [x], o, capacity), o) < Work(Replay(log, o, capacity), o)
  {
    hide Next, Work, RequestOf;
    assert (log + [x])[..|log|] == log;
    NextDecreases(Replay(log, o, capacity), o, capacity, x.reply);
  }
}
