/**
 The subscription table as a bounded map from subscription keys to contracts. Requests and sweeps
 on the table are operations on that map.
 */
module CovRegistry {
  import opened BacnetTypes
  import opened WrappingClock
  import opened Framing
  import opened CovEngine

  /** What a subscriber was promised. */
  datatype Contract = Contract(
    confirmed: bool, lifetime: uint32, expiresAt: uint32, hasIncrement: bool, increment: real)

  function ContractOf(sub: Subscription): Contract {
    Contract(sub.confirmed, sub.lifetime, sub.expiresAt, sub.hasIncrement, sub.increment)
  }

  ghost predicate NoDuplicates(slots: seq<Slot>) {
    forall i, j :: 0 <= i < j < |slots| && Live(slots[i]) && Live(slots[j]) ==>
      KeyOf(slots[i].sub) != KeyOf(slots[j].sub)
  }

  ghost predicate Holds(slots: seq<Slot>, i: int, key: Key) {
    0 <= i < |slots| && Live(slots[i]) && KeyOf(slots[i].sub) == key
  }

  ghost function Keys(slots: seq<Slot>): set<Key> {
    set i | 0 <= i < |slots| && Live(slots[i]) :: KeyOf(slots[i].sub)
  }

  lemma KeysHeld(slots: seq<Slot>, key: Key)
    ensures key in Keys(slots) <==> exists i :: Holds(slots, i, key)
  {
    if key in Keys(slots) {
      var i :| 0 <= i < |slots| && Live(slots[i]) && KeyOf(slots[i].sub) == key;
      assert Holds(slots, i, key);
    }
    if i :| Holds(slots, i, key) {
      assert KeyOf(slots[i].sub) in Keys(slots);
    }
  }

  ghost function ContractAt(slots: seq<Slot>, key: Key): Contract
    requires key in Keys(slots)
  {
    KeysHeld(slots, key);
    var i :| Holds(slots, i, key);
    ContractOf(slots[i].sub)
  }

  ghost function Registry(slots: seq<Slot>): map<Key, Contract> {
    map key | key in Keys(slots) :: ContractAt(slots, key)
  }

  lemma Lookup(slots: seq<Slot>, i: nat)
    requires NoDuplicates(slots) && i < |slots| && Live(slots[i])
    ensures KeyOf(slots[i].sub) in Registry(slots)
    ensures Registry(slots)[KeyOf(slots[i].sub)] == ContractOf(slots[i].sub)
  {
    var key := KeyOf(slots[i].sub);
    KeysHeld(slots, key);
    assert Holds(slots, i, key);
    forall j | Holds(slots, j, key)
      ensures j == i
    {}
  }

  /** A registry is settled by what its slots hold. */
  lemma RegistryIs(slots: seq<Slot>, m: map<Key, Contract>)
    requires NoDuplicates(slots)
    requires forall i :: 0 <= i < |slots| && Live(slots[i]) ==>
               KeyOf(slots[i].sub) in m && m[KeyOf(slots[i].sub)] == ContractOf(slots[i].sub)
    requires forall key :: key in m ==> exists i :: Holds(slots, i, key)
    ensures Registry(slots) == m
  {
    forall key
      ensures key in Registry(slots) <==> key in m
      ensures key in m ==> Registry(slots)[key] == m[key]
    {
      KeysHeld(slots, key);
      if i :| Holds(slots, i, key) {
        Lookup(slots, i);
      }
    }
  }

  // ----- replacing one slot

  /** A change that keeps key and contract keeps the registry. */
  lemma KeepSlot(slots: seq<Slot>, i: nat, slot: Slot)
    requires NoDuplicates(slots) && i < |slots|
    requires Live(slot) == Live(slots[i])
    requires Live(slot) ==> KeyOf(slot.sub) == KeyOf(slots[i].sub) && ContractOf(slot.sub) == ContractOf(slots[i].sub)
    ensures NoDuplicates(slots[i := slot]) && Registry(slots[i := slot]) == Registry(slots)
  {
    var slots' := slots[i := slot];
    forall j | 0 <= j < |slots'| && Live(slots'[j])
      ensures KeyOf(slots'[j].sub) in Registry(slots)
      ensures Registry(slots)[KeyOf(slots'[j].sub)] == ContractOf(slots'[j].sub)
    {
      Lookup(slots, j);
    }
    forall key | key in Registry(slots)
      ensures exists j :: Holds(slots', j, key)
    {
      KeysHeld(slots, key);
      var j :| Holds(slots, j, key);
      assert Holds(slots', j, key);
    }
    RegistryIs(slots', Registry(slots));
  }

  /** Freeing a slot removes its key and nothing else. */
  lemma FreeSlot(slots: seq<Slot>, i: nat, slot: Slot)
    requires NoDuplicates(slots) && i < |slots| && Live(slots[i]) && !Live(slot)
    ensures NoDuplicates(slots[i := slot])
    ensures Registry(slots[i := slot]) == Registry(slots) - {KeyOf(slots[i].sub)}
  {
    var slots' := slots[i := slot];
    var m := Registry(slots) - {KeyOf(slots[i].sub)};
    forall j | 0 <= j < |slots'| && Live(slots'[j])
      ensures KeyOf(slots'[j].sub) in m && m[KeyOf(slots'[j].sub)] == ContractOf(slots'[j].sub)
    {
      Lookup(slots, j);
    }
    forall key | key in m
      ensures exists j :: Holds(slots', j, key)
    {
      KeysHeld(slots, key);
      var j :| Holds(slots, j, key);
      assert Holds(slots', j, key);
    }
    RegistryIs(slots', m);
  }

  /** Filling a slot that is free, or held by the same key, sets exactly that key. */
  lemma FillSlot(slots: seq<Slot>, i: nat, slot: Slot)
    requires NoDuplicates(slots) && i < |slots| && Live(slot)
    requires forall j :: 0 <= j < |slots| && Live(slots[j]) && KeyOf(slots[j].sub) == KeyOf(slot.sub) ==> j == i
    requires Live(slots[i]) ==> KeyOf(slots[i].sub) == KeyOf(slot.sub)
    ensures NoDuplicates(slots[i := slot])
    ensures Registry(slots[i := slot]) == Registry(slots)[KeyOf(slot.sub) := ContractOf(slot.sub)]
  {
    var slots' := slots[i := slot];
    var m := Registry(slots)[KeyOf(slot.sub) := ContractOf(slot.sub)];
    forall j | 0 <= j < |slots'| && Live(slots'[j])
      ensures KeyOf(slots'[j].sub) in m && m[KeyOf(slots'[j].sub)] == ContractOf(slots'[j].sub)
    {
      if j != i {
        Lookup(slots, j);
      }
    }
    forall key | key in m
      ensures exists j :: Holds(slots', j, key)
    {
      if key == KeyOf(slot.sub) {
        assert Holds(slots', i, key);
      } else {
        KeysHeld(slots, key);
        var j :| Holds(slots, j, key);
        assert Holds(slots', j, key);
      }
    }
    RegistryIs(slots', m);
  }

  // ----- size

  /** The map never outgrows the table, and a slot is free exactly when the map is smaller. */
  lemma RegistrySize(slots: seq<Slot>)
    requires NoDuplicates(slots)
    ensures |Registry(slots)| <= |slots|
    ensures |Registry(slots)| == |slots| <==> AllLive(slots)
  {
    KeyCount(slots);
    assert Registry(slots).Keys == Keys(slots);
    assert |Registry(slots).Keys| == |Registry(slots)|;
  }

  lemma {:induction false} KeyCount(slots: seq<Slot>)
    requires NoDuplicates(slots)
    ensures |Keys(slots)| <= |slots|
    ensures |Keys(slots)| == |slots| <==> AllLive(slots)
  {
    if slots == [] {
      assert Keys(slots) == {};
    } else {
      hide Keys, NoDuplicates, KeyOf, Live, AllLive;
      var n := |slots| - 1;
      var front := slots[..n];
      FrontNoDuplicates(slots);
      KeyCount(front);
      LastKey(slots);
      if Live(slots[n]) {
        LastKeyIsNew(slots);
      }
      AllLiveSplits(slots, front, slots[n]);
    }
  }

  predicate AllLive(slots: seq<Slot>) {
    forall i :: 0 <= i < |slots| ==> Live(slots[i])
  }

  lemma AllLiveSplits(slots: seq<Slot>, front: seq<Slot>, last: Slot)
    requires slots == front + [last]
    ensures AllLive(slots) <==> AllLive(front) && Live(last)
  {
    if AllLive(slots) {
      assert forall i :: 0 <= i < |front| ==> front[i] == slots[i];
      assert slots[|front|] == last;
    }
  }

  lemma FrontNoDuplicates(slots: seq<Slot>)
    requires slots != [] && NoDuplicates(slots)
    ensures NoDuplicates(slots[..|slots| - 1])
  {}

  lemma LastKeyIsNew(slots: seq<Slot>)
    requires slots != [] && NoDuplicates(slots) && Live(slots[|slots| - 1])
    ensures KeyOf(slots[|slots| - 1].sub) !in Keys(slots[..|slots| - 1])
  {
    var n := |slots| - 1;
    KeysHeld(slots[..n], KeyOf(slots[n].sub));
  }

  lemma LastKey(slots: seq<Slot>)
    requires slots != []
    ensures var n := |slots| - 1;
            Keys(slots) == Keys(slots[..n]) + (if Live(slots[n]) then {KeyOf(slots[n].sub)} else {})
  {
    var n := |slots| - 1;
    forall key
      ensures key in Keys(slots) <==>
              key in Keys(slots[..n]) + (if Live(slots[n]) then {KeyOf(slots[n].sub)} else {})
    {
      KeysHeld(slots, key);
      KeysHeld(slots[..n], key);
      if i :| Holds(slots, i, key) {
        if i < n {
          assert Holds(slots[..n], i, key);
        }
      }
      if i :| Holds(slots[..n], i, key) {
        assert Holds(slots, i, key);
      }
      if Live(slots[n]) && key == KeyOf(slots[n].sub) {
        assert Holds(slots, n, key);
      }
    }
  }

  lemma RegistryKeys(slots: seq<Slot>)
    ensures Registry(slots).Keys == Keys(slots)
  {}

  // ----- the operations

  /** The property a request is about, which must be readable as a whole, and with it any status flags. */
  predicate Answerable(q: Request, read: Reader) {
    q.arrayIndex == NO_ARRAY_INDEX &&
    if q.isProperty then (q.monitored, q.property) in read
    else (q.monitored, PRESENT_VALUE) in read && (q.monitored, STATUS_FLAGS) in read
  }

  /** An increment goes only with a property request for a Present_Value that reads as a REAL. */
  predicate IncrementFits(q: Request, read: Reader)
    requires Answerable(q, read)
  {
    q.hasIncrement ==>
      q.isProperty && q.property == PRESENT_VALUE && read[(q.monitored, PRESENT_VALUE)].Real?
  }

  function AskedKey(source: Endpoint, q: Request): Key {
    Key(source, q.processId, q.monitored, q.isProperty, if q.isProperty then q.property else PRESENT_VALUE,
        q.arrayIndex)
  }

  /** How a request is answered, given the map: unknown property, value out of range, no space, or yes. */
  ghost function Verdict(
    m: map<Key, Contract>, capacity: nat, source: Endpoint, q: Request, read: Reader): Reply
  {
    if !Answerable(q, read) then ErrorReply(2, 32)
    else if !IncrementFits(q, read) then ErrorReply(2, 37)
    else if q.lifetime != 0 && AskedKey(source, q) !in m && |m| >= capacity then ErrorReply(2, 18)
    else AckReply
  }

  /** What a subscriber asks to be promised. */
  function AskedContract(q: Request, now: uint32, config: Config): Contract {
    Contract(q.confirmed, q.lifetime, if config.hasClock then Wrap(now + 1000 * q.lifetime) else 0,
             q.hasIncrement, q.increment)
  }

  /** What a subscription request does to the map. */
  ghost function RegistryAfter(
    m: map<Key, Contract>, capacity: nat, source: Endpoint, q: Request, read: Reader, now: uint32, config: Config)
    : map<Key, Contract>
  {
    if !Verdict(m, capacity, source, q, read).AckReply? then m
    else if q.lifetime == 0 then m - {AskedKey(source, q)}
    else m[AskedKey(source, q) := AskedContract(q, now, config)]
  }

  lemma RefusalIff(q: Request, read: Reader)
    ensures Refusal(q, read) == if !Answerable(q, read) then Some(ErrorReply(2, 32))
                                else if !IncrementFits(q, read) then Some(ErrorReply(2, 37))
                                else None
  {}

  lemma GrantedAsAsked(source: Endpoint, q: Request, now: uint32, config: Config)
    ensures RequestKey(source, q) == AskedKey(source, q)
    ensures ContractOf(GrantedTerms(source, q, now, config)) == AskedContract(q, now, config)
  {
    WrapOfSum(q.lifetime * 1000, now);
  }

  lemma GrantedIsLive(slot: Slot, source: Endpoint, q: Request, now: uint32, config: Config)
    ensures var granted := GrantSlot(slot, GrantedTerms(source, q, now, config));
            Live(granted) && KeyOf(granted.sub) == RequestKey(source, q) &&
            granted.sub == GrantedTerms(source, q, now, config)
    ensures !Live(Cleared(slot))
  {}

  /** A key that no slot holds is not in the map, and the other way round. */
  lemma HeldIff(slots: seq<Slot>, key: Key)
    ensures key in Registry(slots) <==> exists i :: Holds(slots, i, key)
  {
    RegistryKeys(slots);
    KeysHeld(slots, key);
  }

  /**
   A request inserts or replaces exactly its key, lifetime zero removes exactly its key, a refused
   request and a full table leave the map alone; each is answered as the request, the readings and
   the map decide; and no key is ever in the table twice.
   */
  lemma SubscribeRefinesRegistry(t: Table, source: Endpoint, q: Request, read: Reader, now: uint32, config: Config)
    requires NoDuplicates(t.slots)
    ensures var (t', outputs, reply) := Decide(t, source, q, read, now, config);
            var m := Registry(t.slots);
            NoDuplicates(t'.slots) && |t'.slots| == |t.slots| &&
            reply == Verdict(m, |t.slots|, source, q, read) &&
            Registry(t'.slots) == RegistryAfter(m, |t.slots|, source, q, read, now, config)
  {
    RefusalIff(q, read);
    GrantedAsAsked(source, q, now, config);
    hide Refusal, GrantedTerms, GrantSlot, Cleared, RequestKey, Registry, ContractOf, KeyOf, Find;
    hide Answerable, IncrementFits, AskedKey, AskedContract;
    if Refusal(q, read) == None {
      var key := RequestKey(source, q);
      var f := Find(t.slots, key, 0, None);
      FindIsInRange(t.slots, key, 0, None);
      HeldIff(t.slots, key);
      RegistrySize(t.slots);
      if f.matched.Some? {
        var i := f.matched.value;
        assert Holds(t.slots, i, key);
        GrantedIsLive(t.slots[i], source, q, now, config);
        if q.lifetime == 0 {
          FreeSlot(t.slots, i, Cleared(t.slots[i]));
        } else {
          FillSlot(t.slots, i, GrantSlot(t.slots[i], GrantedTerms(source, q, now, config)));
        }
      } else {
        assert forall i :: !Holds(t.slots, i, key);
        if q.lifetime == 0 {
          assert Registry(t.slots) - {key} == Registry(t.slots);
        } else if f.free.Some? {
          var i := f.free.value;
          GrantedIsLive(t.slots[i], source, q, now, config);
          assert forall j :: 0 <= j < |t.slots| && Live(t.slots[j]) && KeyOf(t.slots[j].sub) == key ==>
                               Holds(t.slots, j, key);
          FillSlot(t.slots, i, GrantSlot(t.slots[i], GrantedTerms(source, q, now, config)));
        }
      }
    }
  }

  /**
   A request is acknowledged if and only if what it is about can be read, an increment goes with a
   real Present_Value, and it ends a contract, renews one or finds room.
   */
  lemma AcknowledgedIff(t: Table, source: Endpoint, q: Request, read: Reader, now: uint32, config: Config)
    requires NoDuplicates(t.slots)
    ensures var m := Registry(t.slots);
            Decide(t, source, q, read, now, config).2 == AckReply
            <==> Answerable(q, read) && IncrementFits(q, read) &&
                 (q.lifetime == 0 || AskedKey(source, q) in m || |m| < |t.slots|)
  {
    hide Decide, Registry, NoDuplicates, AskedKey, Answerable, IncrementFits;
    SubscribeRefinesRegistry(t, source, q, read, now, config);
  }

  /** An answer to a notification leaves the map alone. */
  lemma AnswerKeepsRegistry(t: Table, source: Endpoint, packet: Bytes, now: uint32)
    requires NoDuplicates(t.slots)
    ensures var r := Answer(t, source, packet, now);
            r.Some? ==> NoDuplicates(r.value.table.slots) && Registry(r.value.table.slots) == Registry(t.slots)
  {
    hide ClassifyCovResponse;
    var i := FindAnswered(t.slots, 0, source, packet);
    FindAnsweredIsAwaiting(t.slots, 0, source, packet);
    if i < |t.slots| {
      var kind := ClassifyCovResponse(packet, t.slots[i].sub.pendingInvokeId);
      KeepSlot(t.slots, i, Answered(t.slots[i], kind, now));
    }
  }

  lemma {:induction false} FindAnsweredIsAwaiting(slots: seq<Slot>, from: nat, source: Endpoint, packet: Bytes)
    requires from <= |slots|
    ensures var i := FindAnswered(slots, from, source, packet);
            i < |slots| ==> slots[i].sub.state == AwaitingConfirmedAck && slots[i].sub.peer == source &&
                            Settles(ClassifyCovResponse(packet, slots[i].sub.pendingInvokeId))
    decreases |slots| - from
  {
    hide ClassifyCovResponse;
    if from < |slots| {
      FindAnsweredIsAwaiting(slots, from + 1, source, packet);
    }
  }

  ghost predicate ContractExpired(c: Contract, now: uint32, config: Config) {
    c.lifetime != 0 && config.hasClock && Reached(now, c.expiresAt)
  }

  /** What one slot of the sweep does to the map. */
  lemma SweepSlotAndRegistry(
    slots: seq<Slot>, i: nat, nextInvokeId: uint8, read: Reader, now: uint32, config: Config, delivered: bool)
    requires NoDuplicates(slots) && i < |slots| && |slots[i].cells| == PROPERTY_COUNT
    ensures var step := SweepSlot(slots[i], nextInvokeId, read, now, config, delivered);
            var slot := if step.Skip? then step.slot else step.result.slot;
            var m := Registry(slots);
            NoDuplicates(slots[i := slot]) &&
            (step.Transmit? ==> Live(slots[i]) && !HasExpired(slots[i].sub, now, config)) &&
            Registry(slots[i := slot])
            == if Live(slots[i]) && HasExpired(slots[i].sub, now, config) then m - {KeyOf(slots[i].sub)} else m
  {
    hide Reached, Wrap, AnyChanged, Collect, Recollect, RetryDeadline, SecondsLeft, Registry, NoDuplicates;
    var step := SweepSlot(slots[i], nextInvokeId, read, now, config, delivered);
    var slot := if step.Skip? then step.slot else step.result.slot;
    if Live(slots[i]) && HasExpired(slots[i].sub, now, config) {
      FreeSlot(slots, i, slot);
    } else {
      KeepSlot(slots, i, slot);
    }
  }

  /**
   A sweep only ever drops keys whose contract has expired, changes no contract, and when it
   reaches the end of the table it has dropped every expired one.
   */
  lemma {:induction false} SweepRefinesRegistry(
    t: Table, from: nat, read: Reader, now: uint32, config: Config, delivered: bool)
    requires Shaped(t) && from <= |t.slots| && NoDuplicates(t.slots)
    requires forall i :: 0 <= i < from && Live(t.slots[i]) ==> !HasExpired(t.slots[i].sub, now, config)
    ensures var r := SweepFrom(t, from, read, now, config, delivered);
            var m, m' := Registry(t.slots), Registry(r.table.slots);
            NoDuplicates(r.table.slots) && m'.Keys <= m.Keys &&
            (forall key :: key in m' ==> m'[key] == m[key]) &&
            (forall key :: key in m && key !in m' ==> ContractExpired(m[key], now, config)) &&
            (r.result == NoDatagram ==> forall key :: key in m' ==> !ContractExpired(m'[key], now, config))
    decreases |t.slots| - from
  {
    hide Reached, SweepSlot, Registry, NoDuplicates, HasExpired;
    var m := Registry(t.slots);
    if from == |t.slots| {
      NothingExpired(t.slots, now, config);
    } else {
      SweepSlotAndRegistry(t.slots, from, t.nextInvokeId, read, now, config, delivered);
      var step := SweepSlot(t.slots[from], t.nextInvokeId, read, now, config, delivered);
      if Live(t.slots[from]) && HasExpired(t.slots[from].sub, now, config) {
        Lookup(t.slots, from);
        assert ContractExpired(m[KeyOf(t.slots[from].sub)], now, config) by {
          ExpiredContract(t.slots[from].sub, now, config);
        }
      }
      if step.Skip? {
        var t' := t.(slots := t.slots[from := step.slot]);
        SkippedIsNotExpired(t.slots[from], t.nextInvokeId, read, now, config, delivered);
        SweepRefinesRegistry(t', from + 1, read, now, config, delivered);
      }
    }
  }

  lemma ExpiredContract(sub: Subscription, now: uint32, config: Config)
    ensures ContractExpired(ContractOf(sub), now, config) == HasExpired(sub, now, config)
  {}

  lemma SkippedIsNotExpired(
    slot: Slot, nextInvokeId: uint8, read: Reader, now: uint32, config: Config, delivered: bool)
    requires |slot.cells| == PROPERTY_COUNT
    ensures var step := SweepSlot(slot, nextInvokeId, read, now, config, delivered);
            step.Skip? && Live(step.slot) ==> !HasExpired(step.slot.sub, now, config)
  {
    hide Reached, Wrap, AnyChanged, Collect, Recollect, Send;
  }

  lemma NothingExpired(slots: seq<Slot>, now: uint32, config: Config)
    requires NoDuplicates(slots)
    requires forall i :: 0 <= i < |slots| && Live(slots[i]) ==> !HasExpired(slots[i].sub, now, config)
    ensures forall key :: key in Registry(slots) ==> !ContractExpired(Registry(slots)[key], now, config)
  {
    hide Reached;
    forall key | key in Registry(slots)
      ensures !ContractExpired(Registry(slots)[key], now, config)
    {
      KeysHeld(slots, key);
      var i :| Holds(slots, i, key);
      Lookup(slots, i);
    }
  }

  /** A whole sweep on the map: nothing but expired keys goes, and all of them when it runs to the end. */
  lemma SweepDropsOnlyExpired(t: Table, read: Reader, now: uint32, config: Config, delivered: bool)
    requires Shaped(t) && NoDuplicates(t.slots)
    ensures var r := Sweep(t, read, now, config, delivered);
            var m, m' := Registry(t.slots), Registry(r.table.slots);
            NoDuplicates(r.table.slots) && m'.Keys <= m.Keys &&
            (forall key :: key in m' ==> m'[key] == m[key]) &&
            (forall key :: key in m && key !in m' ==> ContractExpired(m[key], now, config)) &&
            (r.result == NoDatagram ==>
               m' == map key | key in m && !ContractExpired(m[key], now, config) :: m[key])
  {
    hide SweepFrom, Registry, NoDuplicates, ContractExpired;
    SweepRefinesRegistry(t, 0, read, now, config, delivered);
  }
}
