/**
 The server's COV tables, updated in place. Each method ends in the state that the step functions
 of `CovEngine` give; the ghost field `table` is the value those functions work on, and `outputs`
 is everything an observer has seen so far.
 */
module CovServer {
  import opened BacnetTypes
  import opened WrappingClock
  import opened Framing
  import opened CovEngine
  import CovRegistry

  const MAX_SUBSCRIPTIONS: nat := 8

  /** An outcome with earlier outputs put before its own. */
  ghost function Join(done: seq<Output>, r: Outcome): Outcome {
    r.(outputs := done + r.outputs)
  }

  lemma JoinNothing(r: Outcome)
    ensures Join([], r) == r
  {
    assert [] + r.outputs == r.outputs;
  }

  lemma SweepUnrolls(
    t: Table, i: nat, done: seq<Output>, read: Reader, now: uint32, config: Config, delivered: bool)
    requires Shaped(t) && i < |t.slots|
    ensures Join(done, SweepFrom(t, i, read, now, config, delivered))
            == match SweepSlot(t.slots[i], t.nextInvokeId, read, now, config, delivered)
               case Skip(slot, event) =>
                 Join(done + EventOutput(i, event),
                      SweepFrom(t.(slots := t.slots[i := slot]), i + 1, read, now, config, delivered))
               case Transmit(sent) =>
                 Outcome(Table(t.slots[i := sent.slot], sent.nextInvokeId),
                         if delivered then CovNotificationSent else SendFailed, done + [Sent(i, sent.notice)])
  {
    hide SweepSlot;
    match SweepSlot(t.slots[i], t.nextInvokeId, read, now, config, delivered)
    case Skip(slot, event) =>
      var rest := SweepFrom(t.(slots := t.slots[i := slot]), i + 1, read, now, config, delivered);
      assert done + (EventOutput(i, event) + rest.outputs) == done + EventOutput(i, event) + rest.outputs;
    case Transmit(sent) =>
  }

  lemma SweepEnds(t: Table, done: seq<Output>, read: Reader, now: uint32, config: Config, delivered: bool)
    requires Shaped(t)
    ensures Join(done, SweepFrom(t, |t.slots|, read, now, config, delivered)) == Outcome(t, NoDatagram, done)
  {
    assert done + [] == done;
  }

  class Server {
    const config: Config
    const subs: array<Subscription>
    const cells: array2<Cell>
    const confirmedRetries: array<uint8>
    const sendRetries: array<uint8>
    const retryAt: array<uint32>
    var nextInvokeId: uint8

    ghost var table: Table
    ghost var outputs: seq<Output>

    ghost predicate Laid() {
      && subs.Length == confirmedRetries.Length == sendRetries.Length == retryAt.Length == MAX_SUBSCRIPTIONS
      && cells.Length0 == MAX_SUBSCRIPTIONS && cells.Length1 == PROPERTY_COUNT
      && confirmedRetries != sendRetries
    }

    ghost function Parts(): set<object> {
      {this, subs, cells, confirmedRetries, sendRetries, retryAt}
    }

    ghost function SlotAt(i: nat): Slot
      requires Laid() && i < MAX_SUBSCRIPTIONS
      reads subs, cells, confirmedRetries, sendRetries, retryAt
    {
      Slot(subs[i], [cells[i, 0], cells[i, 1]], confirmedRetries[i], sendRetries[i], retryAt[i])
    }

    ghost predicate Valid()
      reads Parts()
    {
      && Laid()
      && |table.slots| == MAX_SUBSCRIPTIONS
      && table.nextInvokeId == nextInvokeId
      && (forall i :: 0 <= i < MAX_SUBSCRIPTIONS ==> table.slots[i] == SlotAt(i))
    }

    /** All slots free, first invoke id 1. */
    constructor (config: Config)
      ensures Valid() && fresh(Parts()) && this.config == config
      ensures table == StartTable(MAX_SUBSCRIPTIONS) && outputs == []
    {
      this.config := config;
      subs := new Subscription[MAX_SUBSCRIPTIONS](i => EMPTY);
      cells := new Cell[MAX_SUBSCRIPTIONS, PROPERTY_COUNT]((i, j) => NO_CELL);
      confirmedRetries := new uint8[MAX_SUBSCRIPTIONS](i => 0);
      sendRetries := new uint8[MAX_SUBSCRIPTIONS](i => 0);
      retryAt := new uint32[MAX_SUBSCRIPTIONS](i => 0);
      nextInvokeId := 1;
      table := StartTable(MAX_SUBSCRIPTIONS);
      outputs := [];
    }

    /** Invalidates the remembered values of a slot. */
    method InvalidateSnapshot(i: nat)
      requires Laid() && i < MAX_SUBSCRIPTIONS
      modifies cells
      ensures forall k, j :: 0 <= k < MAX_SUBSCRIPTIONS && 0 <= j < PROPERTY_COUNT ==>
                cells[k, j] == if k == i then old(cells[k, j]).(valid := false) else old(cells[k, j])
    {
      for property := 0 to PROPERTY_COUNT
        invariant forall k, j :: 0 <= k < MAX_SUBSCRIPTIONS && 0 <= j < PROPERTY_COUNT ==>
                    cells[k, j] == if k == i && j < property then old(cells[k, j]).(valid := false)
                                   else old(cells[k, j])
      {
        cells[i, property] := cells[i, property].(valid := false);
      }
    }

    /** Reads the properties a notification of the slot carries. */
    method CollectCovValues(read: Reader, sub: Subscription) returns (ok: bool, values: seq<LiveProperty>)
      ensures ok == Readable(read, sub) && (ok ==> Carries(values, read, sub))
      ensures ok == Collect(read, sub).Some? && (ok ==> values == Collect(read, sub).value)
    {
      CollectIff(read, sub);
      values := [];
      if sub.isProperty {
        var v := ReadCov(read, sub.monitored, sub.property, sub.arrayIndex);
        if v.None? {
          return false, values;
        }
        return true, [PropertyValue(sub.property, sub.arrayIndex, v.value)];
      }
      var properties := [PRESENT_VALUE, STATUS_FLAGS];
      for index := 0 to PROPERTY_COUNT
        invariant |values| == index
        invariant forall k :: 0 <= k < index ==>
                    var v := ReadCov(read, sub.monitored, properties[k], NO_ARRAY_INDEX);
                    v.Some? && values[k] == PropertyValue(properties[k], NO_ARRAY_INDEX, v.value)
      {
        var v := ReadCov(read, sub.monitored, properties[index], NO_ARRAY_INDEX);
        if v.None? {
          assert Collect(read, sub).None?;
          return false, values;
        }
        values := values + [PropertyValue(properties[index], NO_ARRAY_INDEX, v.value)];
      }
      ok := true;
      assert values == [values[0], values[1]];
    }

    method CovValuesChanged(i: nat, values: seq<LiveProperty>) returns (changed: bool)
      requires Valid() && i < MAX_SUBSCRIPTIONS && |values| <= PROPERTY_COUNT
      ensures changed == AnyChanged(subs[i], table.slots[i].cells, values, 0)
    {
      ghost var remembered := table.slots[i].cells;
      for index := 0 to |values|
        invariant AnyChanged(subs[i], remembered, values, 0) == AnyChanged(subs[i], remembered, values, index)
      {
        assert remembered[index] == cells[i, index];
        if ValueChanged(subs[i], cells[i, index], values[index].value, index) {
          return true;
        }
      }
      changed := false;
    }

    method StoreCovValues(i: nat, values: seq<LiveProperty>)
      requires Laid() && i < MAX_SUBSCRIPTIONS && |values| <= PROPERTY_COUNT
      modifies cells
      ensures [cells[i, 0], cells[i, 1]] == Stored(old([cells[i, 0], cells[i, 1]]), values)
      ensures forall k, j :: 0 <= k < MAX_SUBSCRIPTIONS && k != i && 0 <= j < PROPERTY_COUNT ==>
                cells[k, j] == old(cells[k, j])
    {
      for index := 0 to |values|
        invariant forall k, j :: 0 <= k < MAX_SUBSCRIPTIONS && 0 <= j < PROPERTY_COUNT ==>
                    cells[k, j] == if k == i && j < index then Snapshot(values[j].value) else old(cells[k, j])
      {
        cells[i, index] := Snapshot(values[index].value);
      }
    }

    /** Sends one notification for a slot and records the outcome. */
    method SendCovNotification(
      i: nat, values: seq<LiveProperty>, retransmission: bool, now: uint32, delivered: bool)
      requires Valid() && i < MAX_SUBSCRIPTIONS && |values| <= PROPERTY_COUNT
      modifies Parts()
      ensures Valid()
      ensures var sent := Send(old(table.slots[i]), old(nextInvokeId), values, retransmission, now, config, delivered);
              table == Table(old(table.slots)[i := sent.slot], sent.nextInvokeId) &&
              outputs == old(outputs) + [Sent(i, sent.notice)]
    {
      ghost var sent := Send(table.slots[i], nextInvokeId, values, retransmission, now, config, delivered);
      var invokeId := if subs[i].confirmed then nextInvokeId else 0;
      if subs[i].confirmed {
        nextInvokeId := Increment(nextInvokeId);
      }
      if nextInvokeId == 0 {
        nextInvokeId := 1;
      }
      if !delivered {
        if sendRetries[i] < config.maxRetries {
          sendRetries[i] := Increment(sendRetries[i]);
        }
        retryAt[i] := RetryDeadline(now, config.apduTimeout, sendRetries[i]);
      } else {
        sendRetries[i] := 0;
        retryAt[i] := 0;
        subs[i] := subs[i].(lastSent := now, pendingInvokeId := invokeId,
                            state := if subs[i].confirmed then AwaitingConfirmedAck else Active);
        StoreCovValues(i, values);
      }
      table := Table(table.slots[i := sent.slot], sent.nextInvokeId);
      outputs := outputs + [Sent(i, sent.notice)];
    }

    /** Frees a slot whose lifetime is over. */
    method Expire(i: nat)
      requires Valid() && i < MAX_SUBSCRIPTIONS
      modifies Parts()
      ensures Valid()
      ensures table == old(table).(slots :=
                old(table.slots)[i := Cleared(old(table.slots[i])).(sendRetries := 0, retryAt := 0)])
      ensures outputs == old(outputs) + [Dropped(i)]
    {
      ghost var before := table.slots[i];
      subs[i] := EMPTY;
      InvalidateSnapshot(i);
      confirmedRetries[i] := 0;
      sendRetries[i] := 0;
      retryAt[i] := 0;
      table := table.(slots := table.slots[i := Cleared(before).(sendRetries := 0, retryAt := 0)]);
      outputs := outputs + [Dropped(i)];
    }

    /** Ends the wait of a slot, with or without an acknowledgement. */
    method Settle(i: nat, acknowledged: bool, now: uint32)
      requires Valid() && i < MAX_SUBSCRIPTIONS
      modifies Parts()
      ensures Valid()
      ensures table == old(table).(slots :=
                old(table.slots)[i := Answered(old(table.slots[i]), if acknowledged then Ack else Abort, now)])
      ensures outputs == old(outputs) + [Settled(i)]
    {
      ghost var before := table.slots[i];
      subs[i] := subs[i].(state := Active);
      if acknowledged {
        subs[i] := subs[i].(lastAck := now);
      }
      confirmedRetries[i] := 0;
      table := table.(slots := table.slots[i := Answered(before, if acknowledged then Ack else Abort, now)]);
      outputs := outputs + [Settled(i)];
    }

    /** Sets the count of retransmissions made since the notification went out. */
    method SetConfirmedRetries(i: nat, count: uint8)
      requires Valid() && i < MAX_SUBSCRIPTIONS
      modifies Parts()
      ensures Valid()
      ensures table == old(table).(slots := old(table.slots)[i := old(table.slots[i]).(confirmedRetries := count)])
      ensures outputs == old(outputs)
    {
      ghost var before := table.slots[i];
      confirmedRetries[i] := count;
      table := table.(slots := table.slots[i := before.(confirmedRetries := count)]);
    }

    /** A slot that waits for an acknowledgement: wait on, retransmit, or give up. */
    method SweepOverdue(i: nat, now: uint32, delivered: bool) returns (done: bool)
      requires Valid() && i < MAX_SUBSCRIPTIONS && subs[i].state == AwaitingConfirmedAck
      modifies Parts()
      ensures Valid()
      ensures match SweepAwaiting(old(table.slots[i]), old(nextInvokeId), now, config, delivered)
              case Skip(slot, event) =>
                !done && table == old(table).(slots := old(table.slots)[i := slot]) &&
                outputs == old(outputs) + EventOutput(i, event)
              case Transmit(sent) =>
                done && table == Table(old(table.slots)[i := sent.slot], sent.nextInvokeId) &&
                outputs == old(outputs) + [Sent(i, sent.notice)]
    {
      hide Send, Recollect, Reached, Cleared, Wrap;
      done := false;
      if config.hasClock && Wrap(now - subs[i].lastSent) >= config.apduTimeout {
        if confirmedRetries[i] >= config.maxRetries {
          Settle(i, false, now);
          return;
        }
        var values := RetryValues(i);
        SetConfirmedRetries(i, Increment(confirmedRetries[i]));
        SendCovNotification(i, values, true, now, delivered);
        done := true;
      }
    }

    /** One iteration of the sweep: `done` when the slot transmitted and the sweep must stop. */
    method SweepOne(i: nat, read: Reader, now: uint32, delivered: bool) returns (done: bool)
      requires Valid() && i < MAX_SUBSCRIPTIONS
      modifies Parts()
      ensures Valid()
      ensures match SweepSlot(old(table.slots[i]), old(nextInvokeId), read, now, config, delivered)
              case Skip(slot, event) =>
                !done && table == old(table).(slots := old(table.slots)[i := slot]) &&
                outputs == old(outputs) + EventOutput(i, event)
              case Transmit(sent) =>
                done && table == Table(old(table.slots)[i := sent.slot], sent.nextInvokeId) &&
                outputs == old(outputs) + [Sent(i, sent.notice)]
    {
      hide Send, Collect, Recollect, AnyChanged, Reached, Cleared, Wrap, SweepAwaiting;
      done := false;
      if subs[i].state == Inactive {
        return;
      }
      if subs[i].lifetime != 0 && config.hasClock && Reached(now, subs[i].expiresAt) {
        Expire(i);
        return;
      }
      if retryAt[i] != 0 && !Reached(now, retryAt[i]) {
        return;
      }
      if subs[i].state == AwaitingConfirmedAck {
        done := SweepOverdue(i, now, delivered);
        return;
      }
      var readable, values := CollectCovValues(read, subs[i]);
      if !readable {
        return;
      }
      var changed := CovValuesChanged(i, values);
      if !changed {
        return;
      }
      SetConfirmedRetries(i, 0);
      SendCovNotification(i, values, false, now, delivered);
      done := true;
    }

    /** Rebuilds the values of a retransmission from the snapshot. */
    method RetryValues(i: nat) returns (values: seq<LiveProperty>)
      requires Valid() && i < MAX_SUBSCRIPTIONS
      ensures values == Recollect(subs[i], table.slots[i].cells)
    {
      var count := if subs[i].isProperty then 1 else PROPERTY_COUNT;
      values := [];
      for property := 0 to count
        invariant values == Recollect(subs[i], table.slots[i].cells)[..property]
      {
        assert table.slots[i].cells[property] == cells[i, property];
        var name := if subs[i].isProperty then subs[i].property
                    else if property == 0 then PRESENT_VALUE else STATUS_FLAGS;
        var arrayIndex := if subs[i].isProperty then subs[i].arrayIndex else NO_ARRAY_INDEX;
        values := values + [PropertyValue(name, arrayIndex, Restored(cells[i, property]))];
      }
    }

    method ProcessCovSubscriptions(read: Reader, now: uint32, delivered: bool) returns (result: PollResult)
      requires Valid()
      modifies Parts()
      ensures Valid()
      ensures var r := Sweep(old(table), read, now, config, delivered);
              table == r.table && result == r.result && outputs == old(outputs) + r.outputs
      ensures SentTruly(outputs[|old(outputs)|..], 0, old(table.slots), read)
    {
      hide SweepFrom, SweepSlot, SentTruly;
      SweepSendsTruly(table, 0, read, now, config, delivered);
      ghost var start, seen := table, outputs;
      ghost var done := [];
      JoinNothing(SweepFrom(start, 0, read, now, config, delivered));
      for i := 0 to MAX_SUBSCRIPTIONS
        invariant Valid()
        invariant outputs == seen + done
        invariant Sweep(start, read, now, config, delivered)
                  == Join(done, SweepFrom(table, i, read, now, config, delivered))
      {
        SweepUnrolls(table, i, done, read, now, config, delivered);
        ghost var step := SweepSlot(table.slots[i], table.nextInvokeId, read, now, config, delivered);
        var transmitted := SweepOne(i, read, now, delivered);
        if transmitted {
          return if delivered then CovNotificationSent else SendFailed;
        }
        done := done + EventOutput(i, step.event);
      }
      SweepEnds(table, done, read, now, config, delivered);
      result := NoDatagram;
    }

    /** The acknowledgement loop that every received packet passes first. */
    method HandleAnswer(source: Endpoint, packet: Bytes, now: uint32) returns (handled: bool)
      requires Valid()
      modifies Parts()
      ensures Valid()
      ensures match Answer(old(table), source, packet, now)
              case None => !handled && table == old(table) && outputs == old(outputs)
              case Some(r) => handled && table == r.table && outputs == old(outputs) + r.outputs
    {
      for i := 0 to MAX_SUBSCRIPTIONS
        invariant Valid() && table == old(table) && outputs == old(outputs) && nextInvokeId == old(nextInvokeId)
        invariant FindAnswered(table.slots, 0, source, packet) == FindAnswered(table.slots, i, source, packet)
      {
        hide ClassifyCovResponse;
        if subs[i].state != AwaitingConfirmedAck || subs[i].peer != source {
          continue;
        }
        var kind := ClassifyCovResponse(packet, subs[i].pendingInvokeId);
        if kind == Ack {
          Settle(i, true, now);
          return true;
        }
        if kind == Error || kind == Reject || kind == Abort {
          Settle(i, false, now);
          return true;
        }
      }
      handled := false;
    }

    /** The match for a key and the first free slot before it. */
    method FindSubscription(key: Key) returns (matched: Option<nat>, free: Option<nat>)
      requires Valid()
      ensures Found(matched, free) == Find(table.slots, key, 0, None)
      ensures matched.Some? ==> matched.value < MAX_SUBSCRIPTIONS
      ensures free.Some? ==> free.value < MAX_SUBSCRIPTIONS
    {
      matched, free := None, None;
      for i := 0 to MAX_SUBSCRIPTIONS
        invariant matched == None && (free.Some? ==> free.value < MAX_SUBSCRIPTIONS)
        invariant Find(table.slots, key, 0, None) == Find(table.slots, key, i, free)
      {
        if subs[i].state == Inactive {
          if free == None {
            free := Some(i);
          }
        } else if KeyOf(subs[i]) == key {
          matched := Some(i);
          return;
        }
      }
    }

    method HandleSubscribeCov(source: Endpoint, q: Request, read: Reader, now: uint32, delivered: bool)
      returns (result: PollResult)
      requires Valid()
      modifies Parts()
      ensures Valid()
      ensures var r := Subscribe(old(table), source, q, read, now, config, delivered);
              table == r.table && result == r.result && outputs == old(outputs) + r.outputs
      ensures CovRegistry.NoDuplicates(old(table).slots) ==>
                var m := CovRegistry.Registry(old(table).slots);
                var reply := CovRegistry.Verdict(m, MAX_SUBSCRIPTIONS, source, q, read);
                CovRegistry.NoDuplicates(table.slots) &&
                CovRegistry.Registry(table.slots)
                == CovRegistry.RegistryAfter(m, MAX_SUBSCRIPTIONS, source, q, read, now, config) &&
                result == if !delivered then SendFailed
                          else if reply == AckReply then SubscribeCovAckSent
                          else SubscribeCovErrorSent
    {
      hide CovRegistry.NoDuplicates, CovRegistry.Registry, CovRegistry.RegistryAfter, CovRegistry.Verdict;
      hide Find, GrantedTerms, GrantSlot, Cleared, RequestKey;
      if CovRegistry.NoDuplicates(table.slots) {
        CovRegistry.SubscribeRefinesRegistry(table, source, q, read, now, config);
      }
      var property := if q.isProperty then q.property else PRESENT_VALUE;
      var current := ReadCov(read, q.monitored, property, q.arrayIndex);
      if current.None? {
        return Reported(UNKNOWN_PROPERTY, delivered);
      }
      if !q.isProperty {
        var flags := ReadCov(read, q.monitored, STATUS_FLAGS, NO_ARRAY_INDEX);
        if flags.None? {
          return Reported(UNKNOWN_PROPERTY, delivered);
        }
      }
      if q.hasIncrement && (!q.isProperty || property != PRESENT_VALUE || !current.value.Real?) {
        return Reported(OUT_OF_RANGE, delivered);
      }
      var matched, free := FindSubscription(RequestKey(source, q));
      if q.lifetime == 0 {
        if matched.Some? {
          Cancel(matched.value);
        }
      } else {
        var target := if matched.Some? then matched else free;
        if target.None? {
          return Reported(NO_SPACE, delivered);
        }
        Grant(target.value, GrantedTerms(source, q, now, config));
      }
      result := Reported(AckReply, delivered);
    }

    /** Frees a slot at its subscriber's request. */
    method Cancel(i: nat)
      requires Valid() && i < MAX_SUBSCRIPTIONS
      modifies Parts()
      ensures Valid()
      ensures table == old(table).(slots := old(table.slots)[i := Cleared(old(table.slots[i]))])
      ensures outputs == old(outputs) + [Cancelled(i)]
    {
      ghost var before := table.slots[i];
      subs[i] := EMPTY;
      InvalidateSnapshot(i);
      confirmedRetries[i] := 0;
      table := table.(slots := table.slots[i := Cleared(before)]);
      outputs := outputs + [Cancelled(i)];
    }

    /** Puts new terms in a slot; the next sweep notifies because nothing is remembered. */
    method Grant(i: nat, terms: Subscription)
      requires Valid() && i < MAX_SUBSCRIPTIONS
      modifies Parts()
      ensures Valid()
      ensures table == old(table).(slots := old(table.slots)[i := GrantSlot(old(table.slots[i]), terms)])
      ensures outputs == old(outputs) + [Granted(i, terms)]
    {
      ghost var before := table.slots[i];
      subs[i] := terms;
      InvalidateSnapshot(i);
      confirmedRetries[i] := 0;
      sendRetries[i] := 0;
      retryAt[i] := 0;
      table := table.(slots := table.slots[i := GrantSlot(before, terms)]);
      outputs := outputs + [Granted(i, terms)];
    }
  }
}
