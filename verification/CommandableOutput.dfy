/**
 A commandable output: priority writes, relinquishes and default changes, the callbacks they fire,
 and the hook that drives the hardware.
 */
module CommandableOutput {
  import opened BacnetTypes
  import opened CommandPriority

  /** The callbacks, in the order they fire. */
  datatype Event<T> =
    | Applied(value: T, outOfService: bool)
    | SlotChange(priority: uint8, oldOccupied: bool, oldValue: T, newOccupied: bool, newValue: T)
    | PriorityChange(oldPriority: uint8, newPriority: uint8, oldValue: T, newValue: T)
    | ValueChange(oldValue: T, newValue: T)
    | Relinquished(priority: uint8, oldValue: T, newValue: T, newPriority: uint8, defaultActive: bool)

  /** Which callbacks the application registered; `slots` has one flag for each priority. */
  datatype Listeners = Listeners(
    hook: bool, storage: bool, slots: seq<bool>, priority: bool, value: bool, relinquish: bool)

  predicate ListenersShaped(l: Listeners) {
    |l.slots| == SLOT_COUNT
  }

  datatype Output<T> = Output(commands: Commands<T>, outOfService: bool)

  datatype Command<T> =
    | Write(priority: uint8, value: T)
    | Relinquish(priority: uint8, ignored: T)
    | SetDefault(value: T)
    | SetOutOfService(flag: bool)

  /** Everything one change of the priority array can report. */
  datatype Transition<T> = Transition(
    priority: uint8, oldOccupied: bool, oldSlot: T, newOccupied: bool, newSlot: T,
    oldPriority: uint8, newPriority: uint8, oldValue: T, newValue: T, relinquish: bool, outOfService: bool)

  function If<T>(condition: bool, event: Event<T>): seq<Event<T>> {
    if condition then [event] else []
  }

  predicate SlotChanged<T(==)>(t: Transition<T>) {
    t.oldOccupied != t.newOccupied || (t.oldOccupied && t.newOccupied && t.oldSlot != t.newSlot)
  }

  function HookPart<T(==)>(oldValue: T, newValue: T, outOfService: bool, l: Listeners): seq<Event<T>> {
    If(l.hook && oldValue != newValue, Applied(newValue, outOfService))
  }

  function SlotPart<T(==)>(t: Transition<T>, l: Listeners): seq<Event<T>>
    requires ValidPriority(t.priority) && ListenersShaped(l)
  {
    If(l.storage && SlotChanged(t) && l.slots[t.priority - 1],
       SlotChange(t.priority, t.oldOccupied, t.oldSlot, t.newOccupied, t.newSlot))
  }

  function PriorityPart<T>(t: Transition<T>, l: Listeners): seq<Event<T>> {
    If(l.storage && t.oldPriority != t.newPriority && l.priority,
       PriorityChange(t.oldPriority, t.newPriority, t.oldValue, t.newValue))
  }

  function ValuePart<T(==)>(oldValue: T, newValue: T, l: Listeners): seq<Event<T>> {
    If(oldValue != newValue && l.storage && l.value, ValueChange(oldValue, newValue))
  }

  function RelinquishPart<T>(t: Transition<T>, l: Listeners): seq<Event<T>> {
    If(l.storage && t.relinquish && l.relinquish,
       Relinquished(t.priority, t.oldValue, t.newValue, t.newPriority, t.newPriority == 0))
  }

  /** Exactly this slot of the priority array was written with the value, or relinquished. */
  predicate SlotWritten<T(==)>(before: Output<T>, after: Output<T>, slot: uint8, value: Option<T>) {
    Shaped(before.commands) && Shaped(after.commands) && 1 <= slot <= SLOT_COUNT &&
    after.outOfService == before.outOfService &&
    after.commands.relinquishDefault == before.commands.relinquishDefault &&
    after.commands.occupied[slot - 1] == value.Some? &&
    after.commands.slots[slot - 1] == (if value.Some? then value.value else before.commands.slots[slot - 1]) &&
    forall k :: 0 <= k < SLOT_COUNT && k != slot - 1 ==>
      after.commands.occupied[k] == before.commands.occupied[k] &&
      after.commands.slots[k] == before.commands.slots[k]
  }

  lemma WrittenIsSlotWritten<T>(o: Output<T>, slot: uint8, relinquish: bool, value: T)
    requires Shaped(o.commands) && ValidPriority(slot)
    ensures SlotWritten(o, o.(commands := Written(o.commands, slot, relinquish, value)), slot,
                        if relinquish then None else Some(value))
  {}

  /** What a priority write fires, in order. */
  function WriteEvents<T(==)>(t: Transition<T>, l: Listeners): seq<Event<T>>
    requires ValidPriority(t.priority) && ListenersShaped(l)
  {
    HookPart(t.oldValue, t.newValue, t.outOfService, l) +
    ((SlotPart(t, l) + PriorityPart(t, l)) + (ValuePart(t.oldValue, t.newValue, l) + RelinquishPart(t, l)))
  }

  function Observe<T>(
    before: Commands<T>, after: Commands<T>, priority: uint8, relinquish: bool, outOfService: bool): Transition<T>
    requires Shaped(before) && Shaped(after) && ValidPriority(priority)
  {
    var k := priority - 1;
    Transition(priority, before.occupied[k], before.slots[k], after.occupied[k], after.slots[k],
               EffectivePriority(before), EffectivePriority(after), EffectiveValue(before), EffectiveValue(after),
               relinquish, outOfService)
  }

  /** One command: the new state, what fired, and whether it was accepted. */
  datatype Effect<T> = Effect(output: Output<T>, events: seq<Event<T>>, ok: bool)

  function Perform<T(==)>(o: Output<T>, command: Command<T>, l: Listeners): (r: Effect<T>)
    requires Shaped(o.commands) && ListenersShaped(l)
    ensures Shaped(r.output.commands)
  {
    match command
    case Write(priority, value) => PerformWrite(o, priority, false, value, l)
    case Relinquish(priority, ignored) => PerformWrite(o, priority, true, ignored, l)
    case SetDefault(value) =>
      var after := o.commands.(relinquishDefault := value);
      var old', new' := EffectiveValue(o.commands), EffectiveValue(after);
      Effect(o.(commands := after),
             HookPart(old', new', o.outOfService, l) + ValuePart(old', new', l), true)
    case SetOutOfService(flag) =>
      Effect(o.(outOfService := flag), If(l.hook, Applied(EffectiveValue(o.commands), flag)), true)
  }

  function PerformWrite<T(==)>(o: Output<T>, priority: uint8, relinquish: bool, value: T, l: Listeners): (r: Effect<T>)
    requires Shaped(o.commands) && ListenersShaped(l)
    ensures Shaped(r.output.commands)
  {
    if !ValidPriority(priority) then Effect(o, [], false)
    else
      var after := Written(o.commands, priority, relinquish, value);
      Effect(o.(commands := after),
             WriteEvents(Observe(o.commands, after, priority, relinquish, o.outOfService), l), true)
  }

  function PerformAll<T(==)>(o: Output<T>, commands: seq<Command<T>>, l: Listeners): (r: Effect<T>)
    requires Shaped(o.commands) && ListenersShaped(l)
    ensures Shaped(r.output.commands)
    decreases |commands|
  {
    if commands == [] then Effect(o, [], true)
    else
      var first := Perform(o, commands[0], l);
      var rest := PerformAll(first.output, commands[1..], l);
      Effect(rest.output, first.events + rest.events, first.ok && rest.ok)
  }

  // ----- what the hardware and the listeners see

  /** The last value the hook was given, or what the hardware had before. */
  function HookValue<T>(initial: T, events: seq<Event<T>>): T {
    if events == [] then initial
    else
      var last := |events| - 1;
      if events[last].Applied? then events[last].value else HookValue(initial, events[..last])
  }

  /** The (old, new) pairs of the present-value events. */
  function ValueChanges<T>(events: seq<Event<T>>): seq<(T, T)> {
    if events == [] then []
    else (if events[0].ValueChange? then [(events[0].oldValue, events[0].newValue)] else []) + ValueChanges(events[1..])
  }

  /** Real changes, each starting where the one before it ended, leading from `a` to `b`. */
  ghost predicate Chain<T>(changes: seq<(T, T)>, a: T, b: T) {
    if changes == [] then a == b
    else changes[0].0 == a && changes[0].0 != changes[0].1 && Chain(changes[1..], changes[0].1, b)
  }

  lemma {:induction false} HookValueOfConcat<T>(initial: T, a: seq<Event<T>>, b: seq<Event<T>>)
    ensures HookValue(initial, a + b) == HookValue(HookValue(initial, a), b)
  {
    if b == [] {
      assert a + b == a;
    } else {
      var last := |b| - 1;
      assert (a + b)[..|a + b| - 1] == a + b[..last];
      assert (a + b)[|a + b| - 1] == b[last];
      HookValueOfConcat(initial, a, b[..last]);
    }
  }

  lemma {:induction false} ValueChangesOfConcat<T>(a: seq<Event<T>>, b: seq<Event<T>>)
    ensures ValueChanges(a + b) == ValueChanges(a) + ValueChanges(b)
  {
    if a == [] {
      assert a + b == b;
    } else {
      var head := if a[0].ValueChange? then [(a[0].oldValue, a[0].newValue)] else [];
      assert (a + b)[0] == a[0] && (a + b)[1..] == a[1..] + b;
      ValueChangesOfConcat(a[1..], b);
      assert ValueChanges(a + b) == head + (ValueChanges(a[1..]) + ValueChanges(b));
      Associate2(head, ValueChanges(a[1..]), ValueChanges(b));
    }
  }

  lemma {:induction false} ChainOfConcat<T>(x: seq<(T, T)>, y: seq<(T, T)>, a: T, b: T, c: T)
    requires Chain(x, a, b) && Chain(y, b, c)
    ensures Chain(x + y, a, c)
  {
    if x == [] {
      assert x + y == y;
    } else {
      assert (x + y)[1..] == x[1..] + y;
      ChainOfConcat(x[1..], y, x[0].1, b, c);
    }
  }

  predicate Quiet<T>(events: seq<Event<T>>) {
    forall i :: 0 <= i < |events| ==> !events[i].Applied?
  }

  lemma {:induction false} QuietHook<T>(events: seq<Event<T>>, initial: T)
    requires Quiet(events)
    ensures HookValue(initial, events) == initial
  {
    if events != [] {
      QuietHook(events[..|events| - 1], initial);
    }
  }

  lemma {:induction false} NoChanges<T>(events: seq<Event<T>>)
    requires forall i :: 0 <= i < |events| ==> !events[i].ValueChange?
    ensures ValueChanges(events) == []
  {
    if events != [] {
      NoChanges(events[1..]);
    }
  }

  lemma OneEvent<T>(event: Event<T>, initial: T)
    ensures HookValue(initial, [event]) == if event.Applied? then event.value else initial
    ensures ValueChanges([event]) == if event.ValueChange? then [(event.oldValue, event.newValue)] else []
  {
    var none: seq<Event<T>> := [];
    assert [event][..0] == none && [event][1..] == none;
    assert ValueChanges(none) == [];
  }

  lemma HookPartFacts<T>(oldValue: T, newValue: T, outOfService: bool, l: Listeners)
    ensures HookValue(oldValue, HookPart(oldValue, newValue, outOfService, l)) == if l.hook then newValue else oldValue
    ensures ValueChanges(HookPart(oldValue, newValue, outOfService, l)) == []
  {
    OneEvent(Applied(newValue, outOfService), oldValue);
  }

  lemma ValuePartFacts<T>(oldValue: T, newValue: T, l: Listeners)
    ensures ValueChanges(ValuePart(oldValue, newValue, l))
            == if oldValue != newValue && l.storage && l.value then [(oldValue, newValue)] else []
    ensures Quiet(ValuePart(oldValue, newValue, l))
  {
    OneEvent(ValueChange(oldValue, newValue), oldValue);
  }

  /** What hook and value listener make of the events of one priority write. */
  lemma WriteFacts<T>(t: Transition<T>, l: Listeners)
    requires ValidPriority(t.priority) && ListenersShaped(l)
    ensures var events := WriteEvents(t, l);
            HookValue(t.oldValue, events) == (if l.hook then t.newValue else t.oldValue) &&
            ValueChanges(events)
            == (if t.oldValue != t.newValue && l.storage && l.value then [(t.oldValue, t.newValue)] else []) &&
            (t.oldValue == t.newValue ==> Quiet(events))
  {
    hide SlotChanged, HookValue, ValueChanges;
    var a, b := HookPart(t.oldValue, t.newValue, t.outOfService, l), SlotPart(t, l) + PriorityPart(t, l);
    var c, d := ValuePart(t.oldValue, t.newValue, l), RelinquishPart(t, l);
    HookPartFacts(t.oldValue, t.newValue, t.outOfService, l);
    ValuePartFacts(t.oldValue, t.newValue, l);
    NoChanges(b);
    NoChanges(d);
    ValueChangesOfConcat(a, b + (c + d));
    ValueChangesOfConcat(b, c + d);
    ValueChangesOfConcat(c, d);
    QuietHook(b + (c + d), HookValue(t.oldValue, a));
    HookValueOfConcat(t.oldValue, a, b + (c + d));
  }

  /** The hook keeps up with the value in effect. */
  predicate Tracks<T(==)>(r: Effect<T>, l: Listeners, before: T)
    requires Shaped(r.output.commands)
  {
    l.hook ==> HookValue(before, r.events) == EffectiveValue(r.output.commands)
  }

  /** The present-value events lead from the value before to the value after. */
  ghost predicate Reports<T>(r: Effect<T>, l: Listeners, before: T)
    requires Shaped(r.output.commands)
  {
    l.storage && l.value ==> Chain(ValueChanges(r.events), before, EffectiveValue(r.output.commands))
  }

  lemma OneChange<T>(changes: seq<(T, T)>, a: T, b: T)
    requires changes == if a != b then [(a, b)] else []
    ensures Chain(changes, a, b)
  {
    if a != b {
      assert changes[1..] == [];
      assert Chain(changes[1..], b, b);
    }
  }

  lemma WriteIsFollowed<T>(o: Output<T>, priority: uint8, relinquish: bool, value: T, l: Listeners)
    requires Shaped(o.commands) && ListenersShaped(l)
    ensures var r := PerformWrite(o, priority, relinquish, value, l);
            Tracks(r, l, EffectiveValue(o.commands)) && Reports(r, l, EffectiveValue(o.commands))
  {
    hide EffectiveValue, Written, WriteEvents, HookValue;
    var old' := EffectiveValue(o.commands);
    if ValidPriority(priority) {
      var after := Written(o.commands, priority, relinquish, value);
      WriteFacts(Observe(o.commands, after, priority, relinquish, o.outOfService), l);
      if l.storage && l.value {
        OneChange(ValueChanges(PerformWrite(o, priority, relinquish, value, l).events), old', EffectiveValue(after));
      }
    } else {
      QuietHook([], old');
      OneChange([], old', old');
    }
  }

  lemma CommandIsFollowed<T>(o: Output<T>, command: Command<T>, l: Listeners)
    requires Shaped(o.commands) && ListenersShaped(l)
    ensures var r := Perform(o, command, l);
            Tracks(r, l, EffectiveValue(o.commands)) && Reports(r, l, EffectiveValue(o.commands))
  {
    hide EffectiveValue, HookValue, ValueChanges, PerformWrite;
    var old' := EffectiveValue(o.commands);
    match command
    case Write(priority, value) => WriteIsFollowed(o, priority, false, value, l);
    case Relinquish(priority, ignored) => WriteIsFollowed(o, priority, true, ignored, l);
    case SetDefault(value) =>
      var new' := EffectiveValue(o.commands.(relinquishDefault := value));
      var a, c := HookPart(old', new', o.outOfService, l), ValuePart(old', new', l);
      HookPartFacts(old', new', o.outOfService, l);
      ValuePartFacts(old', new', l);
      QuietHook(c, HookValue(old', a));
      HookValueOfConcat(old', a, c);
      ValueChangesOfConcat(a, c);
      assert [] + ValueChanges(c) == ValueChanges(c);
      if l.storage && l.value {
        OneChange(ValueChanges(c), old', new');
      }
    case SetOutOfService(flag) =>
      OneEvent(Applied(old', flag), old');
      NoChanges(If(l.hook, Applied(old', flag)));
      OneChange([], old', old');
  }

  /**
   Over any run of commands the hook's last value is the value in effect, provided it was at the
   start, and the present-value events form an unbroken chain from the first to the last value.
   */
  lemma {:induction false} RunIsFollowed<T>(o: Output<T>, commands: seq<Command<T>>, l: Listeners)
    requires Shaped(o.commands) && ListenersShaped(l)
    ensures var r := PerformAll(o, commands, l);
            Tracks(r, l, EffectiveValue(o.commands)) && Reports(r, l, EffectiveValue(o.commands))
    decreases |commands|
  {
    hide EffectiveValue, Perform;
    var start := EffectiveValue(o.commands);
    if commands == [] {
      OneChange([], start, start);
    } else {
      var first := Perform(o, commands[0], l);
      var rest := PerformAll(first.output, commands[1..], l);
      var middle := EffectiveValue(first.output.commands);
      CommandIsFollowed(o, commands[0], l);
      RunIsFollowed(first.output, commands[1..], l);
      HookValueOfConcat(start, first.events, rest.events);
      ValueChangesOfConcat(first.events, rest.events);
      if l.storage && l.value {
        ChainOfConcat(ValueChanges(first.events), ValueChanges(rest.events), start, middle,
                      EffectiveValue(rest.output.commands));
      }
    }
  }

  /** A present-value event fires exactly when someone listens and the value in effect changes. */
  lemma ValueEventIff<T>(o: Output<T>, priority: uint8, relinquish: bool, value: T, l: Listeners)
    requires Shaped(o.commands) && ListenersShaped(l) && ValidPriority(priority)
    ensures var r := PerformWrite(o, priority, relinquish, value, l);
            var old', new' := EffectiveValue(o.commands), EffectiveValue(r.output.commands);
            ValueChanges(r.events) == if l.storage && l.value && old' != new' then [(old', new')] else []
  {
    hide EffectiveValue, Written, WriteEvents, HookValue, ValueChanges;
    var after := Written(o.commands, priority, relinquish, value);
    WriteFacts(Observe(o.commands, after, priority, relinquish, o.outOfService), l);
  }

  /** A write below the priority in effect is stored, and neither hook nor value listener hears of it. */
  lemma MaskedWriteIsSilent<T>(o: Output<T>, priority: uint8, relinquish: bool, value: T, l: Listeners)
    requires Shaped(o.commands) && ListenersShaped(l) && ValidPriority(priority)
    requires 0 < EffectivePriority(o.commands) < priority
    ensures var r := PerformWrite(o, priority, relinquish, value, l);
            ValueChanges(r.events) == [] && Quiet(r.events) && r.output.commands.occupied[priority - 1] == !relinquish
  {
    hide WriteEvents, HookValue, ValueChanges;
    MaskedWrite(o.commands, priority, relinquish, value);
    var after := Written(o.commands, priority, relinquish, value);
    WriteFacts(Observe(o.commands, after, priority, relinquish, o.outOfService), l);
  }

  // ----- which callbacks fire, in which order, and what they say

  function Rank<T>(event: Event<T>): nat {
    match event
    case Applied(_, _) => 0
    case SlotChange(_, _, _, _, _) => 1
    case PriorityChange(_, _, _, _) => 2
    case ValueChange(_, _) => 3
    case Relinquished(_, _, _, _, _) => 4
  }

  predicate Fires<T>(events: seq<Event<T>>, rank: nat) {
    exists i :: 0 <= i < |events| && Rank(events[i]) == rank
  }

  /** Each callback at most once, in the order hook, slot, priority, value, relinquish. */
  predicate Ordered<T>(events: seq<Event<T>>) {
    forall i, j :: 0 <= i < j < |events| ==> Rank(events[i]) < Rank(events[j])
  }

  /** The value a slot commands, if it commands one. */
  function Commanding<T>(c: Commands<T>, slot: uint8): Option<T>
    requires Shaped(c) && ValidPriority(slot)
  {
    if c.occupied[slot - 1] then Some(c.slots[slot - 1]) else None
  }

  /** What a callback says is so, of the state before the command and the state after it. */
  predicate Truthful<T(==)>(event: Event<T>, before: Output<T>, after: Output<T>, command: Command<T>)
    requires Shaped(before.commands) && Shaped(after.commands)
  {
    var b, a := before.commands, after.commands;
    match event
    case Applied(value, flag) => value == EffectiveValue(a) && flag == after.outOfService
    case SlotChange(p, oldOccupied, oldValue, newOccupied, newValue) =>
      (command.Write? || command.Relinquish?) && p == command.priority && ValidPriority(p) &&
      oldOccupied == b.occupied[p - 1] && oldValue == b.slots[p - 1] &&
      newOccupied == a.occupied[p - 1] && newValue == a.slots[p - 1]
    case PriorityChange(oldPriority, newPriority, oldValue, newValue) =>
      oldPriority == EffectivePriority(b) && newPriority == EffectivePriority(a) &&
      oldValue == EffectiveValue(b) && newValue == EffectiveValue(a)
    case ValueChange(oldValue, newValue) => oldValue == EffectiveValue(b) && newValue == EffectiveValue(a)
    case Relinquished(p, oldValue, newValue, newPriority, defaultActive) =>
      command.Relinquish? && p == command.priority && oldValue == EffectiveValue(b) && newValue == EffectiveValue(a) &&
      newPriority == EffectivePriority(a) && (defaultActive <==> EffectivePriority(a) == 0)
  }

  /** Who is told of an accepted command: only those who listen, and only of what has changed. */
  predicate Told<T(==)>(rank: nat, before: Output<T>, after: Output<T>, command: Command<T>, l: Listeners)
    requires Shaped(before.commands) && Shaped(after.commands) && ListenersShaped(l)
  {
    var b, a := before.commands, after.commands;
    match rank
    case 0 => l.hook && (command.SetOutOfService? || EffectiveValue(b) != EffectiveValue(a))
    case 1 =>
      (command.Write? || command.Relinquish?) && ValidPriority(command.priority) &&
      l.storage && l.slots[command.priority - 1] && Commanding(b, command.priority) != Commanding(a, command.priority)
    case 2 => l.storage && l.priority && EffectivePriority(b) != EffectivePriority(a)
    case 3 => l.storage && l.value && EffectiveValue(b) != EffectiveValue(a)
    case 4 => l.storage && l.relinquish && command.Relinquish?
    case _ => false
  }

  /** At most one callback, of this rank. */
  predicate Part<T>(events: seq<Event<T>>, rank: nat) {
    |events| <= 1 && forall i :: 0 <= i < |events| ==> Rank(events[i]) == rank
  }

  predicate Within<T>(events: seq<Event<T>>, from: nat, to: nat) {
    forall i :: 0 <= i < |events| ==> from <= Rank(events[i]) < to
  }

  lemma JoinInOrder<T>(x: seq<Event<T>>, y: seq<Event<T>>, from: nat, middle: nat, to: nat, rank: nat)
    requires Ordered(x) && Ordered(y) && Within(x, from, middle) && Within(y, middle, to) && from <= middle <= to
    ensures Ordered(x + y) && Within(x + y, from, to)
    ensures Fires(x + y, rank) <==> Fires(x, rank) || Fires(y, rank)
  {
    hide Rank;
    if i :| 0 <= i < |y| && Rank(y[i]) == rank {
      assert (x + y)[|x| + i] == y[i];
    }
    if i :| 0 <= i < |x| && Rank(x[i]) == rank {
      assert (x + y)[i] == x[i];
    }
  }

  lemma PartInOrder<T>(events: seq<Event<T>>, own: nat, rank: nat)
    requires Part(events, own)
    ensures Ordered(events) && Within(events, own, own + 1)
    ensures Fires(events, rank) <==> events != [] && rank == own
  {
    hide Rank;
    if events != [] {
      assert Rank(events[0]) == own;
    }
  }

  lemma PartsInOrder<T>(
    a: seq<Event<T>>, b: seq<Event<T>>, c: seq<Event<T>>, d: seq<Event<T>>, e: seq<Event<T>>, rank: nat)
    requires Part(a, 0) && Part(b, 1) && Part(c, 2) && Part(d, 3) && Part(e, 4)
    ensures var all := a + ((b + c) + (d + e));
            Ordered(all) &&
            (Fires(all, rank) <==> match rank
                                   case 0 => a != []
                                   case 1 => b != []
                                   case 2 => c != []
                                   case 3 => d != []
                                   case 4 => e != []
                                   case _ => false)
  {
    hide Part, Ordered, Within, Fires;
    PartInOrder(a, 0, rank);
    PartInOrder(b, 1, rank);
    PartInOrder(c, 2, rank);
    PartInOrder(d, 3, rank);
    PartInOrder(e, 4, rank);
    JoinInOrder(b, c, 1, 2, 3, rank);
    JoinInOrder(d, e, 3, 4, 5, rank);
    JoinInOrder(b + c, d + e, 1, 3, 5, rank);
    JoinInOrder(a, (b + c) + (d + e), 0, 1, 5, rank);
  }

  /**
   Every command: an accepted one tells exactly those who listen for what it changed, each once and in
   order, and all they are told is so; a refused one changes nothing and tells nobody.
   */
  lemma CallbacksIff<T>(o: Output<T>, command: Command<T>, l: Listeners, rank: nat)
    requires Shaped(o.commands) && ListenersShaped(l)
    ensures var r := Perform(o, command, l);
            (r.ok <==> ((command.Write? || command.Relinquish?) ==> ValidPriority(command.priority))) &&
            (!r.ok ==> r.output == o && r.events == []) &&
            Ordered(r.events) && (forall event <- r.events :: Truthful(event, o, r.output, command)) &&
            (r.ok ==> (Fires(r.events, rank) <==> Told(rank, o, r.output, command, l)))
  {
    hide PerformWrite, EffectiveValue, EffectivePriority, Ordered, Fires, Truthful, Told;
    match command
    case Write(priority, value) => WriteCallbacksIff(o, command, priority, false, value, l, rank);
    case Relinquish(priority, ignored) => WriteCallbacksIff(o, command, priority, true, ignored, l, rank);
    case SetDefault(value) => DefaultCallbacksIff(o, value, l, rank);
    case SetOutOfService(flag) => ServiceCallbackIff(o, flag, l, rank);
  }

  lemma DefaultCallbacksIff<T>(o: Output<T>, value: T, l: Listeners, rank: nat)
    requires Shaped(o.commands) && ListenersShaped(l)
    ensures var r := Perform(o, SetDefault(value), l);
            Ordered(r.events) && (forall event <- r.events :: Truthful(event, o, r.output, SetDefault(value))) &&
            (Fires(r.events, rank) <==> Told(rank, o, r.output, SetDefault(value), l))
  {
    hide EffectiveValue, Ordered, Fires;
    var none: seq<Event<T>> := [];
    var r := Perform(o, SetDefault(value), l);
    var old', new' := EffectiveValue(o.commands), EffectiveValue(r.output.commands);
    var a, d := HookPart(old', new', o.outOfService, l), ValuePart(old', new', l);
    PartsInOrder(a, none, none, d, none, rank);
    assert a + ((none + none) + (d + none)) == a + d;
  }

  lemma ServiceCallbackIff<T>(o: Output<T>, flag: bool, l: Listeners, rank: nat)
    requires Shaped(o.commands) && ListenersShaped(l)
    ensures var r := Perform(o, SetOutOfService(flag), l);
            Ordered(r.events) && (forall event <- r.events :: Truthful(event, o, r.output, SetOutOfService(flag))) &&
            (Fires(r.events, rank) <==> Told(rank, o, r.output, SetOutOfService(flag), l))
  {
    hide EffectiveValue, EffectivePriority, Ordered, Fires;
    PartInOrder(Perform(o, SetOutOfService(flag), l).events, 0, rank);
  }

  lemma WriteCallbacksIff<T>(
    o: Output<T>, command: Command<T>, priority: uint8, relinquish: bool, value: T, l: Listeners, rank: nat)
    requires Shaped(o.commands) && ListenersShaped(l)
    requires command == if relinquish then Relinquish(priority, value) else Write(priority, value)
    ensures var r := PerformWrite(o, priority, relinquish, value, l);
            (r.ok <==> ValidPriority(priority)) && (!r.ok ==> r.output == o && r.events == []) &&
            Ordered(r.events) && (forall event <- r.events :: Truthful(event, o, r.output, command)) &&
            (r.ok ==> (Fires(r.events, rank) <==> Told(rank, o, r.output, command, l)))
  {
    hide EffectiveValue, EffectivePriority, Written, Ordered, Fires, Truthful, Told, Part, HookPart,
         SlotPart, PriorityPart, ValuePart, RelinquishPart;
    if ValidPriority(priority) {
      var after := Written(o.commands, priority, relinquish, value);
      var t := Observe(o.commands, after, priority, relinquish, o.outOfService);
      WritePartsTell(o, command, priority, relinquish, value, l, rank);
      WritePartsAreTrue(o, command, priority, relinquish, value, l);
      PartsInOrder(HookPart(t.oldValue, t.newValue, t.outOfService, l), SlotPart(t, l), PriorityPart(t, l),
                   ValuePart(t.oldValue, t.newValue, l), RelinquishPart(t, l), rank);
    } else {
      NothingInOrder<T>();
    }
  }

  lemma NothingInOrder<T>()
    ensures Ordered<T>([])
  {}

  lemma WritePartsTell<T>(
    o: Output<T>, command: Command<T>, priority: uint8, relinquish: bool, value: T, l: Listeners, rank: nat)
    requires Shaped(o.commands) && ListenersShaped(l) && ValidPriority(priority)
    requires command == if relinquish then Relinquish(priority, value) else Write(priority, value)
    ensures var c := Written(o.commands, priority, relinquish, value);
            var t, after := Observe(o.commands, c, priority, relinquish, o.outOfService), o.(commands := c);
            var hook, slot := HookPart(t.oldValue, t.newValue, t.outOfService, l), SlotPart(t, l);
            var prio, val, given := PriorityPart(t, l), ValuePart(t.oldValue, t.newValue, l), RelinquishPart(t, l);
            Part(hook, 0) && Part(slot, 1) && Part(prio, 2) && Part(val, 3) && Part(given, 4) &&
            Told(rank, o, after, command, l) == match rank
                                                case 0 => hook != []
                                                case 1 => slot != []
                                                case 2 => prio != []
                                                case 3 => val != []
                                                case 4 => given != []
                                                case _ => false
  {
    hide EffectiveValue, EffectivePriority, Written;
  }

  lemma WritePartsAreTrue<T>(
    o: Output<T>, command: Command<T>, priority: uint8, relinquish: bool, value: T, l: Listeners)
    requires Shaped(o.commands) && ListenersShaped(l) && ValidPriority(priority)
    requires command == if relinquish then Relinquish(priority, value) else Write(priority, value)
    ensures var c := Written(o.commands, priority, relinquish, value);
            forall event <- WriteEvents(Observe(o.commands, c, priority, relinquish, o.outOfService), l) ::
              Truthful(event, o, o.(commands := c), command)
  {
    hide EffectiveValue, EffectivePriority, Written, SlotChanged;
  }

  /** With no slot occupied a new default takes effect at once; otherwise it waits, and no slot changes. */
  lemma DefaultTakesEffectIff<T>(o: Output<T>, value: T, l: Listeners)
    requires Shaped(o.commands) && ListenersShaped(l)
    ensures var r := Perform(o, SetDefault(value), l);
            r.ok && r.output.commands.slots == o.commands.slots && r.output.commands.occupied == o.commands.occupied &&
            r.output.commands.relinquishDefault == value && r.output.outOfService == o.outOfService &&
            EffectivePriority(r.output.commands) == EffectivePriority(o.commands) &&
            EffectiveValue(r.output.commands)
            == if forall k :: 0 <= k < SLOT_COUNT ==> !o.commands.occupied[k] then value
               else EffectiveValue(o.commands)
  {}

  // ----- the object

  lemma Associate2<T>(s: seq<T>, a: seq<T>, b: seq<T>)
    ensures (s + a) + b == s + (a + b)
  {}

  lemma Associate<T>(s: seq<T>, a: seq<T>, b: seq<T>, c: seq<T>, d: seq<T>, e: seq<T>)
    ensures ((((s + a) + b) + c) + d) + e == s + (a + ((b + c) + (d + e)))
  {
    Associate2(s + a, b, c);
    Associate2((s + a) + (b + c), d, e);
    Associate2(s + a, b + c, d + e);
    Associate2(s, a, (b + c) + (d + e));
  }

  class CommandableObject<T(==)> {
    const priority: PriorityArray<T>
    const listeners: Listeners
    var outOfService: bool
    var callbackInProgress: bool
    /** Every callback made so far. */
    var events: seq<Event<T>>

    ghost predicate Valid()
      reads this, priority, priority.slots, priority.occupied
    {
      priority.Valid() && ListenersShaped(listeners)
    }

    ghost function View(): (o: Output<T>)
      reads this, priority, priority.slots, priority.occupied
      requires Valid()
      ensures Shaped(o.commands)
    {
      Output(priority.View(), outOfService)
    }

    constructor (initial: T, listeners: Listeners)
      requires ListenersShaped(listeners)
      ensures Valid() && !callbackInProgress && events == [] && !outOfService
      ensures fresh(priority) && fresh(priority.slots) && fresh(priority.occupied)
      ensures priority.View() == Commands(initial, seq(SLOT_COUNT, i => initial), seq(SLOT_COUNT, i => false))
    {
      priority := new PriorityArray(initial);
      this.listeners := listeners;
      outOfService := false;
      callbackInProgress := false;
      events := [];
    }

    method Emit(condition: bool, event: Event<T>)
      modifies this`events
      ensures events == old(events) + If(condition, event)
    {
      if condition {
        events := events + [event];
      }
    }

    /** The callbacks of one priority write, in order. */
    method Notify(t: Transition<T>)
      requires ValidPriority(t.priority) && ListenersShaped(listeners)
      modifies this`events
      ensures events == old(events) + WriteEvents(t, listeners)
    {
      hide SlotChanged, If;
      var slotChanged := SlotChanged(t);
      Emit(listeners.hook && t.oldValue != t.newValue, Applied(t.newValue, t.outOfService));
      Emit(listeners.storage && slotChanged && listeners.slots[t.priority - 1],
           SlotChange(t.priority, t.oldOccupied, t.oldSlot, t.newOccupied, t.newSlot));
      Emit(listeners.storage && t.oldPriority != t.newPriority && listeners.priority,
           PriorityChange(t.oldPriority, t.newPriority, t.oldValue, t.newValue));
      Emit(t.oldValue != t.newValue && listeners.storage && listeners.value, ValueChange(t.oldValue, t.newValue));
      Emit(listeners.storage && t.relinquish && listeners.relinquish,
           Relinquished(t.priority, t.oldValue, t.newValue, t.newPriority, t.newPriority == 0));
      Associate(old(events), HookPart(t.oldValue, t.newValue, t.outOfService, listeners), SlotPart(t, listeners),
                PriorityPart(t, listeners), ValuePart(t.oldValue, t.newValue, listeners), RelinquishPart(t, listeners));
    }

    /** Refused while a callback runs or for a priority outside 1 to 16. */
    method ApplyPriorityValue(value: T, priorityValue: uint8, relinquish: bool) returns (ok: bool)
      requires Valid()
      modifies this`events, this`callbackInProgress, priority, priority.slots, priority.occupied
      ensures Valid() && callbackInProgress == old(callbackInProgress)
      ensures var r := PerformWrite(old(View()), priorityValue, relinquish, value, listeners);
              if callbackInProgress then !ok && View() == old(View()) && events == old(events)
              else ok == r.ok && View() == r.output && events == old(events) + r.events
    {
      hide EffectiveValue, EffectivePriority, Written, WriteEvents;
      if callbackInProgress || priorityValue == 0 || priorityValue > 16 {
        return false;
      }
      var index := priorityValue - 1;
      ghost var before := priority.View();
      var oldOccupied, oldSlot := priority.occupied[index], priority.slots[index];
      var oldValue, oldPriority := priority.Effective();
      ok := priority.Write(priorityValue, relinquish, value);
      callbackInProgress := true;
      ghost var after := priority.View();
      var newOccupied, newSlot := priority.occupied[index], priority.slots[index];
      var newValue, newPriority := priority.Effective();
      var t := Transition(priorityValue, oldOccupied, oldSlot, newOccupied, newSlot,
                          oldPriority, newPriority, oldValue, newValue, relinquish, outOfService);
      assert t == Observe(before, after, priorityValue, relinquish, outOfService);
      Notify(t);
      callbackInProgress := false;
    }

    method SetRelinquishDefaultValue(value: T) returns (ok: bool)
      requires Valid()
      modifies this`events, this`callbackInProgress, priority
      ensures Valid() && callbackInProgress == old(callbackInProgress)
      ensures var r := Perform(old(View()), SetDefault(value), listeners);
              if callbackInProgress then !ok && View() == old(View()) && events == old(events)
              else ok && View() == r.output && events == old(events) + r.events
    {
      if callbackInProgress {
        return false;
      }
      hide EffectiveValue, EffectivePriority, If;
      var oldValue, _ := priority.Effective();
      priority.relinquishDefault := value;
      callbackInProgress := true;
      var newValue, _ := priority.Effective();
      Emit(listeners.hook && oldValue != newValue, Applied(newValue, outOfService));
      Emit(oldValue != newValue && listeners.storage && listeners.value, ValueChange(oldValue, newValue));
      Associate2(old(events), HookPart(oldValue, newValue, outOfService, listeners),
                 ValuePart(oldValue, newValue, listeners));
      callbackInProgress := false;
      ok := true;
    }

    /** The hook is told even though the value in effect is the same. */
    method WriteOutOfService(flag: bool)
      requires Valid()
      modifies this`events, this`outOfService
      ensures Valid() && callbackInProgress == old(callbackInProgress)
      ensures var r := Perform(old(View()), SetOutOfService(flag), listeners);
              View() == r.output && events == old(events) + r.events
    {
      outOfService := flag;
      if listeners.hook {
        var value, _ := priority.Effective();
        events := events + [Applied(value, flag)];
      }
    }

    /** A WriteProperty request: the error to answer with, or nothing when it was carried out. */
    method HandleWriteProperty<R>(
      property: uint32, arrayIndex: uint32, value: Value<R>, decode: Value<R> -> Option<T>, any: T,
      priorityValue: Option<uint8>) returns (error: Option<(uint32, uint32)>)
      requires Valid()
      modifies this`events, this`outOfService, this`callbackInProgress, priority, priority.slots, priority.occupied
      ensures Valid() && callbackInProgress == old(callbackInProgress)
      ensures match RequestedCommand(property, arrayIndex, value, decode, any, priorityValue)
              case Left(code) => error == Some(code) && View() == old(View()) && events == old(events)
              case Right(command) =>
                if callbackInProgress && !command.SetOutOfService? then
                  error == Some((2, 37)) && View() == old(View()) && events == old(events)
                else
                  var r := Perform(old(View()), command, listeners);
                  error == None && r.ok && View() == r.output && events == old(events) + r.events
      // the answer
      ensures arrayIndex != NO_ARRAY_INDEX ==> error == Some((2, 42))
      ensures arrayIndex == NO_ARRAY_INDEX && property == PRESENT_VALUE ==>
                error == if priorityValue.Some? && !(1 <= priorityValue.value <= 16) then Some((2, 37))
                         else if !value.Null? && decode(value).None? then Some((2, 9))
                         else if callbackInProgress then Some((2, 37))
                         else None
      ensures arrayIndex == NO_ARRAY_INDEX && property == OUT_OF_SERVICE ==>
                error == if priorityValue.Some? || !value.Boolean? then Some((2, 9)) else None
      ensures arrayIndex == NO_ARRAY_INDEX && property != PRESENT_VALUE && property != OUT_OF_SERVICE ==>
                error == Some((2, 40))
      // the new state: without a priority the lowest slot is meant
      ensures error.Some? ==> View() == old(View()) && events == old(events)
      ensures error.None? && property == PRESENT_VALUE ==>
                SlotWritten(old(View()), View(), if priorityValue.None? then 16 else priorityValue.value,
                            if value.Null? then None else decode(value))
      ensures error.None? && property == OUT_OF_SERVICE ==>
                value.Boolean? && outOfService == value.on && priority.View() == old(priority.View())
    {
      hide EffectiveValue, EffectivePriority, WriteEvents, Written, SlotWritten;
      error := None;
      if arrayIndex != NO_ARRAY_INDEX {
        return Some((2, 42));
      }
      if property == PRESENT_VALUE {
        var p := if priorityValue.Some? then priorityValue.value else 16;
        var relinquish := value.Null?;
        var decoded := decode(value);
        if p == 0 || p > 16 {
          return Some((2, 37));
        }
        if !relinquish && decoded.None? {
          return Some((2, 9));
        }
        WrittenIsSlotWritten(View(), p, relinquish, if relinquish then any else decoded.value);
        var ok := ApplyPriorityValue(if relinquish then any else decoded.value, p, relinquish);
        if !ok {
          return Some((2, 37));
        }
      } else if property == OUT_OF_SERVICE {
        if priorityValue.Some? || !value.Boolean? {
          return Some((2, 9));
        }
        WriteOutOfService(value.on);
      } else {
        return Some((2, 40));
      }
    }
  }

  datatype Either<+A, +B> = Left(left: A) | Right(right: B)

  /** The command a WriteProperty request asks for, or the BACnet error class and code. */
  function RequestedCommand<T, R>(
    property: uint32, arrayIndex: uint32, value: Value<R>, decode: Value<R> -> Option<T>, any: T,
    priorityValue: Option<uint8>): Either<(uint32, uint32), Command<T>>
  {
    if arrayIndex != NO_ARRAY_INDEX then Left((2, 42))
    else if property == PRESENT_VALUE then
      var p := if priorityValue.Some? then priorityValue.value else 16;
      if !ValidPriority(p) then Left((2, 37))
      else if value.Null? then Right(Relinquish(p, any))
      else if decode(value).None? then Left((2, 9))
      else Right(Write(p, decode(value).value))
    else if property == OUT_OF_SERVICE then
      if priorityValue.Some? || !value.Boolean? then Left((2, 9)) else Right(SetOutOfService(value.on))
    else Left((2, 40))
  }
}
