/** The 16-slot command priority array (clause 19.2 of ASHRAE 135). */
module CommandPriority {
  import opened BacnetTypes

  const SLOT_COUNT: nat := 16

  /** A relinquished slot keeps its old value; only the occupied ones command. */
  datatype Commands<T> = Commands(relinquishDefault: T, slots: seq<T>, occupied: seq<bool>)

  predicate Shaped<T>(c: Commands<T>) {
    |c.slots| == |c.occupied| == SLOT_COUNT
  }

  /** First occupied index from `i` on, or the slot count. */
  function FirstOccupied(occupied: seq<bool>, i: nat): (k: nat)
    requires i <= |occupied|
    ensures i <= k <= |occupied|
    ensures forall j :: i <= j < k ==> !occupied[j]
    ensures k < |occupied| ==> occupied[k]
    decreases |occupied| - i
  {
    if i == |occupied| || occupied[i] then i else FirstOccupied(occupied, i + 1)
  }

  lemma {:induction false} FirstIs(occupied: seq<bool>, i: nat, k: nat)
    requires i <= k < |occupied| && occupied[k]
    requires forall j :: i <= j < k ==> !occupied[j]
    ensures FirstOccupied(occupied, i) == k
    decreases k - i
  {
    if i < k {
      FirstIs(occupied, i + 1, k);
    }
  }

  function EffectiveValue<T>(c: Commands<T>): T
    requires Shaped(c)
  {
    var k := FirstOccupied(c.occupied, 0);
    if k < SLOT_COUNT then c.slots[k] else c.relinquishDefault
  }

  /** 1 to 16, or 0 when the relinquish default is in effect. */
  function EffectivePriority<T>(c: Commands<T>): (p: uint8)
    requires Shaped(c)
    ensures p <= 16
    ensures p == 0 <==> forall j :: 0 <= j < SLOT_COUNT ==> !c.occupied[j]
    ensures p > 0 ==> c.occupied[p - 1] && (forall j :: 0 <= j < p - 1 ==> !c.occupied[j])
  {
    var k := FirstOccupied(c.occupied, 0);
    if k < SLOT_COUNT then k + 1 else 0
  }

  /** The value in effect is that of the highest priority in effect. */
  lemma EffectiveTogether<T>(c: Commands<T>)
    requires Shaped(c)
    ensures EffectiveValue(c) ==
            if EffectivePriority(c) == 0 then c.relinquishDefault else c.slots[EffectivePriority(c) - 1]
  {}

  predicate ValidPriority(priority: uint8) {
    1 <= priority <= 16
  }

  function Written<T>(c: Commands<T>, priority: uint8, relinquish: bool, value: T): (r: Commands<T>)
    requires Shaped(c) && ValidPriority(priority)
    ensures Shaped(r)
  {
    var k := priority - 1;
    c.(occupied := c.occupied[k := !relinquish], slots := if relinquish then c.slots else c.slots[k := value])
  }

  /** A write below the priority in effect changes nothing an observer of the output can see. */
  lemma MaskedWrite<T>(c: Commands<T>, priority: uint8, relinquish: bool, value: T)
    requires Shaped(c) && ValidPriority(priority)
    requires 0 < EffectivePriority(c) < priority
    ensures EffectiveValue(Written(c, priority, relinquish, value)) == EffectiveValue(c)
    ensures EffectivePriority(Written(c, priority, relinquish, value)) == EffectivePriority(c)
  {
    FirstIs(Written(c, priority, relinquish, value).occupied, 0, FirstOccupied(c.occupied, 0));
  }

  /** A write at or above the priority in effect, or with none in effect, takes effect. */
  lemma WriteTakesEffect<T>(c: Commands<T>, priority: uint8, value: T)
    requires Shaped(c) && ValidPriority(priority)
    requires EffectivePriority(c) == 0 || priority <= EffectivePriority(c)
    ensures EffectiveValue(Written(c, priority, false, value)) == value
    ensures EffectivePriority(Written(c, priority, false, value)) == priority
  {
    FirstIs(Written(c, priority, false, value).occupied, 0, priority - 1);
  }

  /** Writing and relinquishing a slot that was free leaves the same value and priority in effect. */
  lemma RelinquishUndoesWrite<T>(c: Commands<T>, priority: uint8, value: T, any: T)
    requires Shaped(c) && ValidPriority(priority) && !c.occupied[priority - 1]
    ensures var back := Written(Written(c, priority, false, value), priority, true, any);
            EffectiveValue(back) == EffectiveValue(c) && EffectivePriority(back) == EffectivePriority(c) &&
            back.occupied == c.occupied
  {
    var back := Written(Written(c, priority, false, value), priority, true, any);
    assert back.occupied == c.occupied;
  }

  class PriorityArray<T(==)> {
    var relinquishDefault: T
    const slots: array<T>
    const occupied: array<bool>

    ghost predicate Valid()
      reads this, slots, occupied
    {
      slots.Length == occupied.Length == SLOT_COUNT && slots as object != occupied
    }

    ghost function View(): (c: Commands<T>)
      reads this, slots, occupied
      requires Valid()
      ensures Shaped(c)
    {
      Commands(relinquishDefault, slots[..], occupied[..])
    }

    /** All slots free. */
    constructor (initial: T)
      ensures Valid() && fresh(slots) && fresh(occupied)
      ensures View() == Commands(initial, seq(SLOT_COUNT, i => initial), seq(SLOT_COUNT, i => false))
    {
      relinquishDefault := initial;
      slots := new T[SLOT_COUNT](i => initial);
      occupied := new bool[SLOT_COUNT](i => false);
    }

    method Effective() returns (value: T, priority: uint8)
      requires Valid()
      ensures value == EffectiveValue(View()) && priority == EffectivePriority(View())
    {
      for index := 0 to SLOT_COUNT
        invariant FirstOccupied(occupied[..], 0) == FirstOccupied(occupied[..], index)
      {
        if occupied[index] {
          return slots[index], index + 1;
        }
      }
      return relinquishDefault, 0;
    }

    method Write(priority: uint8, relinquish: bool, value: T) returns (ok: bool)
      requires Valid()
      modifies slots, occupied
      ensures Valid() && ok == ValidPriority(priority)
      ensures View() == if ok then Written(old(View()), priority, relinquish, value) else old(View())
    {
      if priority == 0 || priority > 16 {
        return false;
      }
      var index := priority - 1;
      occupied[index] := !relinquish;
      if !relinquish {
        slots[index] := value;
      }
      ok := true;
    }
  }
}
