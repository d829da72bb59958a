/** Choosing the next of several subscriptions in turn, and why none that stays due is left out. */
module RoundRobin {
  /** How many places `k` is behind the position, going round. */
  function Offset(position: nat, k: nat, n: nat): (offset: nat)
    requires position < n && k < n
    ensures offset < n
  {
    if position <= k then k - position else k + n - position
  }

  /** The place `offset` behind the position. */
  function Place(position: nat, offset: nat, n: nat): (k: nat)
    requires position < n && offset < n
    ensures k < n && Offset(position, k, n) == offset
  {
    if position + offset < n then position + offset else position + offset - n
  }

  /** The first place that is due, going round from `offset` places behind the position; or the number of places. */
  function Choice(due: seq<bool>, position: nat, offset: nat): (k: nat)
    requires position < |due| && offset <= |due|
    ensures k <= |due|
    ensures k < |due| ==> due[k] && offset <= Offset(position, k, |due|)
    ensures k < |due| ==>
              forall j :: 0 <= j < |due| && offset <= Offset(position, j, |due|) < Offset(position, k, |due|) ==>
                !due[j]
    ensures k == |due| ==> forall j :: 0 <= j < |due| && offset <= Offset(position, j, |due|) ==> !due[j]
    decreases |due| - offset
  {
    if offset == |due| then |due|
    else
      var k := Place(position, offset, |due|);
      if due[k] then k
      else Choice(due, position, offset + 1)
  }

  function Next(k: nat, n: nat): nat
    requires k < n
  {
    if k + 1 < n then k + 1 else 0
  }

  /** The places chosen one after the other, given which are due at each choice. */
  function Choices(n: nat, position: nat, rounds: seq<seq<bool>>): (chosen: seq<nat>)
    requires position < n && forall due <- rounds :: |due| == n
    ensures |chosen| <= |rounds|
    decreases |rounds|
  {
    if rounds == [] then []
    else
      var k := Choice(rounds[0], position, 0);
      if k == n then Choices(n, position, rounds[1..])
      else [k] + Choices(n, Next(k, n), rounds[1..])
  }

  /** A choice that falls on another place brings the position nearer. */
  lemma ChoiceComesNearer(due: seq<bool>, position: nat, k: nat)
    requires position < |due| && k < |due| && due[k]
    ensures var c := Choice(due, position, 0);
            c < |due| &&
            (c != k ==> Offset(Next(c, |due|), k, |due|) < Offset(position, k, |due|))
  {}

  /** A subscription that is due at every choice is chosen before the turn has come round once. */
  lemma {:induction false} StaysDueIsChosen(n: nat, position: nat, rounds: seq<seq<bool>>, k: nat)
    requires position < n && k < n && forall due <- rounds :: |due| == n && due[k]
    requires Offset(position, k, n) < |rounds|
    ensures k in Choices(n, position, rounds)
    decreases |rounds|
  {
    hide Choice, Offset;
    ChoiceComesNearer(rounds[0], position, k);
    var c := Choice(rounds[0], position, 0);
    assert rounds[0] in rounds;
    if c != k {
      StaysDueIsChosen(n, Next(c, n), rounds[1..], k);
    }
  }

  lemma PlaceIsRemainder(position: nat, offset: nat, n: nat)
    requires position < n && offset < n
    ensures (position + offset) % n == Place(position, offset, n)
  {
    if position + offset >= n {
      assert position + offset == (position + offset - n) + n * 1;
    }
  }

  lemma NextIsRemainder(k: nat, n: nat)
    requires k < n
    ensures (k + 1) % n == Next(k, n)
  {}

  lemma ChoiceStep(due: seq<bool>, position: nat, offset: nat)
    requires position < |due| && offset < |due|
    ensures var k := Place(position, offset, |due|);
            Choice(due, position, offset) == if due[k] then k else Choice(due, position, offset + 1)
  {}

  lemma ChoiceEnds(due: seq<bool>, position: nat)
    requires position < |due|
    ensures Choice(due, position, |due|) == |due|
  {}
}
