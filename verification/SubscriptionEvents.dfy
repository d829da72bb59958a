/**
 What the callback of a subscription hears: every finished read or notification is compared with the
 last known value and status, and only a difference is passed on.
 */
module SubscriptionEvents {
  import opened BacnetTypes
  import opened ApplicationValue
  import opened ReadStatus

  // ----- when two values count as the same

  const SIGN: nat := 0x8000_0000
  const INFINITE: nat := 0x7F80_0000

  /** A 32-bit REAL pattern that equals no number, not even itself. */
  predicate NotANumber(pattern: uint32) {
    pattern % SIGN > INFINITE
  }

  predicate SameMeasure(a: uint32, b: uint32) {
    !NotANumber(a) && !NotANumber(b) && (a == b || (a % SIGN == 0 && b % SIGN == 0))
  }

  /** Texts are compared up to their first zero byte. */
  function UpToZero(text: Bytes): (shown: Bytes)
    ensures shown <= text && 0 !in shown
    ensures |shown| < |text| ==> text[|shown|] == 0
  {
    if text == [] || text[0] == 0 then [] else [text[0]] + UpToZero(text[1..])
  }

  predicate SameText(a: Bytes, b: Bytes) {
    UpToZero(a) == UpToZero(b)
  }

  predicate SameValue(left: WireValue, right: WireValue) {
    match left
    case Boolean(on) => right.Boolean? && right.on == on
    case Unsigned(n) => right.Unsigned? && right.number == n
    case Enumerated(n) => right.Enumerated? && right.number == n
    case Signed(n) => right.Signed? && right.signed == n
    case Real(pattern) => right.Real? && SameMeasure(pattern, right.measure)
    case BitString(bits, count) => right.BitString? && right.bits == bits && right.bitCount == count
    case ObjectIdentifier(objectId) => right.ObjectIdentifier? && right.objectId == objectId
    case CharacterString(text) => right.CharacterString? && SameText(text, right.text)
    case ObjectIdentifierList(text) => right.ObjectIdentifierList? && SameText(text, right.text)
    case PropertyIdentifierList(text) => right.PropertyIdentifierList? && SameText(text, right.text)
    case Unsupported(tag) => right.Unsupported? && right.tag == tag
    case Null => right.Null?
    case Empty => right.Empty?
  }

  /** The value as far as the comparison sees it: zero without its sign, texts up to a zero byte. */
  function Seen(v: WireValue): WireValue {
    match v
    case Real(pattern) => Real(if pattern == SIGN then 0 else pattern)
    case CharacterString(text) => CharacterString(UpToZero(text))
    case ObjectIdentifierList(text) => ObjectIdentifierList(UpToZero(text))
    case PropertyIdentifierList(text) => PropertyIdentifierList(UpToZero(text))
    case _ => v
  }

  /** Two values count as the same if and only if they are seen the same and are no NaN. */
  lemma SameValueIff(left: WireValue, right: WireValue)
    ensures SameValue(left, right) <==> Seen(left) == Seen(right) && !(left.Real? && NotANumber(left.measure))
  {
    if left.Real? && right.Real? {
      assert left.measure % SIGN == 0 <==> left.measure == 0 || left.measure == SIGN;
      assert right.measure % SIGN == 0 <==> right.measure == 0 || right.measure == SIGN;
    }
  }

  // ----- what is known, and what is told

  /** The last value and the last status, once there is one. */
  datatype Known = Known(value: Option<WireValue>, status: Option<DeviceReadStatus>)

  datatype Reasons = Reasons(first: bool, changed: bool, status: bool)

  const NO_REASONS := Reasons(false, false, false)

  /** What a callback is handed; `properties` are those of the notification, if it was one. */
  datatype SubscriptionEvent = SubscriptionEvent(
    status: DeviceReadStatus, value: Option<WireValue>, first: bool, changed: bool, statusChanged: bool,
    reasons: Reasons, properties: seq<WireProperty>)

  /** A finished read or notification. */
  datatype Outcome = Outcome(status: DeviceReadStatus, value: Option<WireValue>, properties: seq<WireProperty>)

  predicate Brings(x: Outcome) {
    x.status.DeviceAck? && x.value.Some?
  }

  predicate Differs(known: Option<WireValue>, x: Outcome) {
    Brings(x) && (known.None? || !SameValue(known.value, x.value.value))
  }

  /** Only an acknowledged value that differs replaces the last one. */
  function After(k: Known, x: Outcome): Known {
    Known(if Differs(k.value, x) then x.value else k.value, Some(x.status))
  }

  function Change(k: Known, x: Outcome, notify: bool): SubscriptionEvent {
    var first := Brings(x) && k.value.None?;
    var changed := Differs(k.value, x);
    var statusChanged := k.status != Some(x.status);
    SubscriptionEvent(x.status, After(k, x).value, first, changed, statusChanged,
                      Reasons(first, changed, statusChanged && notify), x.properties)
  }

  function Told(k: Known, x: Outcome, notify: bool): seq<SubscriptionEvent> {
    if Change(k, x, notify).reasons == NO_REASONS then [] else [Change(k, x, notify)]
  }

  // ----- the listener's side

  /** What the listener believes the value to be. */
  function Believed(heard: seq<SubscriptionEvent>): Option<WireValue> {
    if heard == [] then None else heard[|heard| - 1].value
  }

  /** An event says what it changes of what was believed before it. */
  predicate Continues(before: Option<WireValue>, e: SubscriptionEvent) {
    (if e.changed then e.value.Some? && (before.None? || !SameValue(before.value, e.value.value))
     else e.value == before) &&
    (e.first <==> before.None? && e.value.Some?)
  }

  predicate Chained(heard: seq<SubscriptionEvent>) {
    forall i :: 0 <= i < |heard| ==> Continues(Believed(heard[..i]), heard[i])
  }

  /**
   The listener knows the value the subscription holds, and with status notifications also the
   status it ended with last.
   */
  predicate Informed(heard: seq<SubscriptionEvent>, k: Known, notify: bool) {
    Chained(heard) && Believed(heard) == k.value &&
    (notify ==> k.status == if heard == [] then None else Some(heard[|heard| - 1].status))
  }

  lemma InformedAfter(heard: seq<SubscriptionEvent>, k: Known, x: Outcome, notify: bool)
    requires Informed(heard, k, notify)
    ensures Informed(heard + Told(k, x, notify), After(k, x), notify)
  {
    hide SameValue;
    var told := heard + Told(k, x, notify);
    forall i | 0 <= i < |told| ensures Continues(Believed(told[..i]), told[i]) {
      if i < |heard| {
        assert told[..i] == heard[..i];
      } else {
        assert told[..i] == heard;
      }
    }
    if Told(k, x, notify) == [] {
      assert told == heard;
    }
  }

  /** What is known, and what was told, after these outcomes. */
  function KnownAfter(outcomes: seq<Outcome>): Known {
    if outcomes == [] then Known(None, None)
    else After(KnownAfter(outcomes[..|outcomes| - 1]), outcomes[|outcomes| - 1])
  }

  function ToldOf(outcomes: seq<Outcome>, notify: bool): seq<SubscriptionEvent> {
    if outcomes == [] then []
    else
      var before := outcomes[..|outcomes| - 1];
      ToldOf(before, notify) + Told(KnownAfter(before), outcomes[|outcomes| - 1], notify)
  }

  /** The value brought last, if any was. */
  function Latest(outcomes: seq<Outcome>): Option<WireValue> {
    if outcomes == [] then None
    else
      var x := outcomes[|outcomes| - 1];
      if Brings(x) then x.value else Latest(outcomes[..|outcomes| - 1])
  }

  /** What is known is the value brought last, or one that counts as the same. */
  lemma {:induction false} KnownIsLatest(outcomes: seq<Outcome>)
    ensures var known, latest := KnownAfter(outcomes).value, Latest(outcomes);
            (known.Some? <==> latest.Some?) &&
            (latest.Some? ==> known == latest || SameValue(known.value, latest.value))
  {
    hide SameValue;
    if outcomes != [] {
      KnownIsLatest(outcomes[..|outcomes| - 1]);
    }
  }

  /**
   The callback hears of an outcome if and only if it brings a first or different value, or, where that
   is asked for, a different status; and it is then told the outcome's status, the value now known and
   which of the three it is.
   */
  lemma ToldIff(k: Known, x: Outcome, notify: bool)
    ensures var first := x.status.DeviceAck? && x.value.Some? && k.value.None?;
            var changed := x.status.DeviceAck? && x.value.Some? &&
                           (k.value.None? || !SameValue(k.value.value, x.value.value));
            var news := notify && k.status != Some(x.status);
            if !changed && !news then Told(k, x, notify) == []
            else
              |Told(k, x, notify)| == 1 &&
              var e := Told(k, x, notify)[0];
              e.status == x.status && e.value == (if changed then x.value else k.value) &&
              e.properties == x.properties && e.first == first && e.changed == changed &&
              e.statusChanged == (k.status != Some(x.status)) && e.reasons == Reasons(first, changed, news)
  {
    hide SameValue;
  }

  /** A value brought again is told again if and only if it is a NaN. */
  lemma RepeatedValueIsToldIff(k: Known, x: Outcome)
    requires Brings(x) && k.value == x.value
    ensures Change(k, x, false).changed <==> x.value.value.Real? && NotANumber(x.value.value.measure)
    ensures Told(k, x, false) == [] <==> !Change(k, x, false).changed
  {
    SameValueIff(x.value.value, x.value.value);
  }

  /** Only one event is ever the first: a value, once known, stays known. */
  lemma {:induction false} FirstComesOnce(heard: seq<SubscriptionEvent>, i: nat, j: nat)
    requires Chained(heard) && i < j < |heard| && heard[i].value.Some?
    ensures heard[j].value.Some? && !heard[j].first
    decreases j
  {
    if i + 1 < j {
      FirstComesOnce(heard, i, j - 1);
    }
    assert Continues(Believed(heard[..j]), heard[j]);
  }

  /** After any reads and notifications the listener is informed. */
  lemma {:induction false} ListenerIsInformed(outcomes: seq<Outcome>, notify: bool)
    ensures Informed(ToldOf(outcomes, notify), KnownAfter(outcomes), notify)
  {
    hide Told, After;
    if outcomes != [] {
      var before := outcomes[..|outcomes| - 1];
      ListenerIsInformed(before, notify);
      InformedAfter(ToldOf(before, notify), KnownAfter(before), outcomes[|outcomes| - 1], notify);
    }
  }
}
