/** The derived option builders of `CameraSettings`: `buildExposureCompensation`
    and `buildCameraId`, which synthesise a leaf's choices from device data. */
module OptionBuilders {
  import opened Wrappers
  import opened Text
  import opened PreferenceTree

  // ---------------------------------------------------------------------------
  // Exposure compensation

  /** `floor(a / k)`: Dafny's `/` rounds down for a positive divisor. */
  function FloorDiv(a: int, k: int): (r: int)
    requires k > 0
    ensures r * k <= a < (r + 1) * k
  {
    a / k
  }

  /** `ceil(a / k)`. */
  function CeilDiv(a: int, k: int): (r: int)
    requires k > 0
    ensures (r - 1) * k < a <= r * k
  {
    -((-a) / k)
  }

  /** The label of stop `i`: an explicit '+' for positive stops, bare otherwise. */
  function ExposureLabel(i: int): string {
    if i > 0 then "+" + IntToString(i) else IntToString(i)
  }

  /** Every label reads back, through `Integer.parseInt`, as its stop. */
  lemma ExposureLabelParses(i: int)
    requires IsInt32(i)
    ensures ParseInt(ExposureLabel(i)) == Some(i)
    ensures |ExposureLabel(i)| >= 1 && (ExposureLabel(i)[0] == '+' <==> i > 0)
  {
    if i > 0 {
      ParseIntPlus(i);
    } else {
      ParseIntToString(i);
    }
  }

  /** `f` applied to the stops `hi` down to `lo`: position `j` holds `f(hi - j)`. */
  function Descending<T>(hi: int, lo: int, f: int -> T): (s: seq<T>)
    requires lo <= hi + 1
    ensures |s| == hi - lo + 1
    ensures forall j :: 0 <= j < |s| ==> s[j] == f(hi - j)
  {
    seq(hi - lo + 1, j => f(hi - j))
  }

  /** The labels of stops `maxValue` down to `minValue`. */
  function ExposureLabels(maxValue: int, minValue: int): seq<string>
    requires minValue <= maxValue + 1
  {
    Descending(maxValue, minValue, ExposureLabel)
  }

  /** The device value of stop `i`, in decimal: `i` whole stops of `stepsPerStop` device steps. */
  function ExposureValue(i: int, stepsPerStop: int): string {
    IntToString(i * stepsPerStop)
  }

  /** `ExposureValue` for a fixed step, as a function of the stop. */
  function ExposureValueOf(stepsPerStop: int): int -> string {
    i => ExposureValue(i, stepsPerStop)
  }

  /** The device values of stops `maxValue` down to `minValue`. */
  function ExposureValues(maxValue: int, minValue: int, stepsPerStop: int): seq<string>
    requires minValue <= maxValue + 1
  {
    Descending(maxValue, minValue, ExposureValueOf(stepsPerStop))
  }

  /** The loop of `buildExposureCompensation` that fills the two arrays: stop
      `i` goes to position `maxValue - i`, so the stops run from `maxValue`
      down to `minValue`. What each slot holds is given by `labelOf` and
      `valueOf`: the model passes `ExposureLabel` and `ExposureValueOf`. */
  method ExposureEntries<A(0), B(0)>(minValue: int, maxValue: int, labelOf: int -> A, valueOf: int -> B)
    returns (labels: array<A>, values: array<B>)
    requires minValue <= maxValue + 1
    ensures labels[..] == Descending(maxValue, minValue, labelOf)
    ensures values[..] == Descending(maxValue, minValue, valueOf)
  {
    var n := maxValue - minValue + 1;
    labels := new A[n];
    values := new B[n];
    var i := minValue;
    while i <= maxValue
      invariant minValue <= i <= maxValue + 1
      invariant forall j :: maxValue - i < j < n ==> labels[j] == labelOf(maxValue - j)
      invariant forall j :: maxValue - i < j < n ==> values[j] == valueOf(maxValue - j)
    {
      values[maxValue - i] := valueOf(i);
      labels[maxValue - i] := labelOf(i);
      i := i + 1;
    }
  }

  /** Every label of the list reads back as the stop at its position. */
  lemma ExposureLabelsParse(maxValue: int, minValue: int)
    requires IsInt32(minValue) && IsInt32(maxValue) && minValue <= maxValue + 1
    ensures var labels := ExposureLabels(maxValue, minValue);
      forall j :: 0 <= j < |labels| ==> ParseInt(labels[j]) == Some(maxValue - j)
  {
    var labels := ExposureLabels(maxValue, minValue);
    forall j | 0 <= j < |labels| ensures ParseInt(labels[j]) == Some(maxValue - j) {
      ExposureLabelParses(maxValue - j);
    }
  }

  /** The stop range `buildExposureCompensation` derives from the device range. */
  function MaxStop(max: int, stepsPerStop: int): int requires stepsPerStop > 0 { FloorDiv(max, stepsPerStop) }
  function MinStop(min: int, stepsPerStop: int): int requires stepsPerStop > 0 { CeilDiv(min, stepsPerStop) }

  /** Every device value of the built list lies within the device's range. */
  lemma ExposureValuesInRange(min: int, max: int, stepsPerStop: int, i: int)
    requires stepsPerStop > 0
    requires MinStop(min, stepsPerStop) <= i <= MaxStop(max, stepsPerStop)
    ensures min <= i * stepsPerStop <= max
  {
    var lo, hi := MinStop(min, stepsPerStop), MaxStop(max, stepsPerStop);
    MulMonotone(lo, i, stepsPerStop);
    MulMonotone(i, hi, stepsPerStop);
  }

  /** Scaling by a positive step keeps the order of stops. */
  lemma MulMonotone(a: int, b: int, k: int)
    requires a <= b && k > 0
    ensures a * k <= b * k
  {
    assert b * k - a * k == (b - a) * k;
  }

  /** `buildExposureCompensation(group, exposure)` for the leaf `findPreference(key)`
      returns: removed when the device range is [0, 0]; otherwise its labels and
      values are replaced by one choice per whole stop, highest first, and its
      current value is kept as it is. */
  method BuildExposureCompensation(group: seq<Node>, key: string, max: int, min: int, stepsPerStop: int)
    returns (r: seq<Node>)
    requires WithKey(group, key) != []
    requires IsInt32(max) && IsInt32(min) && stepsPerStop >= 1
    requires !(max == 0 && min == 0) ==> MinStop(min, stepsPerStop) <= MaxStop(max, stepsPerStop) + 1
    ensures max == 0 && min == 0 ==> r == Remove(group, key).0 && WithKey(r, key) == WithKey(group, key)[1..]
    ensures !(max == 0 && min == 0) ==>
      var p := WithKey(group, key)[0];
      var maxValue, minValue := MaxStop(max, stepsPerStop), MinStop(min, stepsPerStop);
      && r == Update(group, key, p.(entries := ExposureLabels(maxValue, minValue),
                                    entryValues := ExposureValues(maxValue, minValue, stepsPerStop))).0
      && |WithKey(r, key)| == |WithKey(group, key)|
      && WithKey(r, key)[1..] == WithKey(group, key)[1..]
      && var q := WithKey(r, key)[0];
      && q == p.(entries := ExposureLabels(maxValue, minValue), entryValues := ExposureValues(maxValue, minValue, stepsPerStop))
      && q.key == key && q.value == p.value
      && |q.entries| == |q.entryValues| == maxValue - minValue + 1
    ensures forall k :: k != key ==> WithKey(r, k) == WithKey(group, k)
  {
    if max == 0 && min == 0 {
      var removed;
      r, removed := RemovePreference(group, key);
      forall k ensures WithKey(r, k) == if k == key then Drop1(WithKey(group, key)) else WithKey(group, k) {
        RemoveWithKey(group, key, k);
      }
      return;
    }
    var maxValue := FloorDiv(max, stepsPerStop);
    var minValue := CeilDiv(min, stepsPerStop);
    var entries, entryValues := ExposureEntries(minValue, maxValue, ExposureLabel, ExposureValueOf(stepsPerStop));
    var exposure := WithKey(group, key)[0].(entries := entries[..], entryValues := entryValues[..]);
    WithKeyHead(group, key);
    r := Update(group, key, exposure).0;
    forall k ensures WithKey(r, k) == if k == key then [exposure] + WithKey(group, key)[1..] else WithKey(group, k) {
      UpdateWithKey(group, key, exposure, k);
    }
  }

  // ---------------------------------------------------------------------------
  // Camera id

  const CAMERA_FACING_BACK: int := 0
  const CAMERA_FACING_FRONT: int := 1

  /** The slot a camera goes to: front-facing cameras to slot 1, every other
      facing to slot 0. */
  function SlotOf(facing: int): (slot: int)
    ensures slot == CAMERA_FACING_FRONT <==> facing == CAMERA_FACING_FRONT
    ensures slot == CAMERA_FACING_BACK || slot == CAMERA_FACING_FRONT
  {
    if facing == CAMERA_FACING_FRONT then CAMERA_FACING_FRONT else CAMERA_FACING_BACK
  }

  /** Index of the first camera that goes to `slot`, if any. */
  function FirstInSlot(facings: seq<int>, slot: int): (r: Option<nat>)
    ensures r.Some? ==> r.value < |facings| && SlotOf(facings[r.value]) == slot
    ensures r.Some? ==> forall j :: 0 <= j < r.value ==> SlotOf(facings[j]) != slot
    ensures r.None? ==> forall j :: 0 <= j < |facings| ==> SlotOf(facings[j]) != slot
  {
    if facings == [] then None
    else if SlotOf(facings[0]) == slot then Some(0)
    else match FirstInSlot(facings[1..], slot)
      case None => None
      case Some(i) => Some(i + 1)
  }

  /** The first camera of a slot in a prefix is the first in the whole list. */
  lemma FirstInSlotPrefix(facings: seq<int>, n: nat, slot: int)
    requires n <= |facings|
    ensures FirstInSlot(facings[..n], slot).Some? ==> FirstInSlot(facings, slot) == FirstInSlot(facings[..n], slot)
  {
    assert forall j :: 0 <= j < n ==> facings[..n][j] == facings[j];
  }

  /** Looking at one more camera fills an empty slot only if that camera goes to it. */
  lemma FirstInSlotExtend(facings: seq<int>, n: nat, slot: int)
    requires n < |facings|
    ensures FirstInSlot(facings[..n + 1], slot) ==
      if FirstInSlot(facings[..n], slot).Some? then FirstInSlot(facings[..n], slot)
      else if SlotOf(facings[n]) == slot then Some(n) else None
  {
    assert facings[..n + 1][..n] == facings[..n];
    FirstInSlotPrefix(facings[..n + 1], n, slot);
    assert forall j :: 0 <= j <= n ==> facings[..n + 1][j] == facings[j];
  }

  /** The loop of `buildCameraId`: each slot receives the index of the first
      camera that goes to it; a filled slot is never overwritten, and the loop
      stops as soon as both slots are filled. */
  method CameraIdSlots(facings: seq<int>) returns (slots: seq<Option<nat>>)
    ensures |slots| == 2
    ensures slots[CAMERA_FACING_FRONT] == FirstInSlot(facings, CAMERA_FACING_FRONT)
    ensures slots[CAMERA_FACING_BACK] == FirstInSlot(facings, CAMERA_FACING_BACK)
  {
    var entryValues := new Option<nat>[2](_ => None);
    var i := 0;
    while i < |facings|
      invariant 0 <= i <= |facings|
      invariant entryValues[0] == FirstInSlot(facings[..i], 0)
      invariant entryValues[1] == FirstInSlot(facings[..i], 1)
    {
      var index := SlotOf(facings[i]);
      FirstInSlotExtend(facings, i, 0);
      FirstInSlotExtend(facings, i, 1);
      if entryValues[index] == None {
        entryValues[index] := Some(i);
        if entryValues[if index == 1 then 0 else 1] != None {
          FirstInSlotPrefix(facings, i + 1, 0);
          FirstInSlotPrefix(facings, i + 1, 1);
          break;
        }
      }
      i := i + 1;
    }
    if i == |facings| {
      assert facings[..i] == facings;
    }
    slots := entryValues[..];
  }

  /** The text a slot holds: the decimal camera index, or "" where the Java
      array keeps `null` because no camera has that facing. */
  function SlotText(slot: Option<nat>): string {
    match slot
    case None => ""
    case Some(i) => IntToString(i)
  }

  /** Each filled slot reads back as the index of a camera of that facing,
      the first one of it; an empty slot holds no number. */
  lemma SlotTextParses(facings: seq<int>, slot: int)
    requires |facings| <= INT_MAX
    ensures var s := FirstInSlot(facings, slot);
      match s
      case Some(i) => ParseInt(SlotText(s)) == Some(i) && SlotOf(facings[i]) == slot
      case None => ParseInt(SlotText(s)) == None
  {
    var s := FirstInSlot(facings, slot);
    if s.Some? {
      ParseIntToString(s.value);
    }
  }

  /** `buildCameraId(group, preference)` for the leaf `findPreference(key)`
      returns: removed with fewer than two cameras; otherwise its values become
      the two slots (back camera, front camera) and its labels stay. */
  method BuildCameraId(group: seq<Node>, key: string, facings: seq<int>) returns (r: seq<Node>)
    requires WithKey(group, key) != []
    ensures |facings| < 2 ==> r == Remove(group, key).0 && WithKey(r, key) == WithKey(group, key)[1..]
    ensures |facings| >= 2 ==>
      var p := WithKey(group, key)[0];
      && r == Update(group, key, p.(entryValues := [SlotText(FirstInSlot(facings, CAMERA_FACING_BACK)),
                                                    SlotText(FirstInSlot(facings, CAMERA_FACING_FRONT))])).0
      && |WithKey(r, key)| == |WithKey(group, key)|
      && WithKey(r, key)[1..] == WithKey(group, key)[1..]
      && WithKey(r, key)[0] == p.(entryValues := [SlotText(FirstInSlot(facings, CAMERA_FACING_BACK)),
                                                 SlotText(FirstInSlot(facings, CAMERA_FACING_FRONT))])
    ensures forall k :: k != key ==> WithKey(r, k) == WithKey(group, k)
  {
    if |facings| < 2 {
      var removed;
      r, removed := RemovePreference(group, key);
      forall k ensures WithKey(r, k) == if k == key then Drop1(WithKey(group, key)) else WithKey(group, k) {
        RemoveWithKey(group, key, k);
      }
      return;
    }
    var slots := CameraIdSlots(facings);
    var preference := WithKey(group, key)[0].(entryValues := [SlotText(slots[0]), SlotText(slots[1])]);
    WithKeyHead(group, key);
    r := Update(group, key, preference).0;
    forall k ensures WithKey(r, k) == if k == key then [preference] + WithKey(group, key)[1..] else WithKey(group, k) {
      UpdateWithKey(group, key, preference, k);
    }
  }

  /** Two cameras, back then front: the back slot holds "0" and the front slot "1". */
  lemma CameraIdBackThenFront()
    ensures FirstInSlot([CAMERA_FACING_BACK, CAMERA_FACING_FRONT], CAMERA_FACING_BACK) == Some(0)
    ensures FirstInSlot([CAMERA_FACING_BACK, CAMERA_FACING_FRONT], CAMERA_FACING_FRONT) == Some(1)
  {
    var f := [CAMERA_FACING_BACK, CAMERA_FACING_FRONT];
    assert f[1..] == [CAMERA_FACING_FRONT];
  }
}
