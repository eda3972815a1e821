/** `CameraSettings.initPreference`: the pass over a freshly loaded preference
    tree that fits it to the device. Leaves whose option lists the device
    reports are narrowed to the supported options, the exposure and camera-id
    leaves are built from device data, and leaves for features the device
    lacks are removed. */
module InitPreference {
  import opened Wrappers
  import opened Text
  import opened PreferenceTree
  import opened CapabilityFilter
  import opened OptionBuilders
  import opened PictureSizes
  import opened CameraKeys

  /** What `initPreference` asks of the device, as plain values. `None`
      stands for a `null` list. */
  datatype Capabilities = Capabilities(
    videoQualities: seq<string>,              // getSupportedVideoQuality()
    pictureSizes: seq<Size>,                  // getSupportedPictureSizes()
    whiteBalances: Option<seq<string>>,       // getSupportedWhiteBalance()
    sceneModes: Option<seq<string>>,          // getSupportedSceneModes()
    flashModes: Option<seq<string>>,          // getSupportedFlashModes()
    focusModes: Option<seq<string>>,          // getSupportedFocusModes()
    maxNumFocusAreas: int,                    // getMaxNumFocusAreas()
    maxExposure: int,                         // getMaxExposureCompensation()
    minExposure: int,                         // getMinExposureCompensation()
    exposureStepsPerStop: int,                // 1 / getExposureCompensationStep()
    cameraFacings: seq<int>,                  // CameraInfo.facing of each camera
    goofyFaceSupported: bool,                 // isEffectSupported(EFFECT_GOOFY_FACE)
    backdropperSupported: bool,               // isEffectSupported(EFFECT_BACKDROPPER)
    aeLockSupported: bool,                    // isAutoExposureLockSupported()
    awbLockSupported: bool,                   // isAutoWhiteBalanceLockSupported()
    rawParameters: set<string>,               // the names for which get(name) is not null
    colorEffectSupported: bool,               // getColorEffect() != null
    antibandingSupported: bool                // getAntibanding() != null
  )

  // ---------------------------------------------------------------------------
  // Reference definitions: what happens to the leaves with one key, given
  // those leaves in depth-first order before the pass.

  /** `filterUnsupportedOptions`: the first leaf removed, or narrowed and validated. */
  function FilterOutcome(ps: seq<ListPref>, supported: Option<seq<string>>): seq<ListPref>
    requires ps == [] || Aligned(ps[0])
  {
    if ps == [] then []
    else if FilterKeeps(ps[0], supported) then [ResetIfInvalid(FilterUnsupported(ps[0], supported.value))] + ps[1..]
    else ps[1..]
  }

  /** The focus-mode leaf: filtered without focus areas, removed when the
      device supports tap-to-focus. */
  function FocusOutcome(ps: seq<ListPref>, caps: Capabilities): seq<ListPref>
    requires ps == [] || Aligned(ps[0])
  {
    if caps.maxNumFocusAreas == 0 then FilterOutcome(ps, caps.focusModes) else Drop1(ps)
  }

  /** `buildExposureCompensation`. */
  function ExposureOutcome(ps: seq<ListPref>, caps: Capabilities): seq<ListPref>
    requires ps != [] ==> ExposureRangeValid(caps)
  {
    if ps == [] then []
    else if caps.maxExposure == 0 && caps.minExposure == 0 then ps[1..]
    else
      var k := caps.exposureStepsPerStop;
      var maxValue, minValue := MaxStop(caps.maxExposure, k), MinStop(caps.minExposure, k);
      [ps[0].(entries := ExposureLabels(maxValue, minValue), entryValues := ExposureValues(maxValue, minValue, k))] + ps[1..]
  }

  /** `buildCameraId`. */
  function CameraIdOutcome(ps: seq<ListPref>, facings: seq<int>): seq<ListPref> {
    if ps == [] then []
    else if |facings| < 2 then ps[1..]
    else
      [ps[0].(entryValues := [SlotText(FirstInSlot(facings, CAMERA_FACING_BACK)),
                              SlotText(FirstInSlot(facings, CAMERA_FACING_FRONT))])] + ps[1..]
  }

  /** `resetIfInvalid` on the first leaf. */
  function ResetOutcome(ps: seq<ListPref>): seq<ListPref>
    requires ps == [] || Resettable(ps[0])
  {
    if ps == [] then [] else [ResetIfInvalid(ps[0])] + ps[1..]
  }

  /** The effect values `initVideoEffect` offers to the generic filter. */
  function EffectSupport(p: ListPref, caps: Capabilities): seq<string> {
    SupportedEffects(p.entryValues, caps.goofyFaceSupported,
                     caps.backdropperSupported && caps.aeLockSupported && caps.awbLockSupported)
  }

  /** `initVideoEffect` followed by `resetIfInvalid`. */
  function VideoEffectOutcome(ps: seq<ListPref>, caps: Capabilities): seq<ListPref>
    requires ps == [] || Aligned(ps[0])
  {
    if ps == [] then [] else FilterOutcome(ps, Some(EffectSupport(ps[0], caps)))
  }

  /** A feature leaf: kept when the device has the feature, removed otherwise. */
  function GateOutcome(ps: seq<ListPref>, available: bool): seq<ListPref> {
    if available then ps else Drop1(ps)
  }

  /** The filter keeps the leaf exactly when the device reports a real choice
      and more than one of the leaf's options survives; a kept leaf offers
      exactly its supported options, in their order and each with its own
      label, keeps its value when that is still
      offered and falls back to the first offered one otherwise, and the later
      leaves with the key are untouched. */
  lemma FilterOutcomeSound(ps: seq<ListPref>, supported: Option<seq<string>>)
    requires ps != [] && Aligned(ps[0])
    ensures FilterKeeps(ps[0], supported) <==> |FilterOutcome(ps, supported)| == |ps|
    ensures !FilterKeeps(ps[0], supported) ==> FilterOutcome(ps, supported) == ps[1..]
    ensures FilterKeeps(ps[0], supported) ==>
      var q := FilterOutcome(ps, supported)[0];
      && q.key == ps[0].key && Selectable(q)
      && q.entryValues == Kept(ps[0].entryValues, supported.value)
      && Zip(q.entries, q.entryValues) == KeptPairs(Zip(ps[0].entries, ps[0].entryValues), supported.value)
      && (forall v :: v in q.entryValues <==> v in ps[0].entryValues && v in supported.value)
      && (ps[0].value in q.entryValues ==> q.value == ps[0].value)
      && (ps[0].value !in q.entryValues ==> q.value == q.entryValues[0])
      && FilterOutcome(ps, supported)[1..] == ps[1..]
  {
  }

  /** A kept video-effect leaf offers exactly its values whose effect family
      the device can run, in their order; it is kept exactly when more than
      one survives. */
  lemma VideoEffectOutcomeFamilies(ps: seq<ListPref>, caps: Capabilities)
    requires ps != [] && Aligned(ps[0])
    ensures |VideoEffectOutcome(ps, caps)| == |ps| <==> |EffectSupport(ps[0], caps)| > 1
    ensures |VideoEffectOutcome(ps, caps)| == |ps| ==>
      VideoEffectOutcome(ps, caps)[0].entryValues == EffectSupport(ps[0], caps)
    ensures |VideoEffectOutcome(ps, caps)| == |ps| ==>
      forall v :: v in VideoEffectOutcome(ps, caps)[0].entryValues <==>
        v in ps[0].entryValues
        && KeepEffect(v, caps.goofyFaceSupported, caps.backdropperSupported && caps.aeLockSupported && caps.awbLockSupported)
  {
    var backdropper := caps.backdropperSupported && caps.aeLockSupported && caps.awbLockSupported;
    RestrictedEffects(ps[0], caps);
    FilterOutcomeSound(ps, Some(EffectSupport(ps[0], caps)));
    forall v ensures v in EffectSupport(ps[0], caps) <==> v in ps[0].entryValues && KeepEffect(v, caps.goofyFaceSupported, backdropper) {
      SupportedEffectsMembers(ps[0].entryValues, caps.goofyFaceSupported, backdropper, v);
    }
  }

  // ---------------------------------------------------------------------------
  // What the pass asks of its input

  /** `setValueIndex(0)` does not throw. */
  predicate Resettable(p: ListPref) {
    p.value in p.entryValues || |p.entryValues| >= 1
  }

  /** The first leaf with the key, if any, has as many labels as values. */
  predicate AlignedAt(group: seq<Node>, key: string) {
    WithKey(group, key) == [] || Aligned(WithKey(group, key)[0])
  }

  /** The exposure range builds non-negative arrays: `new CharSequence[n]`
      throws for a negative `n`. */
  predicate ExposureRangeValid(caps: Capabilities) {
    && IsInt32(caps.maxExposure) && IsInt32(caps.minExposure) && caps.exposureStepsPerStop >= 1
    && (!(caps.maxExposure == 0 && caps.minExposure == 0) ==>
          MinStop(caps.minExposure, caps.exposureStepsPerStop) <= MaxStop(caps.maxExposure, caps.exposureStepsPerStop) + 1)
  }

  /** Everything `initPreference` needs so that none of its steps throws. */
  predicate InitPreferenceReady(group: seq<Node>, caps: Capabilities) {
    && AlignedAt(group, KEY_VIDEO_QUALITY) && AlignedAt(group, KEY_PICTURE_SIZE)
    && AlignedAt(group, KEY_WHITE_BALANCE) && AlignedAt(group, KEY_SCENE_MODE)
    && AlignedAt(group, KEY_FLASH_MODE) && AlignedAt(group, KEY_FOCUS_MODE)
    && AlignedAt(group, KEY_VIDEOCAMERA_FLASH_MODE) && AlignedAt(group, KEY_VIDEO_EFFECT)
    && (WithKey(group, KEY_VIDEO_TIME_LAPSE_FRAME_INTERVAL) != [] ==>
          Resettable(WithKey(group, KEY_VIDEO_TIME_LAPSE_FRAME_INTERVAL)[0]))
    && (WithKey(group, KEY_EXPOSURE) != [] ==> ExposureRangeValid(caps))
  }

  /** The keys each part of the pass may change. */
  const SIZE_KEYS: set<string> := {KEY_VIDEO_QUALITY, KEY_PICTURE_SIZE, KEY_WHITE_BALANCE}
  const MODE_KEYS: set<string> := {KEY_SCENE_MODE, KEY_FLASH_MODE, KEY_FOCUS_MODE, KEY_VIDEOCAMERA_FLASH_MODE}
  const BUILT_KEYS: set<string> := {KEY_EXPOSURE, KEY_CAMERA_ID}
  const VIDEO_KEYS: set<string> := {KEY_VIDEO_TIME_LAPSE_FRAME_INTERVAL, KEY_VIDEO_EFFECT}
  const OPTION_KEYS: set<string> := SIZE_KEYS + MODE_KEYS + BUILT_KEYS + VIDEO_KEYS

  /** The feature leaves and whether the device has each feature, in the
      order `initPreference` checks them. Most features count as present when
      `Parameters.get` knows their name. */
  function FeatureGates(caps: Capabilities): seq<(string, bool)> {
    [ (KEY_ISO_VALUE, "iso" in caps.rawParameters),
      (KEY_EFFECT, caps.colorEffectSupported),
      (KEY_BRIGHTNESS, "brightness" in caps.rawParameters),
      (KEY_METERING, "metering" in caps.rawParameters),
      (KEY_ANTIBANDING, caps.antibandingSupported),
      (KEY_SATURATION, "saturation" in caps.rawParameters),
      (KEY_SHARPNESS, "sharpness" in caps.rawParameters),
      (KEY_HUE, "hue" in caps.rawParameters),
      (KEY_CONTRAST, "contrast" in caps.rawParameters),
      (KEY_WDR, "wdr" in caps.rawParameters),
      (KEY_JPEG_QUAL, "jpeg-quality" in caps.rawParameters),
      (KEY_AE_LOCK, caps.aeLockSupported),
      (KEY_AWB_LOCK, caps.awbLockSupported) ]
  }

  /** The keys of a gate table. */
  function GateKeys<K>(gates: seq<(K, bool)>): set<K> {
    set i | 0 <= i < |gates| :: gates[i].0
  }

  /** No key appears twice in a gate table. */
  predicate DistinctKeys<K(==)>(gates: seq<(K, bool)>) {
    forall i, j :: 0 <= i < j < |gates| ==> gates[i].0 != gates[j].0
  }

  /** In a table without repeated keys, an entry's key is not among the keys before it,
      and taking the entry in adds exactly its key. */
  lemma GateKeysStep<K>(gates: seq<(K, bool)>, i: int)
    requires DistinctKeys(gates) && 0 <= i < |gates|
    ensures gates[i].0 !in GateKeys(gates[..i])
    ensures GateKeys(gates[..i + 1]) == GateKeys(gates[..i]) + {gates[i].0}
  {
    assert forall j :: 0 <= j < i ==> gates[..i][j] == gates[j];
    assert forall j :: 0 <= j <= i ==> gates[..i + 1][j] == gates[j];
  }

  // ---------------------------------------------------------------------------
  // Reference definitions on the whole tree: the tree each step of the pass
  // leaves behind. Where the source would throw (an input outside
  // `InitPreferenceReady`), these leave the tree as it was, so that they
  // compose without preconditions; no step of the pass is called there.

  /** `if (pref != null) filterUnsupportedOptions(group, pref, supported)`. */
  function FilterTree(group: seq<Node>, key: string, supported: Option<seq<string>>): seq<Node> {
    var ps := WithKey(group, key);
    if ps == [] || !Aligned(ps[0]) then group
    else if FilterKeeps(ps[0], supported) then Update(group, key, ResetIfInvalid(FilterUnsupported(ps[0], supported.value))).0
    else Remove(group, key).0
  }

  /** The focus-mode block. */
  function FocusTree(group: seq<Node>, caps: Capabilities): seq<Node> {
    if caps.maxNumFocusAreas == 0 then FilterTree(group, KEY_FOCUS_MODE, caps.focusModes)
    else Remove(group, KEY_FOCUS_MODE).0
  }

  /** `if (exposure != null) buildExposureCompensation(group, exposure)`. */
  function ExposureTree(group: seq<Node>, caps: Capabilities): seq<Node> {
    var ps := WithKey(group, KEY_EXPOSURE);
    if ps == [] || !ExposureRangeValid(caps) then group
    else if caps.maxExposure == 0 && caps.minExposure == 0 then Remove(group, KEY_EXPOSURE).0
    else
      var k := caps.exposureStepsPerStop;
      var maxValue, minValue := MaxStop(caps.maxExposure, k), MinStop(caps.minExposure, k);
      Update(group, KEY_EXPOSURE, ps[0].(entries := ExposureLabels(maxValue, minValue),
                                          entryValues := ExposureValues(maxValue, minValue, k))).0
  }

  /** `if (cameraIdPref != null) buildCameraId(group, cameraIdPref)`. */
  function CameraIdTree(group: seq<Node>, facings: seq<int>): seq<Node> {
    var ps := WithKey(group, KEY_CAMERA_ID);
    if ps == [] then group
    else if |facings| < 2 then Remove(group, KEY_CAMERA_ID).0
    else Update(group, KEY_CAMERA_ID, ps[0].(entryValues := [SlotText(FirstInSlot(facings, CAMERA_FACING_BACK)),
                                                             SlotText(FirstInSlot(facings, CAMERA_FACING_FRONT))])).0
  }

  /** `if (pref != null) resetIfInvalid(pref)`. */
  function ResetTree(group: seq<Node>, key: string): seq<Node> {
    var ps := WithKey(group, key);
    if ps == [] || !Resettable(ps[0]) then group else Update(group, key, ResetIfInvalid(ps[0])).0
  }

  /** The video-effect block: the generic filter with the values whose effect
      family the device can run; the reset after it changes nothing. */
  function VideoEffectTree(group: seq<Node>, caps: Capabilities): seq<Node> {
    var ps := WithKey(group, KEY_VIDEO_EFFECT);
    if ps == [] then group else FilterTree(group, KEY_VIDEO_EFFECT, Some(EffectSupport(ps[0], caps)))
  }

  /** The gate blocks of a table, in order: each removes its leaf when the
      device lacks the feature. */
  function GatesTree(group: seq<Node>, gates: seq<(string, bool)>): seq<Node>
    decreases |gates|
  {
    if gates == [] then group
    else
      var before := GatesTree(group, gates[..|gates| - 1]);
      var (key, available) := gates[|gates| - 1];
      if available then before else Remove(before, key).0
  }

  /** Running the gate blocks of two tables one after the other is running
      the blocks of the joined table. */
  lemma {:induction false} GatesTreeAppend(group: seq<Node>, x: seq<(string, bool)>, y: seq<(string, bool)>)
    ensures GatesTree(group, x + y) == GatesTree(GatesTree(group, x), y)
    decreases |y|
  {
    if y == [] {
      assert x + y == x;
    } else {
      var y' := y[..|y| - 1];
      assert (x + y)[..|x + y| - 1] == x + y';
      assert (x + y)[|x + y| - 1] == y[|y| - 1];
      GatesTreeAppend(group, x, y');
    }
  }

  /** Two gate blocks for different keys give the same tree in either order. */
  lemma GatesTreePair(group: seq<Node>, g: (string, bool), h: (string, bool))
    requires g.0 != h.0
    ensures GatesTree(group, [g, h]) == GatesTree(group, [h, g])
  {
    assert [g, h][..1] == [g] && [h, g][..1] == [h];
    assert [g][..0] == [] && [h][..0] == [];
    var afterG := if g.1 then group else Remove(group, g.0).0;
    var afterH := if h.1 then group else Remove(group, h.0).0;
    assert GatesTree(group, [g]) == afterG;
    assert GatesTree(group, [h]) == afterH;
    assert GatesTree(group, [g, h]) == if h.1 then afterG else Remove(afterG, h.0).0;
    assert GatesTree(group, [h, g]) == if g.1 then afterH else Remove(afterH, g.0).0;
    RemoveCommutes(group, g.0, h.0);
  }

  /** The order of the gate blocks does not matter: two neighbouring blocks
      for different keys can be swapped without changing the tree. */
  lemma GatesTreeSwap(group: seq<Node>, gates: seq<(string, bool)>, i: int)
    requires 0 <= i && i + 1 < |gates| && gates[i].0 != gates[i + 1].0
    ensures GatesTree(group, gates[..i] + [gates[i + 1], gates[i]] + gates[i + 2..]) == GatesTree(group, gates)
  {
    var before, after := gates[..i], gates[i + 2..];
    var g, h := gates[i], gates[i + 1];
    assert gates == before + [g, h] + after;
    GatesTreeAppend(group, before + [g, h], after);
    GatesTreeAppend(group, before + [h, g], after);
    GatesTreeAppend(group, before, [g, h]);
    GatesTreeAppend(group, before, [h, g]);
    GatesTreePair(GatesTree(group, before), g, h);
  }

  /** Lines 204-215. */
  function SizeOptionsTree(group: seq<Node>, caps: Capabilities): seq<Node> {
    var quality := FilterTree(group, KEY_VIDEO_QUALITY, Some(caps.videoQualities));
    var sized := FilterTree(quality, KEY_PICTURE_SIZE, Some(FormatSizes(caps.pictureSizes)));
    FilterTree(sized, KEY_WHITE_BALANCE, caps.whiteBalances)
  }

  /** Lines 216-236. */
  function ModeOptionsTree(group: seq<Node>, caps: Capabilities): seq<Node> {
    var scene := FilterTree(group, KEY_SCENE_MODE, caps.sceneModes);
    var flash := FilterTree(scene, KEY_FLASH_MODE, caps.flashModes);
    FilterTree(FocusTree(flash, caps), KEY_VIDEOCAMERA_FLASH_MODE, caps.flashModes)
  }

  /** Lines 237-238. */
  function BuiltOptionsTree(group: seq<Node>, caps: Capabilities): seq<Node> {
    CameraIdTree(ExposureTree(group, caps), caps.cameraFacings)
  }

  /** Lines 240-244. */
  function VideoOptionsTree(group: seq<Node>, caps: Capabilities): seq<Node> {
    VideoEffectTree(ResetTree(group, KEY_VIDEO_TIME_LAPSE_FRAME_INTERVAL), caps)
  }

  /** Lines 188-244: the option steps, in order. */
  function OptionsTree(group: seq<Node>, caps: Capabilities): seq<Node> {
    VideoOptionsTree(BuiltOptionsTree(ModeOptionsTree(SizeOptionsTree(group, caps), caps), caps), caps)
  }

  /** Lines 188-342: the whole pass. */
  function InitTree(group: seq<Node>, caps: Capabilities): seq<Node> {
    GatesTree(OptionsTree(group, caps), FeatureGates(caps))
  }

  // ---------------------------------------------------------------------------
  // The pass. Each step changes the leaves with its own key and no others.

  /** The guarded filter call: `filterUnsupportedOptions` when
      `findPreference(key)` found a leaf. */
  method FilterIfPresent(group: seq<Node>, key: string, supported: Option<seq<string>>) returns (r: seq<Node>)
    requires AlignedAt(group, key)
    ensures r == FilterTree(group, key, supported)
    ensures WithKey(r, key) == FilterOutcome(WithKey(group, key), supported)
    ensures forall k :: k != key ==> WithKey(r, k) == WithKey(group, k)
    ensures Pruned(group, r)
  {
    FindFirst(group, key);
    PrunedRefl(group);
    r := group;
    if Find(group, key).Some? {
      var kept;
      r, kept := FilterUnsupportedOptions(group, key, supported);
      WithKeyHead(group, key);
      if kept {
        UpdatePruned(group, key, ResetIfInvalid(FilterUnsupported(WithKey(group, key)[0], supported.value)));
      } else {
        RemovePruned(group, key);
      }
    }
  }

  /** The guarded removal: `removePreference` when `findPreference(key)` found
      a leaf and the device lacks the feature. */
  method RemoveIfUnavailable(group: seq<Node>, key: string, available: bool) returns (r: seq<Node>)
    ensures r == if available then group else Remove(group, key).0
    ensures WithKey(r, key) == GateOutcome(WithKey(group, key), available)
    ensures forall k :: k != key ==> WithKey(r, k) == WithKey(group, k)
    ensures Pruned(group, r)
  {
    FindFirst(group, key);
    PrunedRefl(group);
    r := group;
    RemoveLeaves(group, key);
    if Find(group, key).Some? && !available {
      var removed;
      r, removed := RemovePreference(group, key);
      RemovePruned(group, key);
      forall k ensures WithKey(r, k) == if k == key then Drop1(WithKey(group, key)) else WithKey(group, k) {
        RemoveWithKey(group, key, k);
      }
    }
  }

  /** The focus-mode block: filtered when the device has no focus areas,
      removed when it supports tap-to-focus. */
  method FocusIfPresent(group: seq<Node>, caps: Capabilities) returns (r: seq<Node>)
    requires AlignedAt(group, KEY_FOCUS_MODE)
    ensures r == FocusTree(group, caps)
    ensures WithKey(r, KEY_FOCUS_MODE) == FocusOutcome(WithKey(group, KEY_FOCUS_MODE), caps)
    ensures forall k :: k != KEY_FOCUS_MODE ==> WithKey(r, k) == WithKey(group, k)
    ensures Pruned(group, r)
  {
    if caps.maxNumFocusAreas == 0 {
      r := FilterIfPresent(group, KEY_FOCUS_MODE, caps.focusModes);
    } else {
      // Tap-to-focus replaces the focus-mode setting.
      r := RemoveIfUnavailable(group, KEY_FOCUS_MODE, false);
    }
  }

  /** `if (exposure != null) buildExposureCompensation(group, exposure)`. */
  method ExposureIfPresent(group: seq<Node>, caps: Capabilities) returns (r: seq<Node>)
    requires WithKey(group, KEY_EXPOSURE) != [] ==> ExposureRangeValid(caps)
    ensures r == ExposureTree(group, caps)
    ensures WithKey(r, KEY_EXPOSURE) == ExposureOutcome(WithKey(group, KEY_EXPOSURE), caps)
    ensures forall k :: k != KEY_EXPOSURE ==> WithKey(r, k) == WithKey(group, k)
    ensures Pruned(group, r)
  {
    FindFirst(group, KEY_EXPOSURE);
    PrunedRefl(group);
    r := group;
    if Find(group, KEY_EXPOSURE).Some? {
      r := BuildExposureCompensation(group, KEY_EXPOSURE, caps.maxExposure, caps.minExposure, caps.exposureStepsPerStop);
      WithKeyHead(group, KEY_EXPOSURE);
      RemovePruned(group, KEY_EXPOSURE);
      var k := caps.exposureStepsPerStop;
      var maxValue, minValue := MaxStop(caps.maxExposure, k), MinStop(caps.minExposure, k);
      UpdatePruned(group, KEY_EXPOSURE, WithKey(group, KEY_EXPOSURE)[0].(entries := ExposureLabels(maxValue, minValue),
                                                                        entryValues := ExposureValues(maxValue, minValue, k)));
    }
  }

  /** `if (cameraIdPref != null) buildCameraId(group, cameraIdPref)`. */
  method CameraIdIfPresent(group: seq<Node>, caps: Capabilities) returns (r: seq<Node>)
    ensures r == CameraIdTree(group, caps.cameraFacings)
    ensures WithKey(r, KEY_CAMERA_ID) == CameraIdOutcome(WithKey(group, KEY_CAMERA_ID), caps.cameraFacings)
    ensures forall k :: k != KEY_CAMERA_ID ==> WithKey(r, k) == WithKey(group, k)
    ensures Pruned(group, r)
  {
    FindFirst(group, KEY_CAMERA_ID);
    PrunedRefl(group);
    r := group;
    if Find(group, KEY_CAMERA_ID).Some? {
      r := BuildCameraId(group, KEY_CAMERA_ID, caps.cameraFacings);
      WithKeyHead(group, KEY_CAMERA_ID);
      RemovePruned(group, KEY_CAMERA_ID);
      var facings := caps.cameraFacings;
      UpdatePruned(group, KEY_CAMERA_ID, WithKey(group, KEY_CAMERA_ID)[0].(entryValues := [SlotText(FirstInSlot(facings, CAMERA_FACING_BACK)),
                                                                                           SlotText(FirstInSlot(facings, CAMERA_FACING_FRONT))]));
    }
  }

  /** `if (pref != null) resetIfInvalid(pref)` on the leaf `findPreference(key)` found. */
  method ResetIfPresent(group: seq<Node>, key: string) returns (r: seq<Node>)
    requires WithKey(group, key) != [] ==> Resettable(WithKey(group, key)[0])
    ensures r == ResetTree(group, key)
    ensures WithKey(r, key) == ResetOutcome(WithKey(group, key))
    ensures forall k :: k != key ==> WithKey(r, k) == WithKey(group, k)
    ensures Pruned(group, r)
  {
    FindFirst(group, key);
    PrunedRefl(group);
    r := group;
    if Find(group, key).Some? {
      var pref := ResetIfInvalid(WithKey(group, key)[0]);
      WithKeyHead(group, key);
      UpdatePruned(group, key, pref);
      r := Update(group, key, pref).0;
      forall k ensures WithKey(r, k) == if k == key then [pref] + WithKey(group, key)[1..] else WithKey(group, k) {
        UpdateWithKey(group, key, pref, k);
      }
    }
  }

  /** `if (videoEffect != null) { initVideoEffect(group, videoEffect); resetIfInvalid(videoEffect); }`.
      The second check finds a kept leaf already valid; a removed leaf is no
      longer in the tree. */
  method VideoEffectIfPresent(group: seq<Node>, caps: Capabilities) returns (r: seq<Node>)
    requires AlignedAt(group, KEY_VIDEO_EFFECT)
    ensures r == VideoEffectTree(group, caps)
    ensures WithKey(r, KEY_VIDEO_EFFECT) == VideoEffectOutcome(WithKey(group, KEY_VIDEO_EFFECT), caps)
    ensures forall k :: k != KEY_VIDEO_EFFECT ==> WithKey(r, k) == WithKey(group, k)
    ensures Pruned(group, r)
  {
    FindFirst(group, KEY_VIDEO_EFFECT);
    PrunedRefl(group);
    r := group;
    if Find(group, KEY_VIDEO_EFFECT).Some? {
      var kept;
      r, kept := InitVideoEffect(group, KEY_VIDEO_EFFECT, caps.goofyFaceSupported, caps.backdropperSupported,
                                 caps.aeLockSupported, caps.awbLockSupported);
      var p := WithKey(group, KEY_VIDEO_EFFECT)[0];
      WithKeyHead(group, KEY_VIDEO_EFFECT);
      if kept {
        UpdatePruned(group, KEY_VIDEO_EFFECT, ResetIfInvalid(FilterUnsupported(p, EffectSupport(p, caps))));
      } else {
        RemovePruned(group, KEY_VIDEO_EFFECT);
      }
      RestrictedEffects(p, caps);
      if kept {
        var effected := r;
        r := ResetIfPresent(r, KEY_VIDEO_EFFECT);
        PrunedTrans(group, effected, r);
        ResetAfterUpdate(group, KEY_VIDEO_EFFECT, ResetIfInvalid(FilterUnsupported(p, EffectSupport(p, caps))));
      }
    }
  }

  /** Resetting a leaf that an update put in place holding one of its own
      values rewrites that leaf with itself. */
  lemma ResetAfterUpdate(group: seq<Node>, key: string, q: ListPref)
    requires WithKey(group, key) != [] && q.key == key && q.value in q.entryValues
    ensures ResetTree(Update(group, key, q).0, key) == Update(group, key, q).0
  {
    UpdateWithKey(group, key, q, key);
    UpdateTwice(group, key, q, q);
  }

  /** Filtering the effect leaf by its surviving values is what
      `FilterOutcome` describes with those values as the supported list. */
  lemma RestrictedEffects(p: ListPref, caps: Capabilities)
    requires Aligned(p)
    ensures FilterUnsupported(p, EffectSupport(p, caps)).entryValues == EffectSupport(p, caps)
    ensures |FilterUnsupported(p, EffectSupport(p, caps)).entries| == |EffectSupport(p, caps)|
  {
    SurvivorsKept(p.entryValues, caps.goofyFaceSupported,
                  caps.backdropperSupported && caps.aeLockSupported && caps.awbLockSupported);
  }

  /** Lines 204-215: video quality, picture size and white balance. */
  method FilterSizeOptions(group: seq<Node>, caps: Capabilities) returns (r: seq<Node>)
    requires AlignedAt(group, KEY_VIDEO_QUALITY) && AlignedAt(group, KEY_PICTURE_SIZE) && AlignedAt(group, KEY_WHITE_BALANCE)
    ensures r == SizeOptionsTree(group, caps)
    ensures WithKey(r, KEY_VIDEO_QUALITY) == FilterOutcome(WithKey(group, KEY_VIDEO_QUALITY), Some(caps.videoQualities))
    ensures WithKey(r, KEY_PICTURE_SIZE) == FilterOutcome(WithKey(group, KEY_PICTURE_SIZE), Some(FormatSizes(caps.pictureSizes)))
    ensures WithKey(r, KEY_WHITE_BALANCE) == FilterOutcome(WithKey(group, KEY_WHITE_BALANCE), caps.whiteBalances)
    ensures forall k {:trigger WithKey(r, k)} :: k !in SIZE_KEYS ==> WithKey(r, k) == WithKey(group, k)
    ensures Pruned(group, r)
  {
    var quality := FilterIfPresent(group, KEY_VIDEO_QUALITY, Some(caps.videoQualities));
    var sizes := SizeListToStringList(caps.pictureSizes);
    assert sizes == FormatSizes(caps.pictureSizes);
    var sized := FilterIfPresent(quality, KEY_PICTURE_SIZE, Some(sizes));
    r := FilterIfPresent(sized, KEY_WHITE_BALANCE, caps.whiteBalances);
    PrunedTrans(group, quality, sized);
    PrunedTrans(group, sized, r);
  }

  /** Lines 216-236: scene mode, flash mode, focus mode and video flash mode. */
  method FilterModeOptions(group: seq<Node>, caps: Capabilities) returns (r: seq<Node>)
    requires AlignedAt(group, KEY_SCENE_MODE) && AlignedAt(group, KEY_FLASH_MODE)
    requires AlignedAt(group, KEY_FOCUS_MODE) && AlignedAt(group, KEY_VIDEOCAMERA_FLASH_MODE)
    ensures r == ModeOptionsTree(group, caps)
    ensures WithKey(r, KEY_SCENE_MODE) == FilterOutcome(WithKey(group, KEY_SCENE_MODE), caps.sceneModes)
    ensures WithKey(r, KEY_FLASH_MODE) == FilterOutcome(WithKey(group, KEY_FLASH_MODE), caps.flashModes)
    ensures WithKey(r, KEY_FOCUS_MODE) == FocusOutcome(WithKey(group, KEY_FOCUS_MODE), caps)
    ensures WithKey(r, KEY_VIDEOCAMERA_FLASH_MODE) == FilterOutcome(WithKey(group, KEY_VIDEOCAMERA_FLASH_MODE), caps.flashModes)
    ensures forall k {:trigger WithKey(r, k)} :: k !in MODE_KEYS ==> WithKey(r, k) == WithKey(group, k)
    ensures Pruned(group, r)
  {
    var scene := FilterIfPresent(group, KEY_SCENE_MODE, caps.sceneModes);
    var flash := FilterIfPresent(scene, KEY_FLASH_MODE, caps.flashModes);
    var focus := FocusIfPresent(flash, caps);
    r := FilterIfPresent(focus, KEY_VIDEOCAMERA_FLASH_MODE, caps.flashModes);
    PrunedTrans(group, scene, flash);
    PrunedTrans(group, flash, focus);
    PrunedTrans(group, focus, r);
  }

  /** Lines 237-238: exposure compensation and camera id. */
  method BuildOptions(group: seq<Node>, caps: Capabilities) returns (r: seq<Node>)
    requires WithKey(group, KEY_EXPOSURE) != [] ==> ExposureRangeValid(caps)
    ensures r == BuiltOptionsTree(group, caps)
    ensures WithKey(r, KEY_EXPOSURE) == ExposureOutcome(WithKey(group, KEY_EXPOSURE), caps)
    ensures WithKey(r, KEY_CAMERA_ID) == CameraIdOutcome(WithKey(group, KEY_CAMERA_ID), caps.cameraFacings)
    ensures forall k {:trigger WithKey(r, k)} :: k !in BUILT_KEYS ==> WithKey(r, k) == WithKey(group, k)
    ensures Pruned(group, r)
  {
    var exposed := ExposureIfPresent(group, caps);
    r := CameraIdIfPresent(exposed, caps);
    PrunedTrans(group, exposed, r);
  }

  /** Lines 240-244: the time-lapse interval check and the video effects. */
  method ValidateVideoOptions(group: seq<Node>, caps: Capabilities) returns (r: seq<Node>)
    requires WithKey(group, KEY_VIDEO_TIME_LAPSE_FRAME_INTERVAL) != [] ==>
      Resettable(WithKey(group, KEY_VIDEO_TIME_LAPSE_FRAME_INTERVAL)[0])
    requires AlignedAt(group, KEY_VIDEO_EFFECT)
    ensures r == VideoOptionsTree(group, caps)
    ensures WithKey(r, KEY_VIDEO_TIME_LAPSE_FRAME_INTERVAL) == ResetOutcome(WithKey(group, KEY_VIDEO_TIME_LAPSE_FRAME_INTERVAL))
    ensures WithKey(r, KEY_VIDEO_EFFECT) == VideoEffectOutcome(WithKey(group, KEY_VIDEO_EFFECT), caps)
    ensures forall k {:trigger WithKey(r, k)} :: k !in VIDEO_KEYS ==> WithKey(r, k) == WithKey(group, k)
    ensures Pruned(group, r)
  {
    var lapsed := ResetIfPresent(group, KEY_VIDEO_TIME_LAPSE_FRAME_INTERVAL);
    r := VideoEffectIfPresent(lapsed, caps);
    PrunedTrans(group, lapsed, r);
  }

  /** Lines 246-341: thirteen blocks of the same shape, one per feature leaf,
      each removing its leaf when the device lacks the feature. */
  method RemoveUnavailableFeatures(group: seq<Node>, gates: seq<(string, bool)>) returns (r: seq<Node>)
    requires DistinctKeys(gates)
    ensures r == GatesTree(group, gates)
    ensures forall i :: 0 <= i < |gates| ==>
      WithKey(r, gates[i].0) == GateOutcome(WithKey(group, gates[i].0), gates[i].1)
    ensures forall k {:trigger WithKey(r, k)} :: k !in GateKeys(gates) ==> WithKey(r, k) == WithKey(group, k)
    ensures Pruned(group, r)
  {
    r := group;
    PrunedRefl(group);
    for i := 0 to |gates|
      invariant forall j :: 0 <= j < i ==>
        WithKey(r, gates[j].0) == GateOutcome(WithKey(group, gates[j].0), gates[j].1)
      invariant forall k :: k !in GateKeys(gates[..i]) ==> WithKey(r, k) == WithKey(group, k)
      invariant Pruned(group, r)
      invariant r == GatesTree(group, gates[..i])
    {
      GateKeysStep(gates, i);
      assert gates[..i + 1][..i] == gates[..i];
      var before := r;
      r := RemoveIfUnavailable(r, gates[i].0, gates[i].1);
      PrunedTrans(group, before, r);
    }
    TakeAll(gates);
    assert GateKeys(gates[..|gates|]) == GateKeys(gates);
  }

  /** The feature table names each key once. */
  lemma FeatureGatesDistinct(caps: Capabilities)
    ensures DistinctKeys(FeatureGates(caps))
  {
  }

  /** The feature table names none of the option keys. */
  lemma FeatureGatesApart(caps: Capabilities)
    ensures GateKeys(FeatureGates(caps)) !! OPTION_KEYS
  {
  }

  /** The parts of the pass change disjoint sets of keys. */
  lemma OptionKeysApart()
    ensures SIZE_KEYS !! MODE_KEYS && SIZE_KEYS !! BUILT_KEYS && SIZE_KEYS !! VIDEO_KEYS
    ensures MODE_KEYS !! BUILT_KEYS && MODE_KEYS !! VIDEO_KEYS && BUILT_KEYS !! VIDEO_KEYS
  {
  }

  /** The option leaves after the option steps of the pass: the leaves of
      each option key end as that key's reference outcome says. */
  predicate OptionsConfigured(group: seq<Node>, r: seq<Node>, caps: Capabilities)
    requires InitPreferenceReady(group, caps)
  {
    && WithKey(r, KEY_VIDEO_QUALITY) == FilterOutcome(WithKey(group, KEY_VIDEO_QUALITY), Some(caps.videoQualities))
    && WithKey(r, KEY_PICTURE_SIZE) == FilterOutcome(WithKey(group, KEY_PICTURE_SIZE), Some(FormatSizes(caps.pictureSizes)))
    && WithKey(r, KEY_WHITE_BALANCE) == FilterOutcome(WithKey(group, KEY_WHITE_BALANCE), caps.whiteBalances)
    && WithKey(r, KEY_SCENE_MODE) == FilterOutcome(WithKey(group, KEY_SCENE_MODE), caps.sceneModes)
    && WithKey(r, KEY_FLASH_MODE) == FilterOutcome(WithKey(group, KEY_FLASH_MODE), caps.flashModes)
    && WithKey(r, KEY_FOCUS_MODE) == FocusOutcome(WithKey(group, KEY_FOCUS_MODE), caps)
    && WithKey(r, KEY_VIDEOCAMERA_FLASH_MODE) == FilterOutcome(WithKey(group, KEY_VIDEOCAMERA_FLASH_MODE), caps.flashModes)
    && WithKey(r, KEY_EXPOSURE) == ExposureOutcome(WithKey(group, KEY_EXPOSURE), caps)
    && WithKey(r, KEY_CAMERA_ID) == CameraIdOutcome(WithKey(group, KEY_CAMERA_ID), caps.cameraFacings)
    && WithKey(r, KEY_VIDEO_TIME_LAPSE_FRAME_INTERVAL) == ResetOutcome(WithKey(group, KEY_VIDEO_TIME_LAPSE_FRAME_INTERVAL))
    && WithKey(r, KEY_VIDEO_EFFECT) == VideoEffectOutcome(WithKey(group, KEY_VIDEO_EFFECT), caps)
  }

  /** Lines 188-244: the option leaves, in four parts. Only option leaves change. */
  method ConfigureOptions(group: seq<Node>, caps: Capabilities) returns (r: seq<Node>)
    requires InitPreferenceReady(group, caps)
    ensures r == OptionsTree(group, caps)
    ensures OptionsConfigured(group, r, caps)
    ensures forall k {:trigger WithKey(r, k)} :: k !in OPTION_KEYS ==> WithKey(r, k) == WithKey(group, k)
    ensures Pruned(group, r)
  {
    OptionKeysApart();
    var sized := FilterSizeOptions(group, caps);
    var moded := FilterModeOptions(sized, caps);
    var built := BuildOptions(moded, caps);
    r := ValidateVideoOptions(built, caps);
    PrunedTrans(group, sized, moded);
    PrunedTrans(group, moded, built);
    PrunedTrans(group, built, r);
  }

  /** Steps that leave the option leaves alone keep them configured. */
  lemma OptionsConfiguredFrame(group: seq<Node>, a: seq<Node>, b: seq<Node>, caps: Capabilities)
    requires InitPreferenceReady(group, caps)
    requires OptionsConfigured(group, a, caps)
    requires forall k {:trigger WithKey(b, k)} :: k in OPTION_KEYS ==> WithKey(b, k) == WithKey(a, k)
    ensures OptionsConfigured(group, b, caps)
  {
  }

  /** `initPreference`: the result is exactly `InitTree`. Every option leaf is
      narrowed, built or validated as its reference definition says, every
      feature leaf the device lacks is removed, and every other leaf is left
      as it was. The key outline keeps its shape: no group is added, dropped
      or moved, and no key moves past another. */
  method InitPreference(group: seq<Node>, caps: Capabilities) returns (r: seq<Node>)
    requires InitPreferenceReady(group, caps)
    ensures r == InitTree(group, caps)
    ensures OptionsConfigured(group, r, caps)
    ensures forall i :: 0 <= i < |FeatureGates(caps)| ==>
      WithKey(r, FeatureGates(caps)[i].0) == GateOutcome(WithKey(group, FeatureGates(caps)[i].0), FeatureGates(caps)[i].1)
    ensures forall k :: k !in OPTION_KEYS && k !in GateKeys(FeatureGates(caps)) ==> WithKey(r, k) == WithKey(group, k)
    ensures Pruned(group, r) && GroupCount(r) == GroupCount(group)
  {
    FeatureGatesDistinct(caps);
    FeatureGatesApart(caps);
    var configured := ConfigureOptions(group, caps);
    r := RemoveUnavailableFeatures(configured, FeatureGates(caps));
    OptionsConfiguredFrame(group, configured, r, caps);
    PrunedTrans(group, configured, r);
    PrunedGroupCount(group, r);
  }
}
