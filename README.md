# Camera settings: preference tree, capability filter, migrations and readers

This project models the core of `CameraSettings` in the Android camera
application and proves properties of that model.

- **The preference tree.** The settings screen is a tree of
  `PreferenceGroup`s holding `ListPreference` leaves. `initPreference` fits a
  freshly loaded tree to the device it runs on:
  - option leaves are narrowed to the values the camera reports and then
    validated;
  - the exposure-compensation and camera-id leaves are built from device data;
  - leaves for features the device lacks are removed by a depth-first
    `removePreference`.
- **The stores.** Persisted settings live in key/value stores. The upgrade
  routines migrate older versions of the global and per-camera stores through
  a cascade of version steps that are applied with one editor. They also clamp
  the stored camera id.
- **The readers.** Small readers decode stored strings: integer settings with
  a fallback of 0, two lock flags, the video effect selection and its
  parameter, and picture sizes written as `"WxH"`.

Modules:

| module | file | what it holds |
|---|---|---|
| `PreferenceTree` | `preference_tree.dfy` | The tree as values, with `Node = Leaf(ListPref) \| Group(seq<Node>)`. It has the search `Find`, the removal (`Remove` and the method `RemovePreference`) and the leaf view `WithKey`. |
| `CapabilityFilter` | `capability_filter.dfy` | `filterUnsupportedOptions`, `resetIfInvalid` and `initVideoEffect`. |
| `OptionBuilders` | `option_builders.dfy` | `buildExposureCompensation` and `buildCameraId`. |
| `InitPreference` | `init_preference.dfy` | The whole `initPreference` pass, with a reference outcome for each key. |
| `Store`, `Migration` | `store.dfy`, `migration.dfy` | `SharedPreferences` as a `map`, one-shot editor commits, `upgradeOldVersion`, `upgradeLocalPreferences`, `upgradeCameraId`, and reading and writing the camera id. |
| `SettingsReaders`, `PictureSizes` | `settings_readers.dfy`, `picture_sizes.dfy` | The `read*` decoders, `setCameraPictureSize` and `sizeListToStringList`. |
| `Text`, `CameraKeys`, `Wrappers` | `text.dfy`, `camera_keys.dfy`, `wrappers.dfy` | Java decimal formatting and `Integer.parseInt`, the key and default constants, and `Option`. |

How the tree is modelled:
- The source mutates the tree in place. Here each tree operation is a method
  that returns the new tree as a value.
- Every leaf is addressed the way `findPreference` addresses it: the first
  list leaf with the key in depth-first order.
- `WithKey(tree, key)` lists the leaves carrying `key` in that order. Every
  operation is specified by what it does to the head of `WithKey(tree, key)`,
  and by leaving `WithKey(tree, k)` unchanged for every other key `k`.
- `Pruned(a, b)` compares the key outline of two trees (`ShapeOf`: each
  leaf reduced to its key). It says that `b`'s outline is `a`'s with some
  leaves deleted: no group is added, dropped or moved, and no key moves past
  another. It does not say which of several leaves with the same key went.
- For each key, a reference function in `InitPreference` (`FilterOutcome`,
  `ExposureOutcome` and so on) states what the pass does to that key's
  leaves.
- For each step, a reference function on the whole tree (`FilterTree`,
  `ExposureTree`, ..., composed into `OptionsTree` and `InitTree`) states the
  tree the step leaves behind, in terms of `Remove` and `Update`. Every step
  of the pass, each of its parts and `InitPreference.InitPreference` itself
  is proved to return exactly that tree. This pins the tree even when leaves
  with the same key sit in different groups, which the per-key lists and
  `Pruned` alone do not.

## Model

| member | source | states |
|---|---|---|
| PreferenceTree.Find | src/com/android/camera/CameraSettings.java:188-200 | `findPreference` yields only a leaf with the requested key. |
| PreferenceTree.FindFirst | src/com/android/camera/CameraSettings.java:188-200 | The search returns the first leaf with the key in depth-first order, and `None` when no leaf has the key. |
| PreferenceTree.Remove | src/com/android/camera/CameraSettings.java:391-406 | When nothing is removed (the `false` return), the tree is unchanged. |
| PreferenceTree.RemovePreference | src/com/android/camera/CameraSettings.java:391-406 | The loop over a group's children, which recurses into a nested group before that group's later siblings, computes exactly `Remove`. |
| PreferenceTree.RemovePreferenceSpec | src/com/android/camera/CameraSettings.java:391-406 | Returns true iff some list leaf has the key. Then it removes exactly the first such leaf in depth-first order and nothing else. Otherwise the tree is unchanged. The number of groups never changes. |
| PreferenceTree.RemoveLeaves | src/com/android/camera/CameraSettings.java:391-406 | Removal happens iff a leaf with the key exists. The new leaf sequence is the old one with its first matching leaf deleted. |
| PreferenceTree.RemoveWithKey | src/com/android/camera/CameraSettings.java:391-406 | Removal drops the first leaf with the key and leaves the leaves of every other key as they were. |
| PreferenceTree.RemoveKeepsGroups | src/com/android/camera/CameraSettings.java:394-398 | Groups are searched but never matched or removed. |
| PreferenceTree.RemoveCommutes | src/com/android/camera/CameraSettings.java:391-406 | Removing two different keys gives the same tree in either order, and whether the second removal finds its leaf does not depend on the first. |
| PreferenceTree.RemoveTwice | src/com/android/camera/CameraSettings.java:391-406 | Two removals of the same key remove at most two leaves, one per call. They drop the first two leaves with the key. |
| PreferenceTree.RemoveUniqueIdempotent | src/com/android/camera/CameraSettings.java:391-406 | With at most one leaf carrying the key, a second removal returns false and changes nothing. |
| PreferenceTree.Update | src/com/android/camera/CameraSettings.java:418 | Replacing the leaf that `findPreference` found changes nothing when no leaf has the key. |
| PreferenceTree.UpdateWithKey | src/com/android/camera/CameraSettings.java:418-431 | Mutating the found leaf changes only the first leaf with its key. The leaves of all other keys are unchanged. |
| PreferenceTree.FirstIndex | src/com/android/camera/CameraSettings.java:392-403 | The index is -1 or the position of a leaf with the key. |
| PreferenceTree.FirstIndexFirst | src/com/android/camera/CameraSettings.java:392-403 | The index is the first match: every earlier leaf has another key, and -1 means no leaf has the key. |
| PreferenceTree.DeleteFirstAt | src/com/android/camera/CameraSettings.java:401 | Deleting the first match removes exactly the element at `FirstIndex`. |
| PreferenceTree.RemovePruned | src/com/android/camera/CameraSettings.java:391-406 | Removal prunes the tree: one leaf goes, and every group and every other node stays in place. |
| PreferenceTree.UpdatePruned | src/com/android/camera/CameraSettings.java:418-433 | Changing the found leaf in place, with its key kept, leaves the tree's shape as it was. |
| PreferenceTree.PrunedTrans | src/com/android/camera/CameraSettings.java:187-342 | A sequence of removals and in-place changes is again a pruning of the tree it started from. |
| PreferenceTree.PrunedGroupCount | src/com/android/camera/CameraSettings.java:394-398 | A pruned tree has exactly the groups of the original. |
| PreferenceTree.UpdateTwice | src/com/android/camera/CameraSettings.java:418-433 | A second in-place change of the leaf an update put in place hits the same leaf: the tree is as if only the second change had been made. |
| PreferenceTree.PrunedRefl | src/com/android/camera/CameraSettings.java:187-342 | A tree is a pruning of itself, with nothing removed. |
| CapabilityFilter.RestrictPairs | src/com/android/camera/CameraSettings.java:418 | `filterUnsupported` keeps exactly the offered values that are supported, in their order and with their repeats (`Kept`). The kept (label, value) pairs are the old pairs whose value is supported, in order, so each kept value keeps its own label. |
| CapabilityFilter.FilterUnsupported | src/com/android/camera/CameraSettings.java:418 | The narrowed leaf keeps its key and value. Its values are the old values restricted, in order, to the supported ones, and its labels are the labels of those values. |
| CapabilityFilter.ResetIfInvalid | src/com/android/camera/CameraSettings.java:427-433 | A valid value is left alone and an invalid one becomes the first entry value. Either way the value ends up among the entry values. |
| CapabilityFilter.ResetIfInvalidIdempotent | src/com/android/camera/CameraSettings.java:427-433 | Validating twice is the same as validating once. |
| CapabilityFilter.FilterUnsupportedOptions | src/com/android/camera/CameraSettings.java:408-425 | The leaf is removed (the tree is `Remove`d) when the list is null, has at most one element, or leaves at most one entry. Otherwise the tree is `Update`d: the found leaf is replaced in place by the narrowed and validated leaf, which offers a real choice. No other leaf changes. |
| CapabilityFilter.SupportedEffectsMembers | src/com/android/camera/CameraSettings.java:757-762 | An effect value survives iff it is one of the leaf's values and its family (goofy face, backdropper) is supported. |
| CapabilityFilter.SupportedEffectsSnoc | src/com/android/camera/CameraSettings.java:757-762 | Each loop iteration appends the current value exactly when its family is supported. |
| CapabilityFilter.SupportedEffectValues | src/com/android/camera/CameraSettings.java:757-763 | The loop over the effect values, with its two `continue`s, collects exactly the values whose family the device can run, in order. |
| CapabilityFilter.RestrictToSurvivors | src/com/android/camera/CameraSettings.java:764 | Filtering the effect values by a list that holds exactly the surviving values leaves exactly those values, in order. |
| CapabilityFilter.SurvivorsKept | src/com/android/camera/CameraSettings.java:764 | The survivors of the effect loop, passed as the supported list, are kept exactly and in order. |
| CapabilityFilter.InitVideoEffect | src/com/android/camera/CameraSettings.java:746-765 | The effect leaf is kept iff more than one value survives. A kept leaf is replaced in place (`Update`) by one offering exactly the surviving values, in order, and validated. The backdropper also needs both auto locks. No other leaf changes. |
| OptionBuilders.FloorDiv | src/com/android/camera/CameraSettings.java:355 | The whole stop below the maximum, bracketed between multiples of the step count. |
| OptionBuilders.CeilDiv | src/com/android/camera/CameraSettings.java:356 | The whole stop above the minimum, bracketed between multiples of the step count. |
| OptionBuilders.ExposureLabelParses | src/com/android/camera/CameraSettings.java:361-363 | A stop's label starts with '+' iff the stop is positive, and it parses back to the stop. |
| OptionBuilders.ExposureEntries | src/com/android/camera/CameraSettings.java:357-364 | The array-filling loop gives two arrays of `maxValue - minValue + 1` slots, from the highest stop down. Slot `j` holds the label and the device value of stop `maxValue - j`. |
| OptionBuilders.ExposureLabelsParse | src/com/android/camera/CameraSettings.java:361-363 | Every label of the built list parses back to the stop at its position. |
| OptionBuilders.ExposureValuesInRange | src/com/android/camera/CameraSettings.java:355-360 | Every device value of the built list lies within the device's compensation range. |
| OptionBuilders.BuildExposureCompensation | src/com/android/camera/CameraSettings.java:344-367 | A [0, 0] range removes the leaf. Otherwise the found leaf is replaced in place (`Update`): its labels and values become one choice per whole stop, highest first, and its value is kept. No other leaf changes. |
| OptionBuilders.SlotOf | src/com/android/camera/CameraSettings.java:379-382 | Front-facing cameras go to slot 1 and every other facing to slot 0. |
| OptionBuilders.FirstInSlot | src/com/android/camera/CameraSettings.java:378-387 | The index of the first camera of a slot: a camera of that slot with none before it. When the result is empty, no camera goes to the slot. |
| OptionBuilders.FirstInSlotExtend | src/com/android/camera/CameraSettings.java:383-384 | Looking at one more camera fills an empty slot only when that camera goes to it. A filled slot is never overwritten. |
| OptionBuilders.FirstInSlotPrefix | src/com/android/camera/CameraSettings.java:385 | Stopping early once both slots are filled does not change either slot. |
| OptionBuilders.CameraIdSlots | src/com/android/camera/CameraSettings.java:377-387 | The loop, including its early `break`, leaves in each slot the first camera with that facing. |
| OptionBuilders.SlotTextParses | src/com/android/camera/CameraSettings.java:384 | A filled slot's text parses to the index of a camera of that facing. An empty slot holds no number. |
| OptionBuilders.BuildCameraId | src/com/android/camera/CameraSettings.java:369-389 | With fewer than two cameras the leaf is removed. Otherwise the found leaf is replaced in place (`Update`), with its values set to [back slot, front slot]. No other leaf changes. |
| InitPreference.FilterIfPresent | src/com/android/camera/CameraSettings.java:204-214 | A guarded filter call returns exactly `FilterTree`: the tree unchanged when no leaf has the key, else the found leaf replaced in place by its narrowed and validated form, or removed. Its key's leaves end as `FilterOutcome` describes; no other key's leaves change. |
| InitPreference.RemoveIfUnavailable | src/com/android/camera/CameraSettings.java:247-253 | A guarded removal returns the tree unchanged when the feature is present, and `Remove(tree, key)` otherwise (which is the tree itself when no leaf has the key). Only the key's first leaf can go. |
| InitPreference.FocusIfPresent | src/com/android/camera/CameraSettings.java:224-232 | Returns exactly `FocusTree`: the focus-mode leaf is filtered when there are no focus areas and removed otherwise (tap-to-focus). |
| InitPreference.ExposureIfPresent | src/com/android/camera/CameraSettings.java:237 | Returns exactly `ExposureTree`: the exposure leaf, if present, is removed for a [0, 0] range or rebuilt in place, as `ExposureOutcome` describes for its key. |
| InitPreference.CameraIdIfPresent | src/com/android/camera/CameraSettings.java:238 | Returns exactly `CameraIdTree`: the camera-id leaf, if present, is removed for fewer than two cameras or given the back and front slots in place. |
| InitPreference.ResetIfPresent | src/com/android/camera/CameraSettings.java:240 | Returns exactly `ResetTree`: the time-lapse leaf, if present, is validated in place: the tree is the old one with that leaf replaced. Nothing else changes. |
| InitPreference.VideoEffectIfPresent | src/com/android/camera/CameraSettings.java:241-244 | Returns exactly `VideoEffectTree`: `initVideoEffect` followed by `resetIfInvalid` equals the generic filter with the surviving effects as the supported list. |
| InitPreference.FilterOutcomeSound | src/com/android/camera/CameraSettings.java:408-433 | The filter keeps the leaf iff the list has more than one element and more than one entry survives. A kept leaf offers the supported old values in their order, each with its own label. It keeps its value if that is still offered, otherwise it falls back to the first offered value. |
| InitPreference.VideoEffectOutcomeFamilies | src/com/android/camera/CameraSettings.java:746-765 | The effect leaf is kept iff more than one value survives. It then offers exactly the surviving values, in order: those whose family the device supports. |
| InitPreference.FilterSizeOptions | src/com/android/camera/CameraSettings.java:204-215 | Returns exactly `SizeOptionsTree`, the three filter steps in order. Video quality, picture size (as "WxH" text) and white balance are each filtered by their device list; other keys are untouched. |
| InitPreference.FilterModeOptions | src/com/android/camera/CameraSettings.java:216-236 | Returns exactly `ModeOptionsTree`, the four steps in order. Scene, flash, focus and video-flash modes are each filtered, or removed for tap-to-focus; other keys are untouched. |
| InitPreference.BuildOptions | src/com/android/camera/CameraSettings.java:237-238 | Returns exactly `BuiltOptionsTree`. The exposure and camera-id leaves are built from device data; other keys are untouched. |
| InitPreference.ValidateVideoOptions | src/com/android/camera/CameraSettings.java:240-244 | Returns exactly `VideoOptionsTree`. The time-lapse leaf is validated and the video effects are pruned; other keys are untouched. |
| InitPreference.RemoveUnavailableFeatures | src/com/android/camera/CameraSettings.java:246-341 | Returns exactly `GatesTree`, the guarded removals in table order. Each feature leaf in the table is removed iff the device lacks the feature. Leaves of keys outside the table are unchanged. |
| InitPreference.GatesTreeAppend | src/com/android/camera/CameraSettings.java:246-341 | Running the feature blocks of one table after another's is running those of the joined table. |
| InitPreference.GatesTreePair | src/com/android/camera/CameraSettings.java:246-341 | Two feature blocks for different keys give the same tree in either order. |
| InitPreference.GatesTreeSwap | src/com/android/camera/CameraSettings.java:246-341 | Swapping two neighbouring feature blocks with different keys leaves the tree as it was, so the order of the blocks does not matter. |
| InitPreference.ResetAfterUpdate | src/com/android/camera/CameraSettings.java:241-244 | Resetting a leaf just put in place with one of its own values gives back the same tree. |
| InitPreference.FeatureGatesDistinct | src/com/android/camera/CameraSettings.java:246-341 | The thirteen feature blocks name thirteen different keys. |
| InitPreference.FeatureGatesApart | src/com/android/camera/CameraSettings.java:246-341 | No feature block names an option key. |
| InitPreference.ConfigureOptions | src/com/android/camera/CameraSettings.java:188-244 | Returns exactly `OptionsTree`, the four parts in order. Every option leaf ends as its reference outcome says. Leaves of all other keys are unchanged, and the key outline is pruned (`Pruned`). |
| InitPreference.OptionsConfiguredFrame | src/com/android/camera/CameraSettings.java:246-341 | The feature removals, which leave the option leaves alone, keep the option leaves as configured. |
| InitPreference.InitPreference | src/com/android/camera/CameraSettings.java:187-342 | Returns exactly `InitTree`: the option steps, then the feature removals. Every option leaf ends as its reference outcome says. Every feature leaf the device lacks is removed. Every other leaf is unchanged. The key outline is a pruning of the input's: no group is added, dropped or moved, the number of groups is the same, and no key moves past another. |
| Store.CommitSpec | src/com/android/camera/CameraSettings.java:509-510 | `apply()` gives each touched key what the editor last put there, or removes it. Every untouched key keeps its value. |
| Store.GetInt | src/com/android/camera/CameraSettings.java:469-473 | `getInt` gives the default for a missing key and fails exactly when the stored value is not an int. |
| Migration.StoredVersion | src/com/android/camera/CameraSettings.java:468-473 | A missing or mistyped version reads as 0; an int version reads as itself. |
| Migration.JpegQualityName | src/com/android/camera/CameraSettings.java:484-491 | "65" maps to "normal", "75" to "fine", and anything else to "superfine", each iff. |
| Migration.UpgradeOldVersion | src/com/android/camera/CameraSettings.java:467-511 | The one-editor cascade equals running the version steps one after another from the stored version, then setting version 5. |
| Migration.GlobalUpgradeCascade | src/com/android/camera/CameraSettings.java:474-510 | Version v runs every step from v through 3 (0 counting as 1), each once. It then writes version 5. Versions 4 and unknown versions only rewrite the version. |
| Migration.GlobalUpgradeJpegQuality | src/com/android/camera/CameraSettings.java:482-494 | From versions 0 and 1, "65" becomes "normal" and "75" "fine", each iff. An absent quality becomes "superfine". |
| Migration.GlobalUpgradeFrame | src/com/android/camera/CameraSettings.java:476-510 | Only the version, JPEG quality, record-location and the two old video keys can change. |
| Migration.RunStepsFrame | src/com/android/camera/CameraSettings.java:482-507 | The steps touch only their own keys. |
| Migration.GlobalUpgradeIdempotent | src/com/android/camera/CameraSettings.java:474 | After the migration the store is at version 5 and a second migration changes nothing. |
| Migration.UpgradeLocalPreferences | src/com/android/camera/CameraSettings.java:443-460 | At version 2 nothing changes. From version 1 the video quality is removed. Every other version ends with only the local version rewritten, to 2. |
| Migration.ReadPreferredCameraId | src/com/android/camera/CameraSettings.java:527-529 | The id is a Java int, and 0 when nothing is stored. |
| Migration.WritePreferredCameraId | src/com/android/camera/CameraSettings.java:531-536 | Writing the id touches no other key. |
| Migration.WriteReadCameraId | src/com/android/camera/CameraSettings.java:527-536 | A written id reads back as itself. |
| Migration.UpgradeCameraId | src/com/android/camera/CameraSettings.java:513-525 | An id of 0 or one in [0, n) leaves the store as it was. An id outside that range is rewritten to the text "0", so the store is the old one with only the camera id set to "0", and it reads back as 0. |
| Migration.UpgradeGlobalPreferences | src/com/android/camera/CameraSettings.java:462-465 | The store ends at version 5 with the camera id clamped. It is exactly the migrated store when the stored id is 0 or in range, and the migrated store with the id text set to "0" otherwise. |
| SettingsReaders.ReadIntSetting | src/com/android/camera/CameraSettings.java:538-620 | The stored text, or the default, parsed as an int. Text that does not parse gives 0. |
| SettingsReaders.ReadWrittenIntSetting | src/com/android/camera/CameraSettings.java:538-620 | An int written as decimal text reads back as itself. |
| SettingsReaders.ReadAbsentIntSetting | src/com/android/camera/CameraSettings.java:92-104 | With nothing stored, the JPEG quality reads 100 and every other integer setting reads 0. |
| SettingsReaders.ReadLockSetting | src/com/android/camera/CameraSettings.java:622-644 | A lock is on iff the stored text is exactly "1". The default "0" counts as off. |
| SettingsReaders.GoofyFaceNamed | src/com/android/camera/CameraSettings.java:668-680 | Names a distortion only for its own text; unknown text names none. |
| SettingsReaders.GoofyFaceNameRoundTrip | src/com/android/camera/CameraSettings.java:668-680 | Each distortion's name denotes that distortion. |
| SettingsReaders.GoofyFaceNamedEach | src/com/android/camera/CameraSettings.java:668-680 | A text that is a distortion's name denotes that distortion. |
| SettingsReaders.EffectTypeOf | src/com/android/camera/CameraSettings.java:646-657 | "none" is no effect. A goofy-face prefix wins over a backdropper prefix, each iff. Anything else is no effect. |
| SettingsReaders.NoneUnprefixed | src/com/android/camera/CameraSettings.java:648-652 | The selection "none" carries neither effect prefix, so the prefix tests never see it. |
| SettingsReaders.ParameterText | src/com/android/camera/CameraSettings.java:664-666 | The text after the first '/', or the whole selection when it has no '/'. |
| SettingsReaders.EffectParameterOf | src/com/android/camera/CameraSettings.java:659-689 | "none" has no parameter. A goofy-face selection whose text after '/' names a distortion gives that distortion. A backdropper selection (without the goofy-face prefix) gives the text after '/' verbatim. Every other selection gives no parameter, both directions. |
| SettingsReaders.ReadEffectType | src/com/android/camera/CameraSettings.java:646-647 | With nothing stored, there is no effect. |
| SettingsReaders.ReadEffectParameter | src/com/android/camera/CameraSettings.java:659-663 | With nothing stored, there is no parameter. |
| SettingsReaders.EffectReadersAgree | src/com/android/camera/CameraSettings.java:646-689 | The two readers agree: each kind of parameter comes only with its own effect type, and no effect has no parameter. |
| SettingsReaders.ReadGoofyFaceSelection | src/com/android/camera/CameraSettings.java:650-680 | A stored goofy-face selection reads back as that type and distortion. |
| SettingsReaders.ReadBackdropperSelection | src/com/android/camera/CameraSettings.java:652-685 | A stored backdropper selection reads back as that type and its URI, whatever the URI contains. |
| SettingsReaders.SeparatorAfterPrefix | src/com/android/camera/CameraSettings.java:664-666 | The parameter of `prefix/rest` is `rest`. |
| PictureSizes.SizeListToStringList | src/com/android/camera/CameraSettings.java:435-441 | The list is the sizes formatted as "WxH" one by one, in order: one entry per size, entry `i` from size `i`. |
| PictureSizes.ParsePictureSize | src/com/android/camera/CameraSettings.java:174-177 | No 'x' means no size. Otherwise the width and height are Java ints. |
| PictureSizes.SetCameraPictureSize | src/com/android/camera/CameraSettings.java:172-185 | A size is chosen iff the candidate names one of the supported sizes, and then that size is chosen. |
| PictureSizes.ParseFormattedSize | src/com/android/camera/CameraSettings.java:174-177 | A formatted size is a valid candidate that parses back to itself. |
| PictureSizes.FormattedSizeAccepted | src/com/android/camera/CameraSettings.java:435-441 | Every entry `sizeListToStringList` writes is accepted against the same list, choosing that size. |
| Text.ParseInt | src/com/android/camera/CameraSettings.java:528 | `Integer.parseInt` succeeds only on non-empty text, with a Java int. |
| Text.ParseIntToString | src/com/android/camera/CameraSettings.java:534 | `Integer.toString` then `Integer.parseInt` is the identity on Java ints. |
| Text.ParseIntPlus | src/com/android/camera/CameraSettings.java:362-363 | A leading '+' is accepted by `Integer.parseInt`. |
| Text.IndexOf | src/com/android/camera/CameraSettings.java:174 | `indexOf` gives -1 iff the character is absent, otherwise its first occurrence. |

## Left out

- Device and library queries (`Parameters`, `CameraInfo`, `CamcorderProfile`, `EffectsRecorder.isEffectSupported`, `CameraHolder.getNumberOfCameras`) are foreign calls. Their results are inputs: the `Capabilities` value, `facings` and `numberOfCameras`.
- `getSupportedVideoQuality` (726-744) queries `CamcorderProfile`, so its list is the input `videoQualities`. `getDefaultVideoQuality` (138-145) is not modelled for the same reason.
- `Parameters.getSupportedPictureSizes` is assumed non-null in `initPreference`. The source dereferences it unguarded.
- Floating point: the exposure step is modelled as the exact real number `1 / stepsPerStop`, for a whole number `stepsPerStop >= 1`. Then `maxValue` is `floor(max / stepsPerStop)`, `minValue` is `ceil(min / stepsPerStop)` and each value is `i * stepsPerStop`. The Java code multiplies in `float`, which can round the other way. For example, with 41 steps per stop and `max = 41`, `41 * (1f / 41)` is `0.99999994f`, so Java's `maxValue` is 0 where the model's `MaxStop` gives 1. `ceil` has the same problem (41 steps per stop, `min = -1312`). Step counts 47, 55 and 61 behave the same way. Other float steps are not modelled either.
- OptionBuilders.BuildExposureCompensation: the Java `int` expression `maxValue - minValue + 1` is computed without overflow. It would overflow only for a range of 2^31 or more stops.
- `ListPreference.filterUnsupported` is not part of this model. Its behaviour is taken as an order-preserving restriction of the aligned labels and values to the supported values.
- `RecordLocationPreference.KEY`, `VALUE_ON` and `VALUE_NONE` are not part of this model. Their values are assumed.
- Tree loading (`getPreferenceGroup`, `PreferenceInflater`), `removePreferenceFromScreen` (a one-line call to `removePreference`) and UI plumbing are not modelled.
- Persistence mechanics are not modelled: asynchronous `Editor.apply()`, `ComboPreferences` store switching, and `restorePreferences` (692-724), which clears stores and calls the upgrade routines.
- `initialCameraPictureSize` (147-165) reads Android resources and is not modelled. Its per-candidate check is `PictureSizes.SetCameraPictureSize`.
- Logging (`Log.*`) is left out.
- Unchecked exceptions are preconditions, not modelled outcomes:
  - `Integer.parseInt` in `readPreferredCameraId` and `setCameraPictureSize`;
  - `getString` and `getBoolean` on a value of another type;
  - `new CharSequence[n]` with a negative `n`;
  - `setValueIndex(0)` on a leaf with no entries.
- The tree is a value, not shared mutable objects. A method returns the new tree instead of mutating the group in place, and aliasing between `ListPreference` objects is not modelled.
- InitPreference.InitPreference: the source looks up all eleven option leaves before changing any of them. The model looks each up just before its step. Each step changes only the leaves of its own key, so this is the same.
- InitPreference.RemoveUnavailableFeatures: the thirteen identical "remove if the parameter is absent" blocks are modelled as one loop over the table `FeatureGates`, in source order.
- InitPreference.VideoEffectIfPresent: when `initVideoEffect` removes the leaf, the source still calls `resetIfInvalid` on the detached object. That object is no longer in the tree, so the call is not modelled. If it has no entries, the Java call throws; the model does not capture this.
- OptionBuilders.BuildCameraId: a slot left `null` in the Java array (all cameras face one way) is represented as the empty string.
- CapabilityFilter.FilterUnsupportedOptions: returns an extra `kept` flag so that callers can tell whether the leaf is still in the tree. The source tests this through `findPreference`.
- PreferenceTree.RemoveUniqueIdempotent: removing a key a second time leaves the tree unchanged only when at most one leaf carries the key. With duplicate keys the code removes the next one. `RemoveTwice` states the general case.
- Text.ParseInt: only ASCII decimal digits are modelled, not the other Unicode digits that `Character.digit` accepts.
- Text.ParseInt: models `Integer.parseInt` from Java 7 and later, which accepts a leading '+'. Java 6 rejects it, so on Java 6 `ReadIntSetting` would read a stored "+5" as 0, not 5.
- PictureSizes.FormatSize: `String.format` uses the default locale's digits. The model assumes a locale with ASCII digits. In a locale such as "fa" (Persian digits), `sizeListToStringList` would not produce ASCII "WxH" text, and the picture-size leaf would be filtered differently.
