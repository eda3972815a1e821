/** The upgrade routines of `CameraSettings`: the versioned migration of the
    global and the per-camera (local) stores, and the camera-id clamp. */
module Migration {
  import opened Wrappers
  import opened Text
  import opened Store
  import opened CameraKeys

  const CURRENT_VERSION: int := 5
  const CURRENT_LOCAL_VERSION: int := 2

  /** Keys that the version-3 step deletes. */
  const KEY_OLD_VIDEO_QUALITY := "pref_camera_videoquality_key"
  const KEY_OLD_VIDEO_DURATION := "pref_camera_video_duration_key"

  /** `RecordLocationPreference.VALUE_ON` and `VALUE_NONE`. */
  const VALUE_ON := "on"
  const VALUE_NONE := "none"

  /** The keys the global migration may change. */
  const GLOBAL_MIGRATED_KEYS: set<string> :=
    {KEY_VERSION, KEY_JPEG_QUALITY, KEY_RECORD_LOCATION, KEY_OLD_VIDEO_QUALITY, KEY_OLD_VIDEO_DURATION}

  /** The stored version as the upgrade routines read it: `getInt(key, 0)`,
      with 0 when the stored value is not an int. */
  function StoredVersion(prefs: Prefs, key: string): (v: int)
    ensures key !in prefs ==> v == 0
    ensures key in prefs && prefs[key].IntV? ==> v == prefs[key].i
    ensures key in prefs && !prefs[key].IntV? ==> v == 0
  {
    match GetInt(prefs, key, 0)
    case Some(v) => v
    case None => 0
  }

  /** The version-1 mapping of the old numeric JPEG quality to its name. */
  function JpegQualityName(quality: string): (name: string)
    ensures name == "normal" <==> quality == "65"
    ensures name == "fine" <==> quality == "75"
    ensures name == "superfine" <==> quality != "65" && quality != "75"
  {
    if quality == "65" then "normal"
    else if quality == "75" then "fine"
    else "superfine"
  }

  // ---------------------------------------------------------------------------
  // Reference definition: each step a function of the store as the previous
  // step left it, applied one after another.

  /** Version 1 to 2: the JPEG quality becomes a name (an absent one counts as "85"). */
  function JpegQualityStep(prefs: Prefs): Prefs
    requires StringTyped(prefs, KEY_JPEG_QUALITY)
  {
    prefs[KEY_JPEG_QUALITY := Str(JpegQualityName(GetString(prefs, KEY_JPEG_QUALITY, "85")))]
  }

  /** Version 2 to 3: the boolean record-location flag becomes "on" or "none". */
  function RecordLocationStep(prefs: Prefs): Prefs
    requires BoolTyped(prefs, KEY_RECORD_LOCATION)
  {
    prefs[KEY_RECORD_LOCATION := Str(if GetBoolean(prefs, KEY_RECORD_LOCATION, false) then VALUE_ON else VALUE_NONE)]
  }

  /** Version 3 to 4: the old video quality and duration settings are dropped. */
  function VideoQualityStep(prefs: Prefs): Prefs {
    prefs - {KEY_OLD_VIDEO_QUALITY, KEY_OLD_VIDEO_DURATION}
  }

  /** The first step that runs for a stored version: version 0 starts at step 1. */
  function FirstStep(version: int): int {
    if version == 0 then 1 else version
  }

  /** The typed reads of the steps from `from` on do not throw. */
  predicate StepsReadTyped(from: int, prefs: Prefs) {
    (from == 1 ==> StringTyped(prefs, KEY_JPEG_QUALITY))
    && (from == 1 || from == 2 ==> BoolTyped(prefs, KEY_RECORD_LOCATION))
  }

  /** What `upgradeOldVersion` needs of the store so that none of its reads
      throws (`getString` on the JPEG quality, `getBoolean` on the record-location flag). */
  predicate UpgradeReadsTyped(prefs: Prefs) {
    var v := StoredVersion(prefs, KEY_VERSION);
    v != CURRENT_VERSION ==> StepsReadTyped(FirstStep(v), prefs)
  }

  /** Steps `from` through 3, in order. */
  function RunSteps(from: int, prefs: Prefs): Prefs
    requires StepsReadTyped(from, prefs)
    decreases 4 - from
  {
    if from == 1 then RunSteps(2, JpegQualityStep(prefs))
    else if from == 2 then RunSteps(3, RecordLocationStep(prefs))
    else if from == 3 then VideoQualityStep(prefs)
    else prefs
  }

  /** The global store after the migration: unchanged at the current version,
      otherwise every step from the stored version through 3 and then the
      version set to the current one. */
  function GlobalUpgraded(prefs: Prefs): Prefs
    requires UpgradeReadsTyped(prefs)
  {
    var v := StoredVersion(prefs, KEY_VERSION);
    if v == CURRENT_VERSION then prefs
    else RunSteps(FirstStep(v), prefs)[KEY_VERSION := IntV(CURRENT_VERSION)]
  }

  // ---------------------------------------------------------------------------
  // The routines

  /** `upgradeOldVersion`: the cascade of version blocks, each reading the
      store as it was before the migration and recording its changes in one
      editor, which is applied once at the end. The result is the same as
      running the steps one after another. */
  method UpgradeOldVersion(pref: Prefs) returns (r: Prefs)
    requires UpgradeReadsTyped(pref)
    ensures r == GlobalUpgraded(pref)
  {
    var version := StoredVersion(pref, KEY_VERSION);
    if version == CURRENT_VERSION {
      return pref;
    }
    var editor: Edits := map[];
    // `staged` is the store the steps run so far produce one after another;
    // the editor, applied to the original store, gives the same store.
    ghost var staged := pref;
    ghost var goal := RunSteps(FirstStep(version), pref);
    CommitNothing(pref);
    if version == 0 {
      version := 1;
    }
    assert goal == RunSteps(version, staged);
    if version == 1 {
      var quality := GetString(pref, KEY_JPEG_QUALITY, "85");
      if quality == "65" {
        quality := "normal";
      } else if quality == "75" {
        quality := "fine";
      } else {
        quality := "superfine";
      }
      CommitPut(pref, editor, KEY_JPEG_QUALITY, Str(quality));
      editor := editor[KEY_JPEG_QUALITY := Some(Str(quality))];
      staged := JpegQualityStep(staged);
      version := 2;
      assert goal == RunSteps(version, staged);
    }
    assert Commit(pref, editor) == staged && goal == RunSteps(version, staged);
    if version == 2 {
      var location := if GetBoolean(pref, KEY_RECORD_LOCATION, false) then VALUE_ON else VALUE_NONE;
      assert location == (if GetBoolean(staged, KEY_RECORD_LOCATION, false) then VALUE_ON else VALUE_NONE);
      CommitPut(pref, editor, KEY_RECORD_LOCATION, Str(location));
      editor := editor[KEY_RECORD_LOCATION := Some(Str(location))];
      staged := RecordLocationStep(staged);
      version := 3;
      assert goal == RunSteps(version, staged);
    }
    assert Commit(pref, editor) == staged && goal == RunSteps(version, staged);
    if version == 3 {
      CommitRemove(pref, editor, KEY_OLD_VIDEO_QUALITY);
      CommitRemove(pref, editor[KEY_OLD_VIDEO_QUALITY := None], KEY_OLD_VIDEO_DURATION);
      editor := editor[KEY_OLD_VIDEO_QUALITY := None][KEY_OLD_VIDEO_DURATION := None];
      RemoveBoth(staged, KEY_OLD_VIDEO_QUALITY, KEY_OLD_VIDEO_DURATION);
      staged := VideoQualityStep(staged);
    }
    assert Commit(pref, editor) == staged && goal == staged;
    CommitPut(pref, editor, KEY_VERSION, IntV(CURRENT_VERSION));
    editor := editor[KEY_VERSION := Some(IntV(CURRENT_VERSION))];
    r := Commit(pref, editor);
  }

  lemma RemoveBoth<K, V>(m: map<K, V>, a: K, b: K)
    ensures m - {a} - {b} == m - {a, b}
  {
  }

  lemma CommitNothing(prefs: Prefs)
    ensures Commit(prefs, map[]) == prefs
  {
  }

  lemma CommitPut(prefs: Prefs, edits: Edits, key: string, v: Val)
    ensures Commit(prefs, edits[key := Some(v)]) == Commit(prefs, edits)[key := v]
  {
  }

  lemma CommitRemove(prefs: Prefs, edits: Edits, key: string)
    ensures Commit(prefs, edits[key := None]) == Commit(prefs, edits) - {key}
  {
  }

  /** `upgradeLocalPreferences`: nothing to do at the current local version;
      from version 1 the old video quality is deleted; every other version
      ends with the local version set to 2. A version that cannot be read as
      an int counts as 0. */
  method UpgradeLocalPreferences(pref: Prefs) returns (r: Prefs)
    ensures StoredVersion(r, KEY_LOCAL_VERSION) == CURRENT_LOCAL_VERSION
    ensures StoredVersion(pref, KEY_LOCAL_VERSION) == CURRENT_LOCAL_VERSION ==> r == pref
    ensures StoredVersion(pref, KEY_LOCAL_VERSION) == 1 ==> KEY_VIDEO_QUALITY !in r
    ensures StoredVersion(pref, KEY_LOCAL_VERSION) != 1 ==> SameOutside(r, pref, {KEY_LOCAL_VERSION})
    ensures SameOutside(r, pref, {KEY_LOCAL_VERSION, KEY_VIDEO_QUALITY})
  {
    var version := StoredVersion(pref, KEY_LOCAL_VERSION);
    if version == CURRENT_LOCAL_VERSION {
      return pref;
    }
    var editor: Edits := map[];
    if version == 1 {
      editor := editor[KEY_VIDEO_QUALITY := None];
    }
    editor := editor[KEY_LOCAL_VERSION := Some(IntV(CURRENT_LOCAL_VERSION))];
    r := Commit(pref, editor);
    CommitSpec(pref, editor);
  }

  /** The camera id is readable: `getString` does not throw and `Integer.parseInt`
      accepts the text (neither exception is caught). */
  predicate CameraIdReadable(prefs: Prefs) {
    StringTyped(prefs, KEY_CAMERA_ID) && ParseInt(GetString(prefs, KEY_CAMERA_ID, "0")).Some?
  }

  /** `readPreferredCameraId`. */
  function ReadPreferredCameraId(prefs: Prefs): (id: int)
    requires CameraIdReadable(prefs)
    ensures IsInt32(id)
    ensures KEY_CAMERA_ID !in prefs ==> id == 0
  {
    ParseInt(GetString(prefs, KEY_CAMERA_ID, "0")).value
  }

  /** `writePreferredCameraId`: one editor, one put, applied. */
  function WritePreferredCameraId(prefs: Prefs, cameraId: int): (r: Prefs)
    ensures SameOutside(r, prefs, {KEY_CAMERA_ID})
  {
    CommitSpec(prefs, map[KEY_CAMERA_ID := Some(Str(IntToString(cameraId)))]);
    Commit(prefs, map[KEY_CAMERA_ID := Some(Str(IntToString(cameraId)))])
  }

  /** A written camera id reads back as itself. */
  lemma WriteReadCameraId(prefs: Prefs, cameraId: int)
    requires IsInt32(cameraId)
    ensures CameraIdReadable(WritePreferredCameraId(prefs, cameraId))
    ensures ReadPreferredCameraId(WritePreferredCameraId(prefs, cameraId)) == cameraId
  {
    ParseIntToString(cameraId);
  }

  /** `upgradeCameraId`: a stored id of 0 is left alone; an id outside
      [0, numberOfCameras) is reset to 0; an id inside the range is kept. */
  method UpgradeCameraId(pref: Prefs, numberOfCameras: int) returns (r: Prefs)
    requires CameraIdReadable(pref)
    ensures CameraIdReadable(r)
    ensures var id := ReadPreferredCameraId(pref);
      ReadPreferredCameraId(r) == if 0 <= id < numberOfCameras then id else 0
    ensures var id := ReadPreferredCameraId(pref);
      id == 0 || 0 <= id < numberOfCameras ==> r == pref
    ensures var id := ReadPreferredCameraId(pref);
      !(id == 0 || 0 <= id < numberOfCameras) ==> r == pref[KEY_CAMERA_ID := Str("0")]
    ensures SameOutside(r, pref, {KEY_CAMERA_ID})
  {
    var cameraId := ReadPreferredCameraId(pref);
    if cameraId == 0 {
      return pref;
    }
    if cameraId < 0 || cameraId >= numberOfCameras {
      r := WritePreferredCameraId(pref, 0);
      WriteReadCameraId(pref, 0);
      assert IntToString(0) == "0";
      CommitNothing(pref);
      CommitPut(pref, map[], KEY_CAMERA_ID, Str("0"));
    } else {
      r := pref;
    }
  }

  /** `upgradeGlobalPreferences`: the version migration, then the camera-id clamp. */
  method UpgradeGlobalPreferences(pref: Prefs, numberOfCameras: int) returns (r: Prefs)
    requires UpgradeReadsTyped(pref) && CameraIdReadable(pref)
    ensures StoredVersion(r, KEY_VERSION) == CURRENT_VERSION
    ensures CameraIdReadable(r)
    ensures var id := ReadPreferredCameraId(pref);
      ReadPreferredCameraId(r) == if 0 <= id < numberOfCameras then id else 0
    ensures var id := ReadPreferredCameraId(pref);
      id == 0 || 0 <= id < numberOfCameras ==> r == GlobalUpgraded(pref)
    ensures var id := ReadPreferredCameraId(pref);
      !(id == 0 || 0 <= id < numberOfCameras) ==> r == GlobalUpgraded(pref)[KEY_CAMERA_ID := Str("0")]
    ensures SameOutside(r, GlobalUpgraded(pref), {KEY_CAMERA_ID})
  {
    GlobalUpgradeFrame(pref);
    var migrated := UpgradeOldVersion(pref);
    assert KEY_CAMERA_ID !in GLOBAL_MIGRATED_KEYS;
    r := UpgradeCameraId(migrated, numberOfCameras);
  }

  // ---------------------------------------------------------------------------
  // Lemmas about the migration

  lemma {:induction false} RunStepsFrame(from: int, prefs: Prefs)
    requires StepsReadTyped(from, prefs)
    ensures SameOutside(RunSteps(from, prefs), prefs, GLOBAL_MIGRATED_KEYS - {KEY_VERSION})
    decreases 4 - from
  {
    if from == 1 {
      RunStepsFrame(2, JpegQualityStep(prefs));
    } else if from == 2 {
      RunStepsFrame(3, RecordLocationStep(prefs));
    }
  }

  /** The migration touches no key but the version, the JPEG quality, the
      record-location flag and the two old video keys. */
  lemma GlobalUpgradeFrame(prefs: Prefs)
    requires UpgradeReadsTyped(prefs)
    ensures SameOutside(GlobalUpgraded(prefs), prefs, GLOBAL_MIGRATED_KEYS)
  {
    var v := StoredVersion(prefs, KEY_VERSION);
    if v != CURRENT_VERSION {
      RunStepsFrame(FirstStep(v), prefs);
    }
  }

  /** After the migration the store is at the current version, its reads are
      still typed, and a second migration changes nothing. */
  lemma GlobalUpgradeIdempotent(prefs: Prefs)
    requires UpgradeReadsTyped(prefs)
    ensures StoredVersion(GlobalUpgraded(prefs), KEY_VERSION) == CURRENT_VERSION
    ensures UpgradeReadsTyped(GlobalUpgraded(prefs))
    ensures GlobalUpgraded(GlobalUpgraded(prefs)) == GlobalUpgraded(prefs)
  {
  }

  /** The cascade: a stored version v runs every step from v (0 counting as 1)
      through 3, each exactly once; version 4 and versions outside 0..5 only
      have the version rewritten to 5. */
  lemma GlobalUpgradeCascade(prefs: Prefs)
    requires UpgradeReadsTyped(prefs)
    ensures var v := StoredVersion(prefs, KEY_VERSION);
      var first := FirstStep(v);
      var r := GlobalUpgraded(prefs);
      && (v != CURRENT_VERSION ==> KEY_VERSION in r && r[KEY_VERSION] == IntV(CURRENT_VERSION))
      && (first == 1 ==>
            KEY_JPEG_QUALITY in r
            && r[KEY_JPEG_QUALITY] == Str(JpegQualityName(GetString(prefs, KEY_JPEG_QUALITY, "85"))))
      && (first == 1 || first == 2 ==>
            KEY_RECORD_LOCATION in r
            && r[KEY_RECORD_LOCATION] == Str(if GetBoolean(prefs, KEY_RECORD_LOCATION, false) then VALUE_ON else VALUE_NONE))
      && (1 <= first <= 3 ==> KEY_OLD_VIDEO_QUALITY !in r && KEY_OLD_VIDEO_DURATION !in r)
      && (first != 1 ==> SameOutside(r, prefs, GLOBAL_MIGRATED_KEYS - {KEY_JPEG_QUALITY}))
      && (first != 1 && first != 2 ==> SameOutside(r, prefs, GLOBAL_MIGRATED_KEYS - {KEY_JPEG_QUALITY, KEY_RECORD_LOCATION}))
      && (!(1 <= first <= 3) && v != CURRENT_VERSION ==> r == prefs[KEY_VERSION := IntV(CURRENT_VERSION)])
  {
    var v := StoredVersion(prefs, KEY_VERSION);
    var first := FirstStep(v);
    if first == 1 {
      var s1 := JpegQualityStep(prefs);
      var s2 := RecordLocationStep(s1);
      assert RunSteps(1, prefs) == VideoQualityStep(s2);
    } else if first == 2 {
      var s2 := RecordLocationStep(prefs);
      assert RunSteps(2, prefs) == VideoQualityStep(s2);
    }
  }

  /** The JPEG quality mapping of a migration from version 0 or 1: "65" becomes
      "normal", "75" "fine", and anything else, an absent value included, "superfine". */
  lemma GlobalUpgradeJpegQuality(prefs: Prefs)
    requires UpgradeReadsTyped(prefs)
    requires FirstStep(StoredVersion(prefs, KEY_VERSION)) == 1
    ensures var r := GlobalUpgraded(prefs);
      && KEY_JPEG_QUALITY in r
      && (r[KEY_JPEG_QUALITY] == Str("normal") <==> KEY_JPEG_QUALITY in prefs && prefs[KEY_JPEG_QUALITY] == Str("65"))
      && (r[KEY_JPEG_QUALITY] == Str("fine") <==> KEY_JPEG_QUALITY in prefs && prefs[KEY_JPEG_QUALITY] == Str("75"))
      && (KEY_JPEG_QUALITY !in prefs ==> r[KEY_JPEG_QUALITY] == Str("superfine"))
  {
    GlobalUpgradeCascade(prefs);
  }
}
