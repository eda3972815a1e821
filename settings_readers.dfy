/** The readers that turn stored setting strings into values: the integer
    settings parsed with a fallback of 0, the two lock flags, and the video
    effect selection with its parameter. */
module SettingsReaders {
  import opened Wrappers
  import opened Text
  import opened Store
  import opened CameraKeys

  // ---------------------------------------------------------------------------
  // Integer settings

  /** The settings read by `readExposure`, `readBrightness`, `readSaturation`,
      `readSharpness`, `readHue`, `readWdr` and `readJpegQuality`. */
  datatype IntSetting = Exposure | Brightness | Saturation | Sharpness | Hue | Wdr | JpegQuality
  {
    function Key(): string {
      match this
      case Exposure => KEY_EXPOSURE
      case Brightness => KEY_BRIGHTNESS
      case Saturation => KEY_SATURATION
      case Sharpness => KEY_SHARPNESS
      case Hue => KEY_HUE
      case Wdr => KEY_WDR
      case JpegQuality => KEY_JPEG_QUAL
    }

    function Default(): string {
      match this
      case Exposure => EXPOSURE_DEFAULT_VALUE
      case Brightness => BRIGHTNESS_DEFAULT_VALUE
      case Saturation => SATURATION_DEFAULT_VALUE
      case Sharpness => SHARPNESS_DEFAULT_VALUE
      case Hue => HUE_DEFAULT_VALUE
      case Wdr => WDR_DEFAULT_VALUE
      case JpegQuality => JPEG_QUAL_DEFAULT_VALUE
    }
  }

  /** The `read*` integer readers: the stored string (or the setting's default
      when absent) parsed as an int; text that does not parse gives 0. The
      `getString` call is outside the `try`, so a value of another type is a
      precondition. */
  function ReadIntSetting(prefs: Prefs, setting: IntSetting): (r: int)
    requires StringTyped(prefs, setting.Key())
    ensures IsInt32(r)
    ensures var text := GetString(prefs, setting.Key(), setting.Default());
      (ParseInt(text).Some? ==> r == ParseInt(text).value) && (ParseInt(text).None? ==> r == 0)
  {
    match ParseInt(GetString(prefs, setting.Key(), setting.Default()))
    case Some(v) => v
    case None => 0
  }

  /** An int written as its decimal text reads back as itself. */
  lemma ReadWrittenIntSetting(prefs: Prefs, setting: IntSetting, i: int)
    requires IsInt32(i)
    ensures StringTyped(prefs[setting.Key() := Str(IntToString(i))], setting.Key())
    ensures ReadIntSetting(prefs[setting.Key() := Str(IntToString(i))], setting) == i
  {
    ParseIntToString(i);
  }

  /** With nothing stored, every integer setting reads as 0 except the JPEG
      quality, which reads as 100. */
  lemma ReadAbsentIntSetting(prefs: Prefs, setting: IntSetting)
    requires setting.Key() !in prefs
    ensures ReadIntSetting(prefs, setting) == if setting == JpegQuality then 100 else 0
  {
    var value := if setting == JpegQuality then 100 else 0;
    assert DigitChar(0) == '0' && DigitChar(1) == '1';
    assert NatToString(10) == NatToString(1) + [DigitChar(0)] == "10";
    assert NatToString(100) == NatToString(10) + [DigitChar(0)] == "100";
    assert setting.Default() == IntToString(value);
    ParseIntToString(value);
  }

  // ---------------------------------------------------------------------------
  // Lock flags

  /** The settings read by `readAELock` and `readAWBLock`. */
  datatype LockSetting = AeLock | AwbLock
  {
    function Key(): string {
      match this
      case AeLock => KEY_AE_LOCK
      case AwbLock => KEY_AWB_LOCK
    }

    function Default(): string {
      match this
      case AeLock => AE_LOCK_DEFAULT_VALUE
      case AwbLock => AWB_LOCK_DEFAULT_VALUE
    }
  }

  /** `readAELock` / `readAWBLock`: whether the stored text (default "0") is "1". */
  function ReadLockSetting(prefs: Prefs, setting: LockSetting): (locked: bool)
    requires StringTyped(prefs, setting.Key())
    ensures locked <==> setting.Key() in prefs && prefs[setting.Key()] == Str("1")
  {
    GetString(prefs, setting.Key(), setting.Default()) == "1"
  }

  // ---------------------------------------------------------------------------
  // Video effect

  /** `EffectsRecorder.EFFECT_NONE`, `EFFECT_GOOFY_FACE`, `EFFECT_BACKDROPPER`. */
  datatype EffectType = EffectNone | EffectGoofyFace | EffectBackdropper

  /** The six goofy-face distortions (`EffectsRecorder.EFFECT_GF_*`). */
  datatype GoofyFace = Squeeze | BigEyes | BigMouth | SmallMouth | BigNose | SmallEyes

  /** What `readEffectParameter` returns: `null`, a goofy-face constant, or
      the backdropper's string (a video URI or "gallery"). */
  datatype EffectParameter = NoParameter | GoofyFaceParameter(face: GoofyFace) | BackdropperParameter(uri: string)

  const EFFECT_SELECTION_NONE := "none"
  const GOOFY_FACE_PREFIX := "goofy_face"
  const BACKDROPPER_PREFIX := "backdropper"

  /** The text that names each distortion after the '/' of a selection. */
  function GoofyFaceName(face: GoofyFace): string {
    match face
    case Squeeze => "squeeze"
    case BigEyes => "big_eyes"
    case BigMouth => "big_mouth"
    case SmallMouth => "small_mouth"
    case BigNose => "big_nose"
    case SmallEyes => "small_eyes"
  }

  /** The distortion a parameter text names, if any. */
  function GoofyFaceNamed(name: string): (r: Option<GoofyFace>)
    ensures r.None? ==> forall face :: GoofyFaceName(face) != name
    ensures r.Some? ==> GoofyFaceName(r.value) == name
  {
    if name == "squeeze" then Some(Squeeze)
    else if name == "big_eyes" then Some(BigEyes)
    else if name == "big_mouth" then Some(BigMouth)
    else if name == "small_mouth" then Some(SmallMouth)
    else if name == "big_nose" then Some(BigNose)
    else if name == "small_eyes" then Some(SmallEyes)
    else None
  }

  /** The stored selection, "none" when absent. */
  function EffectSelection(prefs: Prefs): string
    requires StringTyped(prefs, KEY_VIDEO_EFFECT)
  {
    GetString(prefs, KEY_VIDEO_EFFECT, EFFECT_SELECTION_NONE)
  }

  /** `readEffectType` on the selection text: "none" exactly, else the first
      prefix that matches; anything unrecognised counts as no effect. */
  function EffectTypeOf(selection: string): (t: EffectType)
    ensures t == EffectGoofyFace <==> selection != EFFECT_SELECTION_NONE && StartsWith(selection, GOOFY_FACE_PREFIX)
    ensures t == EffectBackdropper <==>
      selection != EFFECT_SELECTION_NONE && !StartsWith(selection, GOOFY_FACE_PREFIX) && StartsWith(selection, BACKDROPPER_PREFIX)
  {
    if selection == EFFECT_SELECTION_NONE then EffectNone
    else if StartsWith(selection, GOOFY_FACE_PREFIX) then EffectGoofyFace
    else if StartsWith(selection, BACKDROPPER_PREFIX) then EffectBackdropper
    else EffectNone
  }

  /** The text after the first '/', or the whole selection when it has none. */
  function ParameterText(selection: string): (p: string)
    ensures '/' !in selection ==> p == selection
    ensures '/' in selection ==> exists j :: 0 <= j < |selection| && selection[j] == '/' && '/' !in selection[..j] && p == selection[j + 1..]
  {
    selection[IndexOf(selection, '/') + 1..]
  }

  /** `readEffectParameter` on the selection text: a goofy-face selection
      names a distortion by the text after its '/', a backdropper selection
      carries that text as it is, and anything else has no parameter. */
  function EffectParameterOf(selection: string): (r: EffectParameter)
    ensures selection == EFFECT_SELECTION_NONE ==> r == NoParameter
    ensures r.GoofyFaceParameter? ==> GoofyFaceName(r.face) == ParameterText(selection)
    ensures r.BackdropperParameter? ==> r.uri == ParameterText(selection)
    ensures forall face :: StartsWith(selection, GOOFY_FACE_PREFIX) && GoofyFaceName(face) == ParameterText(selection) ==>
      r == GoofyFaceParameter(face)
    ensures !StartsWith(selection, GOOFY_FACE_PREFIX) && StartsWith(selection, BACKDROPPER_PREFIX) ==>
      r == BackdropperParameter(ParameterText(selection))
    ensures r == NoParameter <==>
      || (!StartsWith(selection, GOOFY_FACE_PREFIX) && !StartsWith(selection, BACKDROPPER_PREFIX))
      || (StartsWith(selection, GOOFY_FACE_PREFIX) && forall face :: GoofyFaceName(face) != ParameterText(selection))
  {
    NoneUnprefixed();
    GoofyFaceNamedEach(ParameterText(selection));
    if selection == EFFECT_SELECTION_NONE then NoParameter
    else
      var parameter := ParameterText(selection);
      if StartsWith(selection, GOOFY_FACE_PREFIX) then
        match GoofyFaceNamed(parameter)
        case Some(face) => GoofyFaceParameter(face)
        case None => NoParameter
      else if StartsWith(selection, BACKDROPPER_PREFIX) then BackdropperParameter(parameter)
      else NoParameter
  }

  /** "none" carries neither effect prefix. */
  lemma NoneUnprefixed()
    ensures !StartsWith(EFFECT_SELECTION_NONE, GOOFY_FACE_PREFIX) && !StartsWith(EFFECT_SELECTION_NONE, BACKDROPPER_PREFIX)
  {
  }

  /** A text that is some distortion's name denotes that distortion. */
  lemma GoofyFaceNamedEach(name: string)
    ensures forall face :: GoofyFaceName(face) == name ==> GoofyFaceNamed(name) == Some(face)
  {
    forall face | GoofyFaceName(face) == name ensures GoofyFaceNamed(name) == Some(face) {
      GoofyFaceNameRoundTrip(face);
    }
  }

  /** `readEffectType`. */
  function ReadEffectType(prefs: Prefs): (t: EffectType)
    requires StringTyped(prefs, KEY_VIDEO_EFFECT)
    ensures KEY_VIDEO_EFFECT !in prefs ==> t == EffectNone
  {
    EffectTypeOf(EffectSelection(prefs))
  }

  /** `readEffectParameter`. */
  function ReadEffectParameter(prefs: Prefs): (r: EffectParameter)
    requires StringTyped(prefs, KEY_VIDEO_EFFECT)
    ensures KEY_VIDEO_EFFECT !in prefs ==> r == NoParameter
  {
    EffectParameterOf(EffectSelection(prefs))
  }

  /** The two readers agree: a goofy-face parameter only comes with the
      goofy-face type, a backdropper parameter only with the backdropper type,
      and no effect never has a parameter. */
  lemma EffectReadersAgree(selection: string)
    ensures EffectParameterOf(selection).GoofyFaceParameter? ==> EffectTypeOf(selection) == EffectGoofyFace
    ensures EffectParameterOf(selection).BackdropperParameter? ==> EffectTypeOf(selection) == EffectBackdropper
    ensures EffectTypeOf(selection) == EffectNone ==> EffectParameterOf(selection) == NoParameter
  {
  }

  /** The selection text the effect menu stores for a goofy-face distortion. */
  function GoofyFaceSelection(face: GoofyFace): string {
    GOOFY_FACE_PREFIX + "/" + GoofyFaceName(face)
  }

  /** The selection text the effect menu stores for a backdropper video. */
  function BackdropperSelection(uri: string): string {
    BACKDROPPER_PREFIX + "/" + uri
  }

  /** A stored goofy-face selection reads back as that type and distortion. */
  lemma ReadGoofyFaceSelection(face: GoofyFace)
    ensures EffectTypeOf(GoofyFaceSelection(face)) == EffectGoofyFace
    ensures EffectParameterOf(GoofyFaceSelection(face)) == GoofyFaceParameter(face)
  {
    var s := GoofyFaceSelection(face);
    assert s[..|GOOFY_FACE_PREFIX|] == GOOFY_FACE_PREFIX;
    SeparatorAfterPrefix(GOOFY_FACE_PREFIX, GoofyFaceName(face));
    GoofyFaceNameRoundTrip(face);
  }

  /** Each distortion's name denotes that distortion. */
  lemma GoofyFaceNameRoundTrip(face: GoofyFace)
    ensures GoofyFaceNamed(GoofyFaceName(face)) == Some(face)
  {
    match face
    case Squeeze =>
    case BigEyes =>
    case BigMouth =>
    case SmallMouth =>
    case BigNose =>
    case SmallEyes =>
  }

  /** A stored backdropper selection reads back as that type and the text after
      the first '/', whatever that text contains. */
  lemma ReadBackdropperSelection(uri: string)
    ensures EffectTypeOf(BackdropperSelection(uri)) == EffectBackdropper
    ensures EffectParameterOf(BackdropperSelection(uri)) == BackdropperParameter(uri)
  {
    var s := BackdropperSelection(uri);
    assert s[..|BACKDROPPER_PREFIX|] == BACKDROPPER_PREFIX;
    assert s[..|GOOFY_FACE_PREFIX|] != GOOFY_FACE_PREFIX by {
      assert s[0] != GOOFY_FACE_PREFIX[0];
    }
    SeparatorAfterPrefix(BACKDROPPER_PREFIX, uri);
  }

  /** In `prefix + "/" + rest` with no '/' in the prefix, the parameter text is `rest`. */
  lemma SeparatorAfterPrefix(prefix: string, rest: string)
    requires '/' !in prefix
    ensures IndexOf(prefix + "/" + rest, '/') == |prefix|
    ensures ParameterText(prefix + "/" + rest) == rest
  {
    var s := prefix + "/" + rest;
    assert s[|prefix|] == '/';
    assert s[..|prefix|] == prefix;
    assert s[|prefix| + 1..] == rest;
  }
}
