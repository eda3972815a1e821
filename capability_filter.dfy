/** The capability filter of `CameraSettings`: `filterUnsupportedOptions`,
    `resetIfInvalid` and the effect pruning of `initVideoEffect`. */
module CapabilityFilter {
  import opened Wrappers
  import opened Text
  import opened PreferenceTree

  /** The values of `vs` that are among `s`, in their order in `vs`, each as
      often as it occurs there. */
  function Kept(vs: seq<string>, s: seq<string>): seq<string> {
    if vs == [] then [] else (if vs[0] in s then [vs[0]] else []) + Kept(vs[1..], s)
  }

  /** The (label, value) pairs whose value is among `s`, in order. */
  function KeptPairs(ps: seq<(string, string)>, s: seq<string>): seq<(string, string)> {
    if ps == [] then [] else (if ps[0].1 in s then [ps[0]] else []) + KeptPairs(ps[1..], s)
  }

  /** Labels and values side by side. */
  function Zip(entries: seq<string>, values: seq<string>): (ps: seq<(string, string)>)
    requires |entries| == |values|
    ensures |ps| == |values|
    ensures forall i :: 0 <= i < |ps| ==> ps[i] == (entries[i], values[i])
  {
    if values == [] then [] else [(entries[0], values[0])] + Zip(entries[1..], values[1..])
  }

  lemma ZipCons(e: string, v: string, es: seq<string>, vs: seq<string>)
    requires |es| == |vs|
    ensures Zip([e] + es, [v] + vs) == [(e, v)] + Zip(es, vs)
  {
    assert ([e] + es)[1..] == es && ([v] + vs)[1..] == vs;
  }

  /** `ListPreference.filterUnsupported` (that class is not part of this model):
      keep, in their original order, the (label, value) pairs whose value is
      among `supported`. */
  function RestrictPairs(entries: seq<string>, values: seq<string>, supported: seq<string>): (r: (seq<string>, seq<string>))
    requires |entries| == |values|
    ensures |r.0| == |r.1| <= |values|
    ensures r.1 == Kept(values, supported)
    ensures Zip(r.0, r.1) == KeptPairs(Zip(entries, values), supported)
    ensures forall v :: v in r.1 <==> v in values && v in supported
  {
    if values == [] then ([], [])
    else
      var (es, vs) := RestrictPairs(entries[1..], values[1..], supported);
      ZipCons(entries[0], values[0], es, vs);
      if values[0] in supported then ([entries[0]] + es, [values[0]] + vs) else (es, vs)
  }

  /** The leaf after `filterUnsupported(supported)`. */
  function FilterUnsupported(p: ListPref, supported: seq<string>): (q: ListPref)
    requires Aligned(p)
    ensures q.key == p.key && q.value == p.value && Aligned(q)
    ensures q.entryValues == Kept(p.entryValues, supported)
    ensures Zip(q.entries, q.entryValues) == KeptPairs(Zip(p.entries, p.entryValues), supported)
    ensures forall v :: v in q.entryValues <==> v in p.entryValues && v in supported
  {
    var (es, vs) := RestrictPairs(p.entries, p.entryValues, supported);
    p.(entries := es, entryValues := vs)
  }

  /** `resetIfInvalid`: a value that is not one of the entry values is replaced
      by the first entry value; a valid value is left alone. (`setValueIndex(0)`
      throws on a leaf without entries, hence the precondition.) */
  function ResetIfInvalid(p: ListPref): (q: ListPref)
    requires p.value in p.entryValues || |p.entryValues| >= 1
    ensures q.value in q.entryValues
    ensures q.key == p.key && q.entries == p.entries && q.entryValues == p.entryValues
    ensures p.value in p.entryValues ==> q == p
    ensures p.value !in p.entryValues ==> q.value == p.entryValues[0]
  {
    if p.value in p.entryValues then p else p.(value := p.entryValues[0])
  }

  /** Validating twice is validating once. */
  lemma ResetIfInvalidIdempotent(p: ListPref)
    requires p.value in p.entryValues || |p.entryValues| >= 1
    ensures ResetIfInvalid(ResetIfInvalid(p)) == ResetIfInvalid(p)
  {
  }

  /** Whether `filterUnsupportedOptions` keeps the leaf: the capability is
      reported with more than one value, and more than one entry survives. */
  predicate FilterKeeps(p: ListPref, supported: Option<seq<string>>)
    requires Aligned(p)
  {
    supported.Some? && |supported.value| > 1 && |FilterUnsupported(p, supported.value).entries| > 1
  }

  /** `filterUnsupportedOptions(group, pref, supported)` where `pref` is the
      leaf that `findPreference(key)` returns; `None` stands for a null list.
      `kept` tells whether the leaf is still in the tree. */
  method FilterUnsupportedOptions(group: seq<Node>, key: string, supported: Option<seq<string>>)
    returns (r: seq<Node>, kept: bool)
    requires WithKey(group, key) != [] && Aligned(WithKey(group, key)[0])
    ensures var p := WithKey(group, key)[0];
      && (kept <==> FilterKeeps(p, supported))
      && (!kept ==> r == Remove(group, key).0 && WithKey(r, key) == WithKey(group, key)[1..])
      && (kept ==> r == Update(group, key, ResetIfInvalid(FilterUnsupported(p, supported.value))).0)
      && (kept ==> WithKey(r, key) == [ResetIfInvalid(FilterUnsupported(p, supported.value))] + WithKey(group, key)[1..])
    ensures kept ==> Selectable(WithKey(r, key)[0])
    ensures forall k :: k != key ==> WithKey(r, k) == WithKey(group, k)
  {
    var pref := WithKey(group, key)[0];
    forall k | k != key
      ensures WithKey(Remove(group, key).0, k) == WithKey(group, k)
    {
      RemoveWithKey(group, key, k);
    }
    RemoveWithKey(group, key, key);
    if supported.None? || |supported.value| <= 1 {
      r, kept := RemovePreference(group, key);
      kept := false;
      return;
    }
    pref := FilterUnsupported(pref, supported.value);
    if |pref.entries| <= 1 {
      r, kept := RemovePreference(group, key);
      kept := false;
      return;
    }
    pref := ResetIfInvalid(pref);
    WithKeyHead(group, key);
    r := Update(group, key, pref).0;
    kept := true;
    forall k ensures WithKey(r, k) == if k == key then [pref] + WithKey(group, key)[1..] else WithKey(group, k) {
      UpdateWithKey(group, key, pref, k);
    }
  }

  // ---------------------------------------------------------------------------
  // initVideoEffect

  /** Whether an effect value survives: a "goofy_face..." value needs the goofy
      face effect, a "backdropper..." value needs the backdropper. */
  predicate KeepEffect(v: string, goofyFaceSupported: bool, backdropperSupported: bool) {
    !(!goofyFaceSupported && StartsWith(v, "goofy_face")) && !(!backdropperSupported && StartsWith(v, "backdropper"))
  }

  /** The effect values that survive, in their original order. */
  function SupportedEffects(values: seq<string>, goofyFaceSupported: bool, backdropperSupported: bool): seq<string> {
    if values == [] then []
    else
      var head := if KeepEffect(values[0], goofyFaceSupported, backdropperSupported) then [values[0]] else [];
      head + SupportedEffects(values[1..], goofyFaceSupported, backdropperSupported)
  }

  lemma {:induction false} SupportedEffectsSnoc(values: seq<string>, v: string, goofy: bool, backdropper: bool)
    ensures SupportedEffects(values + [v], goofy, backdropper) ==
      SupportedEffects(values, goofy, backdropper) + (if KeepEffect(v, goofy, backdropper) then [v] else [])
  {
    if values == [] {
      assert values + [v] == [v];
    } else {
      assert (values + [v])[0] == values[0] && (values + [v])[1..] == values[1..] + [v];
      SupportedEffectsSnoc(values[1..], v, goofy, backdropper);
    }
  }

  /** A value is supported exactly when it is one of the leaf's values and its
      effect family is supported. */
  lemma {:induction false} SupportedEffectsMembers(values: seq<string>, goofy: bool, backdropper: bool, v: string)
    ensures v in SupportedEffects(values, goofy, backdropper) <==> v in values && KeepEffect(v, goofy, backdropper)
  {
    if values != [] {
      SupportedEffectsMembers(values[1..], goofy, backdropper, v);
      assert values == [values[0]] + values[1..];
    }
  }

  /** Filtering by a list whose members are exactly the surviving values
      leaves exactly those values, in order. */
  lemma {:induction false} RestrictToSurvivors(values: seq<string>, s: seq<string>, goofy: bool, backdropper: bool)
    requires forall v :: v in values ==> (v in s <==> KeepEffect(v, goofy, backdropper))
    ensures Kept(values, s) == SupportedEffects(values, goofy, backdropper)
  {
    if values != [] {
      assert values[0] in values;
      assert forall v :: v in values[1..] ==> v in values;
      RestrictToSurvivors(values[1..], s, goofy, backdropper);
    }
  }

  /** The survivors of the effect loop, used as the supported list, keep
      themselves: the filter leaves exactly the survivors. */
  lemma SurvivorsKept(values: seq<string>, goofy: bool, backdropper: bool)
    ensures Kept(values, SupportedEffects(values, goofy, backdropper)) == SupportedEffects(values, goofy, backdropper)
  {
    var s := SupportedEffects(values, goofy, backdropper);
    forall v | v in values ensures v in s <==> KeepEffect(v, goofy, backdropper) {
      SupportedEffectsMembers(values, goofy, backdropper, v);
    }
    RestrictToSurvivors(values, s, goofy, backdropper);
  }

  /** The loop of `initVideoEffect`: the effect values whose family the device
      can run, in their original order. */
  method SupportedEffectValues(values: seq<string>, goofyFace: bool, backdropper: bool) returns (supported: seq<string>)
    ensures supported == SupportedEffects(values, goofyFace, backdropper)
  {
    supported := [];
    for i := 0 to |values|
      invariant supported == SupportedEffects(values[..i], goofyFace, backdropper)
    {
      var effectSelection := values[i];
      TakeSplit(values, i);
      SupportedEffectsSnoc(values[..i], effectSelection, goofyFace, backdropper);
      if !goofyFace && StartsWith(effectSelection, "goofy_face") {
        continue;
      }
      if !backdropper && StartsWith(effectSelection, "backdropper") {
        continue;
      }
      supported := supported + [effectSelection];
    }
    TakeAll(values);
  }

  /** `initVideoEffect`: drop the effect values whose family the device cannot
      run, then apply the generic filter with the survivors as the supported
      list. The backdropper also needs auto-exposure and auto-white-balance locks. */
  method InitVideoEffect(group: seq<Node>, key: string, goofyFaceSupported: bool,
                         backdropperEffectSupported: bool, aeLockSupported: bool, awbLockSupported: bool)
    returns (r: seq<Node>, kept: bool)
    requires WithKey(group, key) != [] && Aligned(WithKey(group, key)[0])
    ensures var p := WithKey(group, key)[0];
      var backdropper := backdropperEffectSupported && aeLockSupported && awbLockSupported;
      var survivors := SupportedEffects(p.entryValues, goofyFaceSupported, backdropper);
      && (kept <==> |survivors| > 1)
      && (!kept ==> r == Remove(group, key).0 && WithKey(r, key) == WithKey(group, key)[1..])
      && (kept ==> |WithKey(r, key)| == |WithKey(group, key)|)
      && (kept <==> FilterKeeps(p, Some(survivors)))
      && (kept ==> r == Update(group, key, ResetIfInvalid(FilterUnsupported(p, survivors))).0)
      && (kept ==> WithKey(r, key) == [ResetIfInvalid(FilterUnsupported(p, survivors))] + WithKey(group, key)[1..])
      && (kept ==> WithKey(r, key)[0].entryValues == survivors && Selectable(WithKey(r, key)[0]))
    ensures forall k :: k != key ==> WithKey(r, k) == WithKey(group, k)
  {
    var p := WithKey(group, key)[0];
    var goofyFace := goofyFaceSupported;
    var backdropper := backdropperEffectSupported && aeLockSupported && awbLockSupported;
    var supported := SupportedEffectValues(p.entryValues, goofyFace, backdropper);
    SurvivorsKept(p.entryValues, goofyFace, backdropper);
    r, kept := FilterUnsupportedOptions(group, key, Some(supported));
  }
}
