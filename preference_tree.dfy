/** The preference tree of the camera settings screen: `PreferenceGroup`s
    holding `ListPreference` leaves and nested groups, and the depth-first
    search that `CameraSettings.removePreference` performs over it. */
module PreferenceTree {
  import opened Wrappers

  /** A `ListPreference`: its key, the labels shown to the user, the values
      stored for them (index-aligned with the labels) and the current value. */
  datatype ListPref = ListPref(key: string, entries: seq<string>, entryValues: seq<string>, value: string)

  /** A child of a `PreferenceGroup`: a list leaf or a nested group. Groups
      carry no key that the search could match. */
  datatype Node = Leaf(pref: ListPref) | Group(children: seq<Node>)

  /** The labels and the values have the same length. */
  predicate Aligned(p: ListPref) {
    |p.entries| == |p.entryValues|
  }

  /** A leaf worth showing: a real choice, and a current value that is one of the choices. */
  predicate Selectable(p: ListPref) {
    Aligned(p) && |p.entryValues| >= 2 && p.value in p.entryValues
  }

  // ---------------------------------------------------------------------------
  // Views of a tree

  /** The list leaves in depth-first order, the order in which the search visits them. */
  function Leaves(ns: seq<Node>): seq<ListPref>
    decreases ns
  {
    if ns == [] then []
    else match ns[0]
      case Leaf(p) => [p] + Leaves(ns[1..])
      case Group(cs) => Leaves(cs) + Leaves(ns[1..])
  }

  /** Number of group nodes anywhere in the tree. */
  function GroupCount(ns: seq<Node>): nat
    decreases ns
  {
    if ns == [] then 0
    else match ns[0]
      case Leaf(_) => GroupCount(ns[1..])
      case Group(cs) => 1 + GroupCount(cs) + GroupCount(ns[1..])
  }

  /** The leaves whose key is `key`, in order. */
  function Keyed(ps: seq<ListPref>, key: string): seq<ListPref> {
    if ps == [] then [] else (if ps[0].key == key then [ps[0]] else []) + Keyed(ps[1..], key)
  }

  /** The selection keeps only leaves of `ps` that carry the key. */
  lemma {:induction false} KeyedMembers(ps: seq<ListPref>, key: string)
    ensures |Keyed(ps, key)| <= |ps|
    ensures forall p :: p in Keyed(ps, key) ==> p.key == key && p in ps
  {
    if ps != [] {
      KeyedMembers(ps[1..], key);
    }
  }

  /** The first leaf with a key carries that key. */
  lemma WithKeyHead(ns: seq<Node>, key: string)
    requires WithKey(ns, key) != []
    ensures WithKey(ns, key)[0].key == key
  {
    KeyedMembers(Leaves(ns), key);
    assert WithKey(ns, key)[0] in WithKey(ns, key);
  }

  /** The leaves of a tree whose key is `key`, in depth-first order. */
  function WithKey(ns: seq<Node>, key: string): seq<ListPref> {
    Keyed(Leaves(ns), key)
  }

  /** All but the first element (nothing when there is none). */
  function Drop1<T>(s: seq<T>): seq<T> {
    if s == [] then [] else s[1..]
  }

  /** Index of the first leaf with key `key`, or -1. */
  function FirstIndex(ps: seq<ListPref>, key: string): (j: int)
    ensures -1 <= j < |ps|
    ensures j >= 0 ==> ps[j].key == key
  {
    if ps == [] then -1
    else if ps[0].key == key then 0
    else
      var j := FirstIndex(ps[1..], key);
      if j < 0 then -1 else j + 1
  }

  /** The index is the first match: no earlier leaf carries the key, and -1
      means that no leaf does. */
  lemma {:induction false} FirstIndexFirst(ps: seq<ListPref>, key: string)
    ensures var j := FirstIndex(ps, key);
      && (j >= 0 ==> forall i :: 0 <= i < j ==> ps[i].key != key)
      && (j == -1 ==> forall i :: 0 <= i < |ps| ==> ps[i].key != key)
  {
    if ps != [] && ps[0].key != key {
      FirstIndexFirst(ps[1..], key);
      assert forall i :: 1 <= i < |ps| ==> ps[i] == ps[1..][i - 1];
    }
  }

  /** The flat counterpart of removal: the first leaf with key `key` deleted. */
  function DeleteFirst(ps: seq<ListPref>, key: string): seq<ListPref> {
    if ps == [] then []
    else if ps[0].key == key then ps[1..]
    else [ps[0]] + DeleteFirst(ps[1..], key)
  }

  /** The flat counterpart of an in-place update: the first leaf with key `key` replaced by `p`. */
  function ReplaceFirst(ps: seq<ListPref>, key: string, p: ListPref): seq<ListPref> {
    if ps == [] then []
    else if ps[0].key == key then [p] + ps[1..]
    else [ps[0]] + ReplaceFirst(ps[1..], key, p)
  }

  // ---------------------------------------------------------------------------
  // The operations on the tree

  /** `PreferenceGroup.findPreference`: the first list leaf with key `key`,
      searching each child in order and a nested group before its later siblings. */
  function Find(ns: seq<Node>, key: string): (r: Option<ListPref>)
    ensures r.Some? ==> r.value.key == key
    decreases ns
  {
    if ns == [] then None
    else match ns[0]
      case Leaf(p) => if p.key == key then Some(p) else Find(ns[1..], key)
      case Group(cs) =>
        var f := Find(cs, key);
        if f.Some? then f else Find(ns[1..], key)
  }

  /** `removePreference`, as a recursive definition: remove the first list
      leaf with key `key` from its parent group; the flag tells whether
      anything was removed. */
  function Remove(ns: seq<Node>, key: string): (res: (seq<Node>, bool))
    ensures !res.1 ==> res.0 == ns
    decreases ns
  {
    if ns == [] then (ns, false)
    else match ns[0]
      case Leaf(p) =>
        if p.key == key then (ns[1..], true)
        else
          var (rest, removed) := Remove(ns[1..], key);
          ([ns[0]] + rest, removed)
      case Group(cs) =>
        var (cs', inner) := Remove(cs, key);
        if inner then ([Group(cs')] + ns[1..], true)
        else
          var (rest, removed) := Remove(ns[1..], key);
          ([ns[0]] + rest, removed)
  }

  /** Replace the first list leaf with key `key` by `p`, leaving the shape of the
      tree alone. This is what mutating the `ListPreference` object that
      `findPreference` returned does to the tree that holds it. */
  function Update(ns: seq<Node>, key: string, p: ListPref): (res: (seq<Node>, bool))
    ensures !res.1 ==> res.0 == ns
    decreases ns
  {
    if ns == [] then (ns, false)
    else match ns[0]
      case Leaf(q) =>
        if q.key == key then ([Leaf(p)] + ns[1..], true)
        else
          var (rest, updated) := Update(ns[1..], key, p);
          ([ns[0]] + rest, updated)
      case Group(cs) =>
        var (cs', inner) := Update(cs, key, p);
        if inner then ([Group(cs')] + ns[1..], true)
        else
          var (rest, updated) := Update(ns[1..], key, p);
          ([ns[0]] + rest, updated)
  }

  /** `CameraSettings.removePreference` (the loop over the children of a
      group, recursing into nested groups), proved equal to `Remove`. */
  method RemovePreference(group: seq<Node>, key: string) returns (r: seq<Node>, removed: bool)
    ensures (r, removed) == Remove(group, key)
    decreases group
  {
    var i, n := 0, |group|;
    while i < n
      invariant 0 <= i <= n
      invariant !Remove(group[..i], key).1
    {
      var child := group[i];
      TakeSplit(group, i);
      RemoveAppend(group[..i], [child], key);
      RemoveAppend(group[..i], group[i..], key);
      if child.Group? {
        var sub, subRemoved := RemovePreference(child.children, key);
        if subRemoved {
          r, removed := group[..i] + ([Group(sub)] + group[i + 1..]), true;
          return;
        }
      }
      if child.Leaf? && child.pref.key == key {
        r, removed := group[..i] + group[i + 1..], true;
        return;
      }
      i := i + 1;
    }
    TakeAll(group);
    r, removed := group, false;
  }

  // ---------------------------------------------------------------------------
  // Lemmas: the search visits the leaves in depth-first order and removes the
  // first one with the key, and nothing else.

  lemma {:induction false} RemoveAppend(a: seq<Node>, b: seq<Node>, key: string)
    ensures Remove(a + b, key) ==
      if Remove(a, key).1 then (Remove(a, key).0 + b, true)
      else (a + Remove(b, key).0, Remove(b, key).1)
  {
    if a == [] {
      EmptyAppend(a, b);
      EmptyAppend(a, Remove(b, key).0);
    } else {
      SplitAppend(a, b);
      RemoveAppend(a[1..], b, key);
      var (tail, tailRemoved) := Remove(a[1..], key);
      var skipHead := match a[0] case Leaf(p) => p.key != key case Group(cs) => !Remove(cs, key).1;
      if !skipHead {
        match a[0]
        case Leaf(p) =>
        case Group(cs) =>
          var cs' := Remove(cs, key).0;
          AppendAssoc([Group(cs')], a[1..], b);
      } else {
        assert Remove(a, key) == ([a[0]] + tail, tailRemoved);
        if tailRemoved {
          AppendAssoc([a[0]], tail, b);
        } else {
          assert tail == a[1..];
          AppendAssoc([a[0]], a[1..], Remove(b, key).0);
          HeadTail(a);
        }
      }
    }
  }

  lemma {:induction false} LeavesAppend(a: seq<Node>, b: seq<Node>)
    ensures Leaves(a + b) == Leaves(a) + Leaves(b)
  {
    if a == [] {
      EmptyAppend(a, b);
    } else {
      SplitAppend(a, b);
      LeavesAppend(a[1..], b);
    }
  }

  lemma {:induction false} KeyedAppend(a: seq<ListPref>, b: seq<ListPref>, key: string)
    ensures Keyed(a + b, key) == Keyed(a, key) + Keyed(b, key)
  {
    if a == [] {
      EmptyAppend(a, b);
    } else {
      var head: seq<ListPref> := if a[0].key == key then [a[0]] else [];
      assert Keyed(a + b, key) == head + Keyed(a[1..] + b, key) by {
        SplitAppend(a, b);
      }
      KeyedAppend(a[1..], b, key);
      AppendAssoc(head, Keyed(a[1..], key), Keyed(b, key));
    }
  }

  lemma {:induction false} DeleteFirstAppend(a: seq<ListPref>, b: seq<ListPref>, key: string)
    ensures DeleteFirst(a + b, key) ==
      if Keyed(a, key) != [] then DeleteFirst(a, key) + b else a + DeleteFirst(b, key)
  {
    if a == [] {
      EmptyAppend(a, b);
    } else if a[0].key == key {
      SplitAppend(a, b);
    } else {
      DeleteFirstAppend(a[1..], b, key);
      DeleteFirstAppendStep(a, b, key);
    }
  }

  /** The inductive step of `DeleteFirstAppend`: a head without the key stays in front. */
  lemma DeleteFirstAppendStep(a: seq<ListPref>, b: seq<ListPref>, key: string)
    requires a != [] && a[0].key != key
    requires DeleteFirst(a[1..] + b, key) ==
      if Keyed(a[1..], key) != [] then DeleteFirst(a[1..], key) + b else a[1..] + DeleteFirst(b, key)
    ensures DeleteFirst(a + b, key) ==
      if Keyed(a, key) != [] then DeleteFirst(a, key) + b else a + DeleteFirst(b, key)
  {
    var rest := DeleteFirst(a[1..] + b, key);
    assert DeleteFirst(a + b, key) == [a[0]] + rest by {
      SplitAppend(a, b);
    }
    assert Keyed(a, key) == Keyed(a[1..], key);
    if Keyed(a[1..], key) != [] {
      assert DeleteFirst(a, key) == [a[0]] + DeleteFirst(a[1..], key);
      AppendAssoc([a[0]], DeleteFirst(a[1..], key), b);
    } else {
      AppendAssoc([a[0]], a[1..], DeleteFirst(b, key));
      HeadTail(a);
    }
  }

  // Identities of sequences, stated over any element type so that the
  // solver proves them without looking inside the elements.

  lemma AppendAssoc<T>(s: seq<T>, t: seq<T>, u: seq<T>)
    ensures s + (t + u) == (s + t) + u
  {
  }

  lemma SplitAppend<T>(a: seq<T>, b: seq<T>)
    requires a != []
    ensures (a + b)[0] == a[0] && (a + b)[1..] == a[1..] + b
  {
  }

  lemma TakeSplit<T>(s: seq<T>, i: int)
    requires 0 <= i < |s|
    ensures s[..i + 1] == s[..i] + [s[i]]
    ensures s[..i] + s[i..] == s
    ensures s[i..] == [s[i]] + s[i + 1..]
  {
  }

  lemma TakeAll<T>(s: seq<T>)
    ensures s[..|s|] == s
  {
  }

  lemma HeadTail<T>(a: seq<T>)
    requires a != []
    ensures [a[0]] + a[1..] == a
  {
  }

  lemma EmptyAppend<T>(a: seq<T>, b: seq<T>)
    requires a == []
    ensures a + b == b && b + a == b
  {
  }

  lemma ShiftSlices<T>(s: seq<T>, j: int)
    requires 0 <= j < |s| - 1
    ensures s[..j + 1] == [s[0]] + s[1..][..j]
    ensures s[j + 2..] == s[1..][j + 1..]
  {
  }

  lemma {:induction false} ReplaceFirstAppend(a: seq<ListPref>, b: seq<ListPref>, key: string, p: ListPref)
    ensures ReplaceFirst(a + b, key, p) ==
      if Keyed(a, key) != [] then ReplaceFirst(a, key, p) + b else a + ReplaceFirst(b, key, p)
  {
    if a == [] {
      EmptyAppend(a, b);
    } else if a[0].key == key {
      SplitAppend(a, b);
      AppendAssoc([p], a[1..], b);
      HeadTail(a);
    } else {
      ReplaceFirstAppend(a[1..], b, key, p);
      ReplaceFirstAppendStep(a, b, key, p);
    }
  }

  /** The inductive step of `ReplaceFirstAppend`: a head without the key stays in front. */
  lemma ReplaceFirstAppendStep(a: seq<ListPref>, b: seq<ListPref>, key: string, p: ListPref)
    requires a != [] && a[0].key != key
    requires ReplaceFirst(a[1..] + b, key, p) ==
      if Keyed(a[1..], key) != [] then ReplaceFirst(a[1..], key, p) + b else a[1..] + ReplaceFirst(b, key, p)
    ensures ReplaceFirst(a + b, key, p) ==
      if Keyed(a, key) != [] then ReplaceFirst(a, key, p) + b else a + ReplaceFirst(b, key, p)
  {
    var rest := ReplaceFirst(a[1..] + b, key, p);
    assert ReplaceFirst(a + b, key, p) == [a[0]] + rest by {
      SplitAppend(a, b);
    }
    assert Keyed(a, key) == Keyed(a[1..], key);
    if Keyed(a[1..], key) != [] {
      assert ReplaceFirst(a, key, p) == [a[0]] + ReplaceFirst(a[1..], key, p);
      AppendAssoc([a[0]], ReplaceFirst(a[1..], key, p), b);
    } else {
      AppendAssoc([a[0]], a[1..], ReplaceFirst(b, key, p));
      HeadTail(a);
    }
  }

  /** Removal deletes exactly the first leaf with the key in depth-first
      order, and happens exactly when the tree has a leaf with that key. */
  lemma {:induction false} RemoveLeaves(ns: seq<Node>, key: string)
    ensures Remove(ns, key).1 <==> WithKey(ns, key) != []
    ensures Leaves(Remove(ns, key).0) == DeleteFirst(Leaves(ns), key)
    decreases ns
  {
    if ns != [] {
      RemoveLeaves(ns[1..], key);
      match ns[0]
      case Leaf(p) =>
        assert Leaves(ns) == [p] + Leaves(ns[1..]);
        LeavesAppend([ns[0]], Remove(ns[1..], key).0);
        KeyedAppend([p], Leaves(ns[1..]), key);
      case Group(cs) =>
        RemoveLeaves(cs, key);
        KeyedAppend(Leaves(cs), Leaves(ns[1..]), key);
        DeleteFirstAppend(Leaves(cs), Leaves(ns[1..]), key);
        var (cs', inner) := Remove(cs, key);
        if inner {
          LeavesAppend([Group(cs')], ns[1..]);
        } else {
          LeavesAppend([ns[0]], Remove(ns[1..], key).0);
        }
    }
  }

  /** Updating replaces exactly the first leaf with the key in depth-first order. */
  lemma {:induction false} UpdateLeaves(ns: seq<Node>, key: string, p: ListPref)
    ensures Update(ns, key, p).1 <==> WithKey(ns, key) != []
    ensures Leaves(Update(ns, key, p).0) == ReplaceFirst(Leaves(ns), key, p)
    decreases ns
  {
    if ns != [] {
      UpdateLeaves(ns[1..], key, p);
      match ns[0]
      case Leaf(q) =>
        assert Leaves(ns) == [q] + Leaves(ns[1..]);
        KeyedAppend([q], Leaves(ns[1..]), key);
        if q.key == key {
          LeavesAppend([Leaf(p)], ns[1..]);
        } else {
          LeavesAppend([ns[0]], Update(ns[1..], key, p).0);
        }
      case Group(cs) =>
        UpdateLeaves(cs, key, p);
        KeyedAppend(Leaves(cs), Leaves(ns[1..]), key);
        ReplaceFirstAppend(Leaves(cs), Leaves(ns[1..]), key, p);
        var (cs', inner) := Update(cs, key, p);
        if inner {
          LeavesAppend([Group(cs')], ns[1..]);
        } else {
          LeavesAppend([ns[0]], Update(ns[1..], key, p).0);
        }
    }
  }

  /** The search finds the first leaf with the key in depth-first order. */
  lemma {:induction false} FindFirst(ns: seq<Node>, key: string)
    ensures Find(ns, key) == if WithKey(ns, key) == [] then None else Some(WithKey(ns, key)[0])
    decreases ns
  {
    if ns != [] {
      FindFirst(ns[1..], key);
      match ns[0]
      case Leaf(p) =>
        KeyedAppend([p], Leaves(ns[1..]), key);
      case Group(cs) =>
        FindFirst(cs, key);
        KeyedAppend(Leaves(cs), Leaves(ns[1..]), key);
    }
  }

  lemma {:induction false} KeyedDeleteFirst(ps: seq<ListPref>, key: string, other: string)
    ensures Keyed(DeleteFirst(ps, key), other) ==
      if other == key then Drop1(Keyed(ps, key)) else Keyed(ps, other)
  {
    if ps != [] {
      KeyedDeleteFirst(ps[1..], key, other);
      if ps[0].key != key {
        KeyedAppend([ps[0]], DeleteFirst(ps[1..], key), other);
      }
    }
  }

  lemma {:induction false} KeyedReplaceFirst(ps: seq<ListPref>, key: string, p: ListPref, other: string)
    requires p.key == key
    ensures Keyed(ReplaceFirst(ps, key, p), other) ==
      if other == key && Keyed(ps, key) != [] then [p] + Keyed(ps, key)[1..] else Keyed(ps, other)
  {
    if ps != [] {
      var tail := ps[1..];
      KeyedReplaceFirst(tail, key, p, other);
      assert Keyed(ps, other) == (if ps[0].key == other then [ps[0]] else []) + Keyed(tail, other);
      if ps[0].key == key {
        KeyedAppend([p], tail, other);
        assert Keyed([p], other) == if other == key then [p] else [];
      } else {
        KeyedAppend([ps[0]], ReplaceFirst(tail, key, p), other);
        assert Keyed([ps[0]], other) == if ps[0].key == other then [ps[0]] else [];
      }
    }
  }

  /** Removing key `key` affects only the leaves with that key, and of those
      only the first. */
  lemma RemoveWithKey(ns: seq<Node>, key: string, other: string)
    ensures WithKey(Remove(ns, key).0, other) ==
      if other == key then Drop1(WithKey(ns, key)) else WithKey(ns, other)
  {
    RemoveLeaves(ns, key);
    KeyedDeleteFirst(Leaves(ns), key, other);
  }

  /** Updating the leaf with key `key` affects only the first leaf with that key. */
  lemma UpdateWithKey(ns: seq<Node>, key: string, p: ListPref, other: string)
    requires p.key == key
    ensures WithKey(Update(ns, key, p).0, other) ==
      if other == key && WithKey(ns, key) != [] then [p] + WithKey(ns, key)[1..] else WithKey(ns, other)
  {
    UpdateLeaves(ns, key, p);
    KeyedReplaceFirst(Leaves(ns), key, p, other);
  }

  /** The flat deletion removes exactly the element at the first matching index. */
  lemma {:induction false} DeleteFirstAt(ps: seq<ListPref>, key: string)
    ensures var j := FirstIndex(ps, key);
      DeleteFirst(ps, key) == if j < 0 then ps else ps[..j] + ps[j + 1..]
  {
    if ps != [] && ps[0].key != key {
      DeleteFirstAt(ps[1..], key);
      DeleteFirstAtStep(ps, key);
    }
  }

  /** The inductive step of `DeleteFirstAt`: a head without the key stays in front. */
  lemma DeleteFirstAtStep(ps: seq<ListPref>, key: string)
    requires ps != [] && ps[0].key != key
    requires var j := FirstIndex(ps[1..], key);
      DeleteFirst(ps[1..], key) == if j < 0 then ps[1..] else ps[1..][..j] + ps[1..][j + 1..]
    ensures var j := FirstIndex(ps, key);
      DeleteFirst(ps, key) == if j < 0 then ps else ps[..j] + ps[j + 1..]
  {
    var j := FirstIndex(ps[1..], key);
    if j >= 0 {
      ShiftSlices(ps, j);
    }
  }

  /** `removePreference`: true exactly when a list leaf with the key exists;
      then the first such leaf in depth-first order, and nothing else, is
      gone; otherwise the tree is unchanged. Groups are never removed. */
  lemma RemovePreferenceSpec(ns: seq<Node>, key: string)
    ensures var (r, removed) := Remove(ns, key);
      var j := FirstIndex(Leaves(ns), key);
      && (removed <==> j >= 0)
      && (removed ==> Leaves(r) == Leaves(ns)[..j] + Leaves(ns)[j + 1..])
      && (!removed ==> r == ns)
      && GroupCount(r) == GroupCount(ns)
  {
    RemoveLeaves(ns, key);
    DeleteFirstAt(Leaves(ns), key);
    KeyedEmpty(Leaves(ns), key);
    RemoveKeepsGroups(ns, key);
  }

  lemma {:induction false} KeyedEmpty(ps: seq<ListPref>, key: string)
    ensures Keyed(ps, key) == [] <==> FirstIndex(ps, key) == -1
  {
    if ps != [] {
      KeyedEmpty(ps[1..], key);
    }
  }

  lemma {:induction false} GroupCountAppend(a: seq<Node>, b: seq<Node>)
    ensures GroupCount(a + b) == GroupCount(a) + GroupCount(b)
  {
    if a == [] {
      EmptyAppend(a, b);
    } else {
      SplitAppend(a, b);
      GroupCountAppend(a[1..], b);
    }
  }

  lemma {:induction false} RemoveKeepsGroups(ns: seq<Node>, key: string)
    ensures GroupCount(Remove(ns, key).0) == GroupCount(ns)
    decreases ns
  {
    if ns != [] {
      RemoveKeepsGroups(ns[1..], key);
      match ns[0]
      case Leaf(p) =>
        if p.key != key {
          GroupCountAppend([ns[0]], Remove(ns[1..], key).0);
        }
      case Group(cs) =>
        RemoveKeepsGroups(cs, key);
        var (cs', inner) := Remove(cs, key);
        if inner {
          GroupCountAppend([Group(cs')], ns[1..]);
        } else {
          GroupCountAppend([ns[0]], Remove(ns[1..], key).0);
        }
    }
  }

  /** Removing the same key twice removes at most two leaves, one per call,
      and never fails. */
  lemma RemoveTwice(ns: seq<Node>, key: string)
    ensures var once := Remove(ns, key).0;
      var twice := Remove(once, key).0;
      |Leaves(twice)| >= |Leaves(ns)| - 2
      && WithKey(twice, key) == Drop1(Drop1(WithKey(ns, key)))
  {
    var once := Remove(ns, key).0;
    var twice := Remove(once, key).0;
    RemoveLeaves(ns, key);
    RemoveLeaves(once, key);
    DeleteFirstShrinks(Leaves(ns), key);
    DeleteFirstShrinks(Leaves(once), key);
    RemoveWithKey(ns, key, key);
    RemoveWithKey(once, key, key);
  }

  lemma {:induction false} DeleteFirstShrinks(ps: seq<ListPref>, key: string)
    ensures |DeleteFirst(ps, key)| >= |ps| - 1
  {
    if ps != [] && ps[0].key != key {
      DeleteFirstShrinks(ps[1..], key);
    }
  }

  /** Updating the leaf an earlier update put in place replaces that update:
      the first leaf with the key is the same leaf both times. */
  lemma {:induction false} UpdateTwice(ns: seq<Node>, key: string, p: ListPref, q: ListPref)
    requires p.key == key
    ensures Update(ns, key, q).1 == Update(ns, key, p).1
    ensures Update(Update(ns, key, p).0, key, q) == (Update(ns, key, q).0, Update(ns, key, p).1)
    decreases ns
  {
    if ns != [] {
      match ns[0]
      case Leaf(l) =>
        if l.key != key {
          var rest := Update(ns[1..], key, p).0;
          assert ([ns[0]] + rest)[1..] == rest;
          UpdateTwice(ns[1..], key, p, q);
        }
      case Group(cs) =>
        UpdateTwice(cs, key, p, q);
        var (cs', inner) := Update(cs, key, p);
        if inner {
          assert ([Group(cs')] + ns[1..])[1..] == ns[1..];
        } else {
          var rest := Update(ns[1..], key, p).0;
          assert ([ns[0]] + rest)[1..] == rest;
          UpdateTwice(ns[1..], key, p, q);
        }
    }
  }

  /** Removals of two different keys commute: either order leaves the same
      tree, and whether the second removal finds its leaf does not depend on
      the first. */
  lemma {:induction false} RemoveCommutes(ns: seq<Node>, a: string, b: string)
    requires a != b
    ensures Remove(Remove(ns, a).0, b).0 == Remove(Remove(ns, b).0, a).0
    ensures Remove(Remove(ns, a).0, b).1 == Remove(ns, b).1
    decreases ns
  {
    if ns != [] {
      var rest := ns[1..];
      RemoveCommutes(rest, a, b);
      RemoveCommutes(rest, b, a);
      assert ([ns[0]] + Remove(rest, a).0)[1..] == Remove(rest, a).0;
      assert ([ns[0]] + Remove(rest, b).0)[1..] == Remove(rest, b).0;
      match ns[0]
      case Leaf(p) =>
      case Group(cs) =>
        RemoveCommutes(cs, a, b);
        RemoveCommutes(cs, b, a);
        var (ca, ia) := Remove(cs, a);
        var (cb, ib) := Remove(cs, b);
        assert ([Group(ca)] + rest)[1..] == rest;
        assert ([Group(cb)] + rest)[1..] == rest;
    }
  }

  /** When at most one leaf carries the key, a second removal finds nothing
      and leaves the tree as the first one left it. */
  lemma RemoveUniqueIdempotent(ns: seq<Node>, key: string)
    requires |WithKey(ns, key)| <= 1
    ensures Remove(Remove(ns, key).0, key) == (Remove(ns, key).0, false)
  {
    var once := Remove(ns, key).0;
    RemoveWithKey(ns, key, key);
    RemoveLeaves(once, key);
  }

  // ---------------------------------------------------------------------------
  // The shape a tree keeps under removal and in-place updates

  /** A tree with each leaf reduced to its key. */
  datatype Shape = KeyLeaf(key: string) | GroupOf(children: seq<Shape>)

  function ShapeOf(ns: seq<Node>): seq<Shape>
    decreases ns
  {
    if ns == [] then []
    else
      var head := match ns[0] case Leaf(p) => KeyLeaf(p.key) case Group(cs) => GroupOf(ShapeOf(cs));
      [head] + ShapeOf(ns[1..])
  }

  /** Shape `b` is shape `a` with some leaves deleted: every group stays where
      it was, and no node moves past another. */
  predicate ShapeWithin(a: seq<Shape>, b: seq<Shape>)
    decreases a
  {
    if a == [] then b == []
    else match a[0]
      case KeyLeaf(_) =>
        || (b != [] && b[0] == a[0] && ShapeWithin(a[1..], b[1..]))
        || ShapeWithin(a[1..], b)
      case GroupOf(cs) =>
        b != [] && b[0].GroupOf? && ShapeWithin(cs, b[0].children) && ShapeWithin(a[1..], b[1..])
  }

  /** Tree `b` is tree `a` with some list leaves deleted and others replaced
      by leaves with the same key. */
  predicate Pruned(a: seq<Node>, b: seq<Node>) {
    ShapeWithin(ShapeOf(a), ShapeOf(b))
  }

  lemma ShapeOfCons(n: Node, ns: seq<Node>)
    ensures ShapeOf([n] + ns) == ShapeOf([n])[..1] + ShapeOf(ns)
    ensures |ShapeOf([n])| == 1
  {
    SplitAppend([n], ns);
  }

  lemma {:induction false} ShapeWithinRefl(a: seq<Shape>)
    ensures ShapeWithin(a, a)
    decreases a
  {
    if a != [] {
      ShapeWithinRefl(a[1..]);
      if a[0].GroupOf? {
        ShapeWithinRefl(a[0].children);
      }
    }
  }

  lemma PrunedRefl(a: seq<Node>)
    ensures Pruned(a, a)
  {
    ShapeWithinRefl(ShapeOf(a));
  }

  lemma {:induction false} ShapeWithinTrans(a: seq<Shape>, b: seq<Shape>, c: seq<Shape>)
    requires ShapeWithin(a, b) && ShapeWithin(b, c)
    ensures ShapeWithin(a, c)
    decreases a
  {
    if a != [] {
      match a[0]
      case KeyLeaf(_) =>
        if ShapeWithin(a[1..], b) {
          ShapeWithinTrans(a[1..], b, c);
        } else if c != [] && c[0] == b[0] && ShapeWithin(b[1..], c[1..]) {
          ShapeWithinTrans(a[1..], b[1..], c[1..]);
        } else {
          ShapeWithinTrans(a[1..], b[1..], c);
        }
      case GroupOf(cs) =>
        ShapeWithinTrans(cs, b[0].children, c[0].children);
        ShapeWithinTrans(a[1..], b[1..], c[1..]);
    }
  }

  /** Pruning a pruned tree is pruning the original. */
  lemma PrunedTrans(a: seq<Node>, b: seq<Node>, c: seq<Node>)
    requires Pruned(a, b) && Pruned(b, c)
    ensures Pruned(a, c)
  {
    ShapeWithinTrans(ShapeOf(a), ShapeOf(b), ShapeOf(c));
  }

  /** Number of groups in a shape. */
  function ShapeGroups(a: seq<Shape>): nat
    decreases a
  {
    if a == [] then 0
    else match a[0]
      case KeyLeaf(_) => ShapeGroups(a[1..])
      case GroupOf(cs) => 1 + ShapeGroups(cs) + ShapeGroups(a[1..])
  }

  lemma {:induction false} ShapeGroupsOf(ns: seq<Node>)
    ensures ShapeGroups(ShapeOf(ns)) == GroupCount(ns)
    decreases ns
  {
    if ns != [] {
      ShapeGroupsOf(ns[1..]);
      if ns[0].Group? {
        ShapeGroupsOf(ns[0].children);
      }
    }
  }

  lemma {:induction false} ShapeWithinGroups(a: seq<Shape>, b: seq<Shape>)
    requires ShapeWithin(a, b)
    ensures ShapeGroups(b) == ShapeGroups(a)
    decreases a
  {
    if a != [] {
      match a[0]
      case KeyLeaf(_) =>
        if ShapeWithin(a[1..], b) {
          ShapeWithinGroups(a[1..], b);
        } else {
          ShapeWithinGroups(a[1..], b[1..]);
        }
      case GroupOf(cs) =>
        ShapeWithinGroups(cs, b[0].children);
        ShapeWithinGroups(a[1..], b[1..]);
    }
  }

  /** Pruning keeps every group. */
  lemma PrunedGroupCount(a: seq<Node>, b: seq<Node>)
    requires Pruned(a, b)
    ensures GroupCount(b) == GroupCount(a)
  {
    ShapeWithinGroups(ShapeOf(a), ShapeOf(b));
    ShapeGroupsOf(a);
    ShapeGroupsOf(b);
  }

  /** `removePreference` prunes the tree. */
  lemma {:induction false} RemovePruned(ns: seq<Node>, key: string)
    ensures Pruned(ns, Remove(ns, key).0)
    decreases ns
  {
    if ns != [] {
      match ns[0]
      case Leaf(p) =>
        if p.key == key {
          PrunedRefl(ns[1..]);
        } else {
          RemovePruned(ns[1..], key);
          ShapeOfCons(ns[0], Remove(ns[1..], key).0);
        }
      case Group(cs) =>
        var (cs', inner) := Remove(cs, key);
        if inner {
          RemovePruned(cs, key);
          PrunedRefl(ns[1..]);
          ShapeOfCons(Group(cs'), ns[1..]);
        } else {
          PrunedRefl(cs);
          RemovePruned(ns[1..], key);
          ShapeOfCons(ns[0], Remove(ns[1..], key).0);
        }
    }
  }

  /** Changing the found leaf in place, keeping its key, prunes nothing away. */
  lemma {:induction false} UpdatePruned(ns: seq<Node>, key: string, p: ListPref)
    requires p.key == key
    ensures Pruned(ns, Update(ns, key, p).0)
    decreases ns
  {
    if ns != [] {
      match ns[0]
      case Leaf(q) =>
        if q.key == key {
          PrunedRefl(ns[1..]);
          ShapeOfCons(Leaf(p), ns[1..]);
        } else {
          UpdatePruned(ns[1..], key, p);
          ShapeOfCons(ns[0], Update(ns[1..], key, p).0);
        }
      case Group(cs) =>
        var (cs', inner) := Update(cs, key, p);
        if inner {
          UpdatePruned(cs, key, p);
          PrunedRefl(ns[1..]);
          ShapeOfCons(Group(cs'), ns[1..]);
        } else {
          PrunedRefl(cs);
          UpdatePruned(ns[1..], key, p);
          ShapeOfCons(ns[0], Update(ns[1..], key, p).0);
        }
    }
  }
}
