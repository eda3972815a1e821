/** The key/value stores the settings live in (`SharedPreferences`), reduced to
    what the upgrade routines and readers use: typed values, typed getters
    that throw on a value of another type, and an editor whose changes are
    applied together. */
module Store {
  import opened Wrappers

  /** A stored value, tagged with the Java type it was written with. */
  datatype Val = Str(s: string) | IntV(i: int) | BoolV(b: bool)

  type Prefs = map<string, Val>

  /** The pending changes of one `SharedPreferences.Editor`: `Some(v)` for a
      put, `None` for a remove; a later change to a key replaces an earlier one. */
  type Edits = map<string, Option<Val>>

  /** `Editor.apply()`: every pending change takes effect at once; keys the
      editor did not touch keep their values. */
  function Commit(prefs: Prefs, edits: Edits): Prefs {
    map k | k in prefs.Keys + edits.Keys && (k !in edits || edits[k].Some?) ::
      if k in edits then edits[k].value else prefs[k]
  }

  /** After the commit, a key the editor touched holds what the editor put
      there, or is gone if the editor removed it; every other key is as before. */
  lemma CommitSpec(prefs: Prefs, edits: Edits)
    ensures var r := Commit(prefs, edits);
      && (forall k :: k in edits ==> (k in r <==> edits[k].Some?))
      && (forall k :: k !in edits ==> (k in r <==> k in prefs))
      && (forall k :: k in r ==> r[k] == if k in edits then edits[k].value else prefs[k])
  {
  }

  /** `getString` does not throw: the key is absent or holds a string. */
  predicate StringTyped(prefs: Prefs, key: string) {
    key !in prefs || prefs[key].Str?
  }

  /** `getBoolean` does not throw: the key is absent or holds a boolean. */
  predicate BoolTyped(prefs: Prefs, key: string) {
    key !in prefs || prefs[key].BoolV?
  }

  /** `getString(key, default)`. */
  function GetString(prefs: Prefs, key: string, default: string): string
    requires StringTyped(prefs, key)
  {
    if key in prefs then prefs[key].s else default
  }

  /** `getBoolean(key, default)`. */
  function GetBoolean(prefs: Prefs, key: string, default: bool): bool
    requires BoolTyped(prefs, key)
  {
    if key in prefs then prefs[key].b else default
  }

  /** `getInt(key, default)`; `None` stands for the `ClassCastException` it
      throws when the key holds a value of another type. */
  function GetInt(prefs: Prefs, key: string, default: int): (r: Option<int>)
    ensures key !in prefs ==> r == Some(default)
    ensures key in prefs ==> (r.Some? <==> prefs[key].IntV?)
  {
    if key !in prefs then Some(default)
    else match prefs[key]
      case IntV(i) => Some(i)
      case _ => None
  }

  /** The same key/value pairs outside the keys in `touched`. */
  ghost predicate SameOutside(a: Prefs, b: Prefs, touched: set<string>) {
    forall k :: k !in touched ==> (k in a <==> k in b) && (k in a ==> a[k] == b[k])
  }
}
