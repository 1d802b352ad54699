/**
 * The character manager page (pages/character-manager.tsx): a loaded
 * character file is edited field by field, every edit is diffed against the
 * copy taken at load time, and an edit outside the name and the battle
 * history costs the file its "native" status, which decides whether the
 * saved file keeps its signature. The JSON parser, the origin check and the
 * content check are inputs.
 */
module CharacterManager {
  import opened Wrappers
  import opened JsText
  import opened Json

  // ---------------------------------------------------------------------
  // findChangedKeys (lines 28-47)

  /** `path ? `${path}.${key}` : key`. */
  function ChildKeyPath(path: string, key: string): string {
    if path == "" then key else path + "." + key
  }

  /** The dotted path of a key list below `path`. */
  function Dotted(path: string, keys: seq<string>): string
    decreases |keys|
  {
    if |keys| == 0 then path else Dotted(ChildKeyPath(path, keys[0]), keys[1..])
  }

  /** The value reached by following `keys` through plain objects. */
  function ValueAt(fields: seq<Field>, keys: seq<string>): Option<Json>
    requires |keys| > 0
    decreases |keys|
  {
    var v := Get(fields, keys[0]);
    if |keys| == 1 then v
    else if v.Some? && v.value.JObj? then ValueAt(v.value.fields, keys[1..])
    else None
  }

  /** `new Set([...a, ...b])` read back as a list: first occurrences, in order. */
  function Dedup(s: seq<string>): (r: seq<string>)
    ensures forall x :: x in r <==> x in s
    ensures forall i, j :: 0 <= i < j < |r| ==> r[i] != r[j]
  {
    if |s| == 0 then []
    else
      var r := Dedup(s[..|s| - 1]);
      assert s == s[..|s| - 1] + [s[|s| - 1]];
      if s[|s| - 1] in r then r else r + [s[|s| - 1]]
  }

  /** Both sides hold a non-null, non-array object under the key. */
  predicate BothObjects(v1: Option<Json>, v2: Option<Json>) {
    v1.Some? && v1.value.JObj? && v2.Some? && v2.value.JObj?
  }

  /**
   * `findChangedKeys(obj1, obj2, path)`: the dotted paths at which two
   * objects differ, recursing where both sides hold plain objects and
   * comparing everything else by its serialised form.
   */
  function FindChangedKeys(f1: seq<Field>, f2: seq<Field>, path: string): seq<string>
    decreases FieldsSize(f1), 2
  {
    DiffKeys(f1, f2, Dedup(Keys(f1) + Keys(f2)), path)
  }

  function DiffKeys(f1: seq<Field>, f2: seq<Field>, keys: seq<string>, path: string): seq<string>
    decreases FieldsSize(f1), 1, |keys|
  {
    if |keys| == 0 then [] else DiffKey(f1, f2, keys[0], path) + DiffKeys(f1, f2, keys[1..], path)
  }

  /** The paths one key of the union contributes. */
  function DiffKey(f1: seq<Field>, f2: seq<Field>, key: string, path: string): seq<string>
    decreases FieldsSize(f1), 0
  {
    var v1, v2 := Get(f1, key), Get(f2, key);
    if BothObjects(v1, v2) then
      GetSmaller(f1, key);
      FindChangedKeys(v1.value.fields, v2.value.fields, ChildKeyPath(path, key))
    else if v1 != v2 then [ChildKeyPath(path, key)]
    else []
  }

  /** Comparing an object with itself reports nothing. */
  lemma {:induction false} FindChangedKeysSelf(f: seq<Field>, path: string)
    ensures FindChangedKeys(f, f, path) == []
    decreases FieldsSize(f), 2
  {
    DiffKeysSelf(f, Dedup(Keys(f) + Keys(f)), path);
  }

  lemma {:induction false} DiffKeysSelf(f: seq<Field>, keys: seq<string>, path: string)
    ensures DiffKeys(f, f, keys, path) == []
    decreases FieldsSize(f), 1, |keys|
  {
    if |keys| > 0 {
      var v := Get(f, keys[0]);
      if BothObjects(v, v) {
        GetSmaller(f, keys[0]);
        FindChangedKeysSelf(v.value.fields, ChildKeyPath(path, keys[0]));
      }
      DiffKeysSelf(f, keys[1..], path);
    }
  }

  /** A path is reported only where the two objects really hold different values. */
  ghost predicate DiffersAt(f1: seq<Field>, f2: seq<Field>, path: string, p: string) {
    exists keys :: |keys| > 0 && Dotted(path, keys) == p && ValueAt(f1, keys) != ValueAt(f2, keys)
  }

  /** Every reported path leads to values that differ (soundness of the diff). */
  lemma {:induction false} FindChangedKeysSound(f1: seq<Field>, f2: seq<Field>, path: string)
    ensures forall p :: p in FindChangedKeys(f1, f2, path) ==> DiffersAt(f1, f2, path, p)
    decreases FieldsSize(f1), 2
  {
    DiffKeysSound(f1, f2, Dedup(Keys(f1) + Keys(f2)), path);
  }

  lemma {:induction false} DiffKeysSound(f1: seq<Field>, f2: seq<Field>, keys: seq<string>, path: string)
    ensures forall p :: p in DiffKeys(f1, f2, keys, path) ==> DiffersAt(f1, f2, path, p)
    decreases FieldsSize(f1), 1, |keys|
  {
    if |keys| > 0 {
      DiffKeySound(f1, f2, keys[0], path);
      DiffKeysSound(f1, f2, keys[1..], path);
    }
  }

  lemma {:induction false} DiffKeySound(f1: seq<Field>, f2: seq<Field>, key: string, path: string)
    ensures forall p :: p in DiffKey(f1, f2, key, path) ==> DiffersAt(f1, f2, path, p)
    decreases FieldsSize(f1), 0
  {
    var v1, v2 := Get(f1, key), Get(f2, key);
    var here := ChildKeyPath(path, key);
    if BothObjects(v1, v2) {
      GetSmaller(f1, key);
      FindChangedKeysSound(v1.value.fields, v2.value.fields, here);
      forall p | p in DiffKey(f1, f2, key, path) ensures DiffersAt(f1, f2, path, p) {
        DiffersBelow(f1, f2, key, path, p);
      }
    } else if v1 != v2 {
      assert Dotted(path, [key]) == here;
      assert ValueAt(f1, [key]) != ValueAt(f2, [key]);
    }
  }

  /** A difference inside two nested objects is a difference of their parents. */
  lemma DiffersBelow(f1: seq<Field>, f2: seq<Field>, key: string, path: string, p: string)
    requires BothObjects(Get(f1, key), Get(f2, key))
    requires DiffersAt(Get(f1, key).value.fields, Get(f2, key).value.fields, ChildKeyPath(path, key), p)
    ensures DiffersAt(f1, f2, path, p)
  {
    var ks :| |ks| > 0 && Dotted(ChildKeyPath(path, key), ks) == p
      && ValueAt(Get(f1, key).value.fields, ks) != ValueAt(Get(f2, key).value.fields, ks);
    var full := [key] + ks;
    assert full[1..] == ks;
    assert Dotted(path, full) == p;
    assert ValueAt(f1, full) != ValueAt(f2, full);
  }

  lemma {:induction false} DiffKeysHas(f1: seq<Field>, f2: seq<Field>, keys: seq<string>, path: string, key: string)
    requires key in keys
    ensures forall p :: p in DiffKey(f1, f2, key, path) ==> p in DiffKeys(f1, f2, keys, path)
    decreases |keys|
  {
    if keys[0] != key {
      DiffKeysHas(f1, f2, keys[1..], path, key);
    }
  }

  /**
   * Every key whose values differ and are not both plain objects is
   * reported; in particular a key present on only one side is.
   */
  lemma FindChangedKeysComplete(f1: seq<Field>, f2: seq<Field>, path: string, key: string)
    requires Get(f1, key) != Get(f2, key) && !BothObjects(Get(f1, key), Get(f2, key))
    ensures ChildKeyPath(path, key) in FindChangedKeys(f1, f2, path)
  {
    assert key in Keys(f1) + Keys(f2) by {
      if HasKey(f1, key) {
        var i :| 0 <= i < |f1| && f1[i].key == key;
        assert Keys(f1)[i] == key;
      } else {
        var i :| 0 <= i < |f2| && f2[i].key == key;
        assert (Keys(f1) + Keys(f2))[|f1| + i] == key;
      }
    }
    DiffKeysHas(f1, f2, Dedup(Keys(f1) + Keys(f2)), path, key);
  }

  /**
   * After one top-level assignment to an unchanged object, the diff reports
   * at most that key.
   */
  lemma ChangedKeysOfAssignment(f: seq<Field>, key: string, v: Json)
    requires !v.JObj?
    ensures forall p :: p in FindChangedKeys(f, Set(f, key, v), "") ==> p == key
  {
    DiffKeysOfAssignment(f, key, v, Dedup(Keys(f) + Keys(Set(f, key, v))));
  }

  lemma {:induction false} DiffKeysOfAssignment(f: seq<Field>, key: string, v: Json, keys: seq<string>)
    requires !v.JObj?
    ensures forall p :: p in DiffKeys(f, Set(f, key, v), keys, "") ==> p == key
    decreases |keys|
  {
    if |keys| > 0 {
      var k := keys[0];
      if k != key {
        var w := Get(f, k);
        if BothObjects(w, w) {
          FindChangedKeysSelf(w.value.fields, k);
        }
      }
      DiffKeysOfAssignment(f, key, v, keys[1..]);
    }
  }

  /** Below a non-empty path every reported path starts with that path and a dot. */
  lemma {:induction false} FindChangedKeysUnder(f1: seq<Field>, f2: seq<Field>, path: string)
    requires path != ""
    ensures forall p :: p in FindChangedKeys(f1, f2, path) ==> StartsWith(p, path + ".")
    decreases FieldsSize(f1), 2
  {
    DiffKeysUnder(f1, f2, Dedup(Keys(f1) + Keys(f2)), path);
  }

  lemma {:induction false} DiffKeysUnder(f1: seq<Field>, f2: seq<Field>, keys: seq<string>, path: string)
    requires path != ""
    ensures forall p :: p in DiffKeys(f1, f2, keys, path) ==> StartsWith(p, path + ".")
    decreases FieldsSize(f1), 1, |keys|
  {
    if |keys| > 0 {
      var key := keys[0];
      var here := ChildKeyPath(path, key);
      assert StartsWith(here, path + ".") by {
        assert here == (path + ".") + key;
      }
      var v1, v2 := Get(f1, key), Get(f2, key);
      if BothObjects(v1, v2) {
        GetSmaller(f1, key);
        FindChangedKeysUnder(v1.value.fields, v2.value.fields, here);
        forall p | StartsWith(p, here + ".") ensures StartsWith(p, path + ".") {
          assert p[..|path + "."|] == here[..|path + "."|];
        }
      }
      DiffKeysUnder(f1, f2, keys[1..], path);
    }
  }

  // ---------------------------------------------------------------------
  // The breaking-change rule (lines 10 and 52-59)

  /** A changed path costs nativeness unless it is under `arena_history` or is exactly `codename` or `name`. */
  predicate IsBreaking(path: string) {
    !StartsWith(path, "arena_history") && path != "codename" && path != "name"
  }

  predicate HasBreakingChange(paths: seq<string>) {
    exists i :: 0 <= i < |paths| && IsBreaking(paths[i])
  }

  /** Renaming the construct is breaking; renaming the character or touching its history is not. */
  lemma BreakingExamples()
    ensures IsBreaking("magicConstruct.name")
    ensures !IsBreaking("codename") && !IsBreaking("name")
    ensures !IsBreaking("arena_history.entries")
  {
    assert "magicConstruct.name"[..|"arena_history"|] != "arena_history" by {
      assert "magicConstruct.name"[0] != "arena_history"[0];
    }
  }

  /** The paths whose change matters, as the effect computes them. */
  function ChangedPaths(original: Json, current: Json): seq<string> {
    if original.JObj? && current.JObj? then FindChangedKeys(original.fields, current.fields, "") else []
  }

  // ---------------------------------------------------------------------
  // Loading (lines 68-102)

  /** The shape check of line 77: an object (not `null`) with a truthy `codename` or `name`. */
  predicate Loadable(data: Json) {
    data.JObj? && (TruthyOpt(Get(data.fields, "codename")) || TruthyOpt(Get(data.fields, "name")))
  }

  // ---------------------------------------------------------------------
  // Editing one field (lines 131-142)

  /**
   * The loop of `handleChange`: walk to the parent of the last key and assign
   * the leaf. Reading through a missing or non-object value, or assigning
   * into one, is a TypeError (`None`).
   */
  function SetPath(v: Json, keys: seq<string>, leaf: Json): (r: Option<Json>)
    requires |keys| > 0
    ensures r.Some? ==> r.value.JObj?
    decreases |keys|
  {
    if !v.JObj? then None
    else if |keys| == 1 then Some(JObj(Set(v.fields, keys[0], leaf)))
    else
      var child := Get(v.fields, keys[0]);
      if child.None? then None
      else
        match SetPath(child.value, keys[1..], leaf)
        case None => None
        case Some(c) => Some(JObj(Set(v.fields, keys[0], c)))
  }

  /** `handleChange` for the field at the dotted `path`. */
  function HandleChange(data: Json, path: string, newValue: string): Option<Json> {
    SetPath(data, Split(path, '.'), JStr(newValue))
  }

  /** After the edit the path holds the new value. */
  lemma {:induction false} SetPathWrites(v: Json, keys: seq<string>, leaf: Json)
    requires |keys| > 0 && SetPath(v, keys, leaf).Some?
    ensures ValueAt(SetPath(v, keys, leaf).value.fields, keys) == Some(leaf)
    decreases |keys|
  {
    if |keys| > 1 {
      SetPathWrites(Get(v.fields, keys[0]).value, keys[1..], leaf);
    }
  }

  /** Key lists that part ways: neither is a prefix of the other. */
  predicate Diverge(a: seq<string>, b: seq<string>) {
    |a| > 0 && |b| > 0 && (a[0] != b[0] || Diverge(a[1..], b[1..]))
  }

  /** The edit touches nothing off its own path. */
  lemma {:induction false} SetPathKeepsOthers(v: Json, keys: seq<string>, leaf: Json, other: seq<string>)
    requires |keys| > 0 && SetPath(v, keys, leaf).Some? && Diverge(keys, other)
    ensures ValueAt(SetPath(v, keys, leaf).value.fields, other) == ValueAt(v.fields, other)
    decreases |keys|
  {
    if keys[0] == other[0] {
      SetPathKeepsOthers(Get(v.fields, keys[0]).value, keys[1..], leaf, other[1..]);
    }
  }

  /** A dotted path built from dot-free keys edits exactly the field those keys name. */
  lemma HandleChangeFollowsKeys(data: Json, keys: seq<string>, newValue: string)
    requires |keys| > 0 && forall i :: 0 <= i < |keys| ==> !ContainsChar(keys[i], '.')
    ensures HandleChange(data, Join(keys, '.'), newValue) == SetPath(data, keys, JStr(newValue))
  {
    SplitJoin(keys, '.');
  }

  // ---------------------------------------------------------------------
  // The page state

  class Editor {
    /** `characterData`: the file as edited; `None` is `null`. */
    var characterData: Option<Json>
    /** `originalData`: the deep copy taken at load time. */
    var originalData: Option<Json>
    /** The origin check's verdict at load time. */
    var isNative: bool
    /** Set by an edit that is breaking, cleared only by a new load. */
    var hasLostNativeness: bool

    ghost predicate Valid()
      reads this
    {
      (characterData.Some? ==> characterData.value.JObj?) && (originalData.Some? ==> originalData.value.JObj?)
    }

    /** A page with nothing loaded. */
    constructor ()
      ensures Valid()
      ensures characterData == None && originalData == None && !isNative && !hasLostNativeness
    {
      characterData, originalData := None, None;
      isNative, hasLostNativeness := false, false;
    }

    /** The effect of lines 24-65, run after every change of either copy. */
    method Recheck()
      modifies this
      ensures characterData == old(characterData) && originalData == old(originalData) && isNative == old(isNative)
      ensures hasLostNativeness == (old(hasLostNativeness) || (characterData.Some? && originalData.Some?
        && HasBreakingChange(ChangedPaths(originalData.value, characterData.value))))
    {
      if originalData.Some? && characterData.Some? {
        if HasBreakingChange(ChangedPaths(originalData.value, characterData.value)) {
          hasLostNativeness := true;
        }
      }
    }

    /**
     * `processJsonData`: `parsed` is `JSON.parse`'s result (`None` when it
     * throws) and `verdict` the origin check's `isValid` (`None` when the
     * request fails).
     */
    method Load(parsed: Option<Json>, verdict: Option<bool>) returns (ok: bool)
      modifies this
      ensures Valid()
      ensures ok <==> parsed.Some? && Loadable(parsed.value) && verdict.Some?
      ensures ok ==> characterData == parsed && originalData == parsed && isNative == verdict.value
      ensures !ok ==> characterData == None && originalData == None && !isNative
      ensures !hasLostNativeness
    {
      hasLostNativeness := false;
      if parsed.Some? && Loadable(parsed.value) && verdict.Some? {
        characterData, originalData, isNative := parsed, parsed, verdict.value;
        FindChangedKeysSelf(parsed.value.fields, "");
        ok := true;
      } else {
        characterData, originalData, isNative := None, None, false;
        ok := false;
      }
      Recheck();
    }

    /**
     * Typing `newValue` into the field at `path`. When the path cannot be
     * followed (a dotted property name leading through a missing property or
     * a value that cannot hold properties) the updater throws a TypeError:
     * `thrown` reports it and the data stays as it was.
     */
    method Edit(path: string, newValue: string) returns (thrown: bool)
      requires Valid()
      modifies this
      ensures Valid()
      ensures thrown <==> old(characterData).Some? && HandleChange(old(characterData).value, path, newValue).None?
      ensures originalData == old(originalData) && isNative == old(isNative)
      ensures old(characterData).Some? && HandleChange(old(characterData).value, path, newValue).Some?
        ==> characterData == HandleChange(old(characterData).value, path, newValue)
      ensures old(characterData).None? || HandleChange(old(characterData).value, path, newValue).None?
        ==> characterData == old(characterData)
      ensures hasLostNativeness == (old(hasLostNativeness) || (characterData.Some? && originalData.Some?
        && HasBreakingChange(ChangedPaths(originalData.value, characterData.value))))
    {
      thrown := false;
      if characterData.Some? {
        var edited := HandleChange(characterData.value, path, newValue);
        if edited.Some? {
          characterData := edited;
        } else {
          thrown := true;
        }
      }
      Recheck();
    }

    /** `handleRandomCodename`: the flower name drawn is an input. */
    method RandomCodename(name: string)
      requires Valid()
      modifies this
      ensures Valid()
      ensures originalData == old(originalData) && isNative == old(isNative)
      ensures characterData == Some(JObj(Set(if old(characterData).Some? then old(characterData).value.fields else [],
        "codename", JStr(name))))
      ensures hasLostNativeness == (old(hasLostNativeness) || (originalData.Some?
        && HasBreakingChange(ChangedPaths(originalData.value, characterData.value))))
    {
      var prev := if characterData.Some? then characterData.value.fields else [];
      characterData := Some(JObj(Set(prev, "codename", JStr(name))));
      Recheck();
    }

    /**
     * `handleSaveChanges`: nothing is saved when nothing is loaded or the
     * content check objects; the signature goes when nativeness is lost or
     * was never there.
     */
    method Save(sensitive: bool) returns (saved: Option<Json>)
      requires Valid()
      ensures saved.Some? <==> characterData.Some? && !sensitive
      ensures saved.Some? && (hasLostNativeness || !isNative) ==>
        saved.value == JObj(Delete(characterData.value.fields, "signature"))
      ensures saved.Some? && !hasLostNativeness && isNative ==> saved == characterData
    {
      if characterData.None? || sensitive {
        return None;
      }
      var finalData := characterData.value.fields;
      if hasLostNativeness || !isNative {
        finalData := Delete(finalData, "signature");
      }
      saved := Some(JObj(finalData));
    }
  }

  /**
   * Renaming a freshly loaded character keeps it native: the only reported
   * change is the name itself.
   */
  lemma RenameKeepsNativeness(f: seq<Field>, name: string)
    ensures !HasBreakingChange(FindChangedKeys(f, Set(f, "codename", JStr(name)), ""))
  {
    var paths := FindChangedKeys(f, Set(f, "codename", JStr(name)), "");
    ChangedKeysOfAssignment(f, "codename", JStr(name));
    forall i | 0 <= i < |paths| ensures !IsBreaking(paths[i]) {
      assert paths[i] in paths;
    }
  }
}
