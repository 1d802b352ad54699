/**
 * The "sublimation" endpoint (pages/api/generate-sublimation.ts): it merges
 * an AI-produced update into a character file, restores the fields that
 * must not change, rewrites the title, appends a history entry and re-signs
 * or unsigns the result. The AI call, the signature check and the clock are
 * inputs.
 */
module Sublimation {
  import opened Wrappers
  import opened JsText
  import opened Json
  import opened Signature

  /** `isObject`: a non-null, non-array object. */
  predicate IsObject(v: Json) {
    v.JObj?
  }

  /** The value `safeDeepMerge` stores for one source property. */
  function MergedValue(target: seq<Field>, k: string, sv: Json): Json
    decreases sv, 2
  {
    var t := Get(target, k);
    if IsObject(sv) && t.Some? && IsObject(t.value) then JObj(SafeDeepMerge(t.value, sv)) else sv
  }

  /**
   * `safeDeepMerge(target, source)`: the properties of the returned object.
   * Both objects: the target's properties, each source property assigned over
   * them in order. Otherwise: a spread copy of the target.
   */
  function SafeDeepMerge(target: Json, source: Json): seq<Field>
    decreases source, 1
  {
    if IsObject(target) && IsObject(source) then MergeFrom(target.fields, source.fields, target.fields)
    else Spread(target)
  }

  function MergeFrom(output: seq<Field>, src: seq<Field>, target: seq<Field>): seq<Field>
    decreases src, 0
  {
    if |src| == 0 then output
    else MergeFrom(Set(output, src[0].key, MergedValue(target, src[0].key, src[0].val)), src[1..], target)
  }

  lemma {:induction false} MergeFromGet(output: seq<Field>, src: seq<Field>, target: seq<Field>, k: string)
    requires UniqueKeys(src)
    ensures Get(MergeFrom(output, src, target), k) ==
      if HasKey(src, k) then Some(MergedValue(target, k, Get(src, k).value)) else Get(output, k)
    decreases |src|
  {
    if |src| > 0 {
      var f := src[0];
      MergeFromGet(Set(output, f.key, MergedValue(target, f.key, f.val)), src[1..], target, k);
      if f.key != k {
        assert HasKey(src, k) ==> HasKey(src[1..], k) by {
          if HasKey(src, k) {
            var j :| 0 <= j < |src| && src[j].key == k;
            assert src[1..][j - 1].key == k;
          }
        }
      }
    }
  }

  /**
   * For two objects, every source property is taken (merged recursively
   * where both sides hold objects) and every other target property is kept.
   */
  lemma SafeDeepMergeObjects(target: Json, source: Json, k: string)
    requires IsObject(target) && IsObject(source) && UniqueKeys(source.fields)
    ensures Get(SafeDeepMerge(target, source), k) ==
      if HasKey(source.fields, k) then Some(MergedValue(target.fields, k, Get(source.fields, k).value))
      else Get(target.fields, k)
  {
    MergeFromGet(target.fields, source.fields, target.fields, k);
  }

  /**
   * When either side is not a plain object the source is ignored: the result
   * is the target's spread copy, so a string target becomes an object keyed
   * by character positions.
   */
  lemma SafeDeepMergeIgnoresSource(target: Json, source: Json)
    requires !IsObject(target) || !IsObject(source)
    ensures SafeDeepMerge(target, source) == Spread(target)
    ensures target.JStr? ==> SafeDeepMerge(target, source) == IndexFields(CharValues(target.s))
  {
  }

  // ---------------------------------------------------------------------
  // findUnchangedFields

  /** The path text for a nested key. */
  function ChildPath(path: string, key: string): string {
    if path == "" then key else path + " -> " + key
  }

  /**
   * `findUnchangedFields(original, updated, path)`: paths of object-valued
   * fields the update left partly or wholly unchanged.
   */
  function FindUnchangedFields(original: Json, updated: Json, path: string): seq<string>
    decreases original, 1
  {
    if !IsObject(updated) || !original.JObj? then [] else UnchangedIn(original.fields, updated.fields, path)
  }

  /** Whether the loop descends into property `f` at all. */
  predicate Compared(f: Field, updated: seq<Field>) {
    f.key != "userAnswers" && IsObject(f.val) && HasKey(updated, f.key) && f.val != Get(updated, f.key).value
  }

  function UnchangedIn(fields: seq<Field>, updated: seq<Field>, path: string): seq<string>
    decreases fields, 0
  {
    if |fields| == 0 then []
    else
      var f := fields[0];
      var here: seq<string> :=
        if !Compared(f, updated) then []
        else
          var newPath := ChildPath(path, f.key);
          var sub := FindUnchangedFields(f.val, Get(updated, f.key).value, newPath);
          if |sub| == 0 then []
          else if |sub| == |f.val.fields| then [newPath]
          else sub;
      here + UnchangedIn(fields[1..], updated, path)
  }

  /**
   * As written the function never reports anything: a property is only
   * compared when it differs, so the recursive result for it is empty, and
   * an empty result for a differing property pushes nothing.
   */
  lemma {:induction false} FindUnchangedFieldsNeverReports(original: Json, updated: Json, path: string)
    ensures FindUnchangedFields(original, updated, path) == []
    decreases original, 1
  {
    if IsObject(updated) && original.JObj? {
      UnchangedInNeverReports(original.fields, updated.fields, path);
    }
  }

  lemma {:induction false} UnchangedInNeverReports(fields: seq<Field>, updated: seq<Field>, path: string)
    ensures UnchangedIn(fields, updated, path) == []
    decreases fields, 0
  {
    if |fields| > 0 {
      var f := fields[0];
      if Compared(f, updated) {
        FindUnchangedFieldsNeverReports(f.val, Get(updated, f.key).value, ChildPath(path, f.key));
      }
      UnchangedInNeverReports(fields[1..], updated, path);
    }
  }

  /** Whether property `f` holds an object the update left exactly as it was. */
  predicate KeptObject(f: Field, updated: seq<Field>) {
    f.key != "userAnswers" && IsObject(f.val) && HasKey(updated, f.key) && f.val == Get(updated, f.key).value
  }

  /**
   * The report as intended: an object-valued property that the update left
   * identical is reported as unchanged instead of being skipped; the rest of
   * the walk is the one above.
   */
  function FindUnchangedFieldsIntended(original: Json, updated: Json, path: string): seq<string>
    decreases original, 1
  {
    if !IsObject(updated) || !original.JObj? then [] else UnchangedInIntended(original.fields, updated.fields, path)
  }

  function UnchangedInIntended(fields: seq<Field>, updated: seq<Field>, path: string): seq<string>
    decreases fields, 0
  {
    if |fields| == 0 then []
    else
      var f := fields[0];
      var newPath := ChildPath(path, f.key);
      var here: seq<string> :=
        if KeptObject(f, updated) then [newPath]
        else if !Compared(f, updated) then []
        else
          var sub := FindUnchangedFieldsIntended(f.val, Get(updated, f.key).value, newPath);
          if |sub| == 0 then []
          else if |sub| == |f.val.fields| then [newPath]
          else sub;
      here + UnchangedInIntended(fields[1..], updated, path)
  }

  /** The paths of the object-valued properties other than `userAnswers`, in order. */
  function ObjectPaths(fields: seq<Field>, path: string): (r: seq<string>)
    ensures |r| <= |fields|
  {
    if |fields| == 0 then []
    else if fields[0].key != "userAnswers" && IsObject(fields[0].val) then [ChildPath(path, fields[0].key)] + ObjectPaths(fields[1..], path)
    else ObjectPaths(fields[1..], path)
  }

  lemma {:induction false} UnchangedInIntendedSame(fields: seq<Field>, updated: seq<Field>, path: string)
    requires forall j :: 0 <= j < |fields| ==> Get(updated, fields[j].key) == Some(fields[j].val)
    ensures UnchangedInIntended(fields, updated, path) == ObjectPaths(fields, path)
    decreases |fields|
  {
    if |fields| > 0 {
      assert Get(updated, fields[0].key) == Some(fields[0].val);
      UnchangedInIntendedSame(fields[1..], updated, path);
    }
  }

  /**
   * With the intended report, an update identical to the original reports
   * every object-valued property except `userAnswers`, in order.
   */
  lemma IdenticalReportsObjects(original: Json, path: string)
    requires original.JObj? && UniqueKeys(original.fields)
    ensures FindUnchangedFieldsIntended(original, original, path) == ObjectPaths(original.fields, path)
  {
    forall j | 0 <= j < |original.fields|
      ensures Get(original.fields, original.fields[j].key) == Some(original.fields[j].val)
    {
      GetAt(original.fields, j);
    }
    UnchangedInIntendedSame(original.fields, original.fields, path);
  }

  /** The smallest input that shows the difference: an unchanged nested object. */
  lemma UnchangedObjectExample()
    ensures FindUnchangedFields(JObj([Field("a", JObj([]))]), JObj([Field("a", JObj([]))]), "") == []
    ensures FindUnchangedFieldsIntended(JObj([Field("a", JObj([]))]), JObj([Field("a", JObj([]))]), "") == ["a"]
  {
    FindUnchangedFieldsNeverReports(JObj([Field("a", JObj([]))]), JObj([Field("a", JObj([]))]), "");
    IdenticalReportsObjects(JObj([Field("a", JObj([]))]), "");
  }

  /** With the intended report, every reported path lies under the path the call started from. */
  lemma {:induction false} UnchangedUnderPath(original: Json, updated: Json, path: string)
    requires path != ""
    ensures forall j :: 0 <= j < |FindUnchangedFieldsIntended(original, updated, path)| ==>
      StartsWith(FindUnchangedFieldsIntended(original, updated, path)[j], path + " -> ")
    decreases original, 1
  {
    if IsObject(updated) && original.JObj? {
      UnchangedInUnderPath(original.fields, updated.fields, path);
    }
  }

  lemma {:induction false} UnchangedInUnderPath(fields: seq<Field>, updated: seq<Field>, path: string)
    requires path != ""
    ensures forall j :: 0 <= j < |UnchangedInIntended(fields, updated, path)| ==>
      StartsWith(UnchangedInIntended(fields, updated, path)[j], path + " -> ")
    decreases fields, 0
  {
    if |fields| > 0 {
      UnchangedInUnderPath(fields[1..], updated, path);
      var f := fields[0];
      var newPath := ChildPath(path, f.key);
      assert StartsWith(newPath, path + " -> ");
      if !KeptObject(f, updated) && Compared(f, updated) {
        UnchangedUnderPath(f.val, Get(updated, f.key).value, newPath);
        forall q | StartsWith(q, newPath + " -> ") ensures StartsWith(q, path + " -> ") {
          assert q[..|path + " -> "|] == newPath[..|path + " -> "|];
        }
      }
    }
  }

  /** `userAnswers` is never compared: removing it from the original changes nothing. */
  lemma {:induction false} IgnoresUserAnswers(fields: seq<Field>, updated: seq<Field>, path: string)
    ensures UnchangedInIntended(Delete(fields, "userAnswers"), updated, path) == UnchangedInIntended(fields, updated, path)
    decreases |fields|
  {
    if |fields| > 0 {
      var rest := Delete(fields[1..], "userAnswers");
      IgnoresUserAnswers(fields[1..], updated, path);
      if fields[0].key == "userAnswers" {
        assert Delete(fields, "userAnswers") == rest;
        assert !KeptObject(fields[0], updated) && !Compared(fields[0], updated);
      } else {
        var d := Delete(fields, "userAnswers");
        assert d == [fields[0]] + rest;
        assert d[0] == fields[0] && d[1..] == rest;
      }
    }
  }

  // ---------------------------------------------------------------------
  // extractTextForCheck

  /** Keys whose contents are not user text. */
  predicate SkippedKey(k: string) {
    k == "signature" || k == "userAnswers"
  }

  /** `extractTextForCheck`: every string leaf followed by a space, in traversal order. */
  function ExtractTextForCheck(v: Json): string
    decreases v, 1
  {
    match v
    case JStr(s) => s + " "
    case JArr(items) => ExtractItems(items)
    case JObj(fields) => ExtractFields(fields)
    case _ => ""
  }

  function ExtractItems(items: seq<Json>): string
    decreases items, 0
  {
    if |items| == 0 then "" else ExtractTextForCheck(items[0]) + ExtractItems(items[1..])
  }

  function ExtractFields(fields: seq<Field>): string
    decreases fields, 0
  {
    if |fields| == 0 then ""
    else (if SkippedKey(fields[0].key) then "" else ExtractTextForCheck(fields[0].val)) + ExtractFields(fields[1..])
  }

  lemma ContainsAfter(head: string, rest: string, t: string)
    requires Contains(rest, t)
    ensures Contains(head + rest, t)
  {
    var k :| 0 <= k <= |rest| - |t| && OccursAt(rest, t, k);
    assert (head + rest)[|head| + k..|head| + k + |t|] == rest[k..k + |t|];
    assert OccursAt(head + rest, t, |head| + k);
  }

  lemma {:induction false} ExtractFieldsContains(fields: seq<Field>, j: nat)
    requires j < |fields| && !SkippedKey(fields[j].key)
    ensures Contains(ExtractFields(fields), ExtractTextForCheck(fields[j].val))
    decreases j
  {
    var t := ExtractTextForCheck(fields[j].val);
    if j == 0 {
      assert OccursAt(ExtractFields(fields), t, 0);
    } else {
      ExtractFieldsContains(fields[1..], j - 1);
      ContainsAfter(if SkippedKey(fields[0].key) then "" else ExtractTextForCheck(fields[0].val),
        ExtractFields(fields[1..]), t);
    }
  }

  lemma {:induction false} ExtractItemsContains(items: seq<Json>, j: nat)
    requires j < |items|
    ensures Contains(ExtractItems(items), ExtractTextForCheck(items[j]))
    decreases j
  {
    var t := ExtractTextForCheck(items[j]);
    if j == 0 {
      assert OccursAt(ExtractItems(items), t, 0);
    } else {
      ExtractItemsContains(items[1..], j - 1);
      ContainsAfter(ExtractTextForCheck(items[0]), ExtractItems(items[1..]), t);
    }
  }

  /**
   * The text of every array element, and of every object property other
   * than `signature` and `userAnswers`, is part of the text of the whole;
   * a string contributes itself and a space. By transitivity every string
   * leaf not below a skipped key reaches the sensitive-word check.
   */
  lemma ExtractCoversChildren(v: Json)
    ensures v.JStr? ==> ExtractTextForCheck(v) == v.s + " "
    ensures v.JArr? ==> forall j :: 0 <= j < |v.items| ==>
      Contains(ExtractTextForCheck(v), ExtractTextForCheck(v.items[j]))
    ensures v.JObj? ==> forall j :: 0 <= j < |v.fields| && !SkippedKey(v.fields[j].key) ==>
      Contains(ExtractTextForCheck(v), ExtractTextForCheck(v.fields[j].val))
  {
    if v.JArr? {
      forall j | 0 <= j < |v.items| ensures Contains(ExtractTextForCheck(v), ExtractTextForCheck(v.items[j])) {
        ExtractItemsContains(v.items, j);
      }
    }
    if v.JObj? {
      forall j | 0 <= j < |v.fields| && !SkippedKey(v.fields[j].key)
        ensures Contains(ExtractTextForCheck(v), ExtractTextForCheck(v.fields[j].val))
      {
        ExtractFieldsContains(v.fields, j);
      }
    }
  }

  /** Removing a `signature` or `userAnswers` property does not change the text checked. */
  lemma {:induction false} ExtractIgnoresSkippedKeys(fields: seq<Field>, k: string)
    requires SkippedKey(k)
    ensures ExtractFields(Delete(fields, k)) == ExtractFields(fields)
    decreases |fields|
  {
    if |fields| > 0 {
      ExtractIgnoresSkippedKeys(fields[1..], k);
      if fields[0].key != k {
        assert Delete(fields, k)[1..] == Delete(fields[1..], k);
      }
    }
  }

  // ---------------------------------------------------------------------
  // The merge loop (lines 259-266)

  /** One pass of the loop as written: any existing property goes through `safeDeepMerge`. */
  function MergeProperty(sub: seq<Field>, f: Field): seq<Field> {
    if HasKey(sub, f.key) then Set(sub, f.key, JObj(SafeDeepMerge(Get(sub, f.key).value, f.val)))
    else Set(sub, f.key, f.val)
  }

  /** The loop as written, over the AI's properties in order. */
  function MergePayload(sub: seq<Field>, updated: seq<Field>): seq<Field>
    decreases |updated|
  {
    if |updated| == 0 then sub
    else MergeProperty(MergePayload(sub, updated[..|updated| - 1]), updated[|updated| - 1])
  }

  /**
   * As written, an AI value whose property already exists is replaced by
   * the spread of the OLD value unless both are objects: an updated string
   * becomes an object of the old string's characters.
   */
  lemma MergePayloadGarblesStrings()
    ensures MergePayload([Field("coreConcept", JStr("ab"))], [Field("coreConcept", JStr("cd"))])
      == [Field("coreConcept", JObj([Field("0", JStr("a")), Field("1", JStr("b"))]))]
  {
    var merged := SafeDeepMerge(JStr("ab"), JStr("cd"));
    assert merged == IndexFields(CharValues("ab"));
    assert NatToString(0) == "0" && NatToString(1) == "1";
    assert merged == [Field("0", JStr("a")), Field("1", JStr("b"))];
    assert [Field("coreConcept", JStr("cd"))][..0] == [];
  }

  /** The evidently intended pass: objects merge into objects, any other value replaces. */
  function MergePropertyIntended(sub: seq<Field>, f: Field): seq<Field> {
    var t := Get(sub, f.key);
    if t.Some? && IsObject(t.value) && IsObject(f.val) then Set(sub, f.key, JObj(SafeDeepMerge(t.value, f.val)))
    else Set(sub, f.key, f.val)
  }

  function MergePayloadIntended(sub: seq<Field>, updated: seq<Field>): seq<Field>
    decreases |updated|
  {
    if |updated| == 0 then sub
    else MergePropertyIntended(MergePayloadIntended(sub, updated[..|updated| - 1]), updated[|updated| - 1])
  }

  /** The value the intended merge stores for a property the AI returned. */
  function IntendedValue(current: Option<Json>, fromAi: Json): Json {
    if current.Some? && IsObject(current.value) && IsObject(fromAi) then JObj(SafeDeepMerge(current.value, fromAi))
    else fromAi
  }

  /**
   * After the intended merge, a property the AI returned holds the AI's value
   * (merged into the old one when both are objects) and every other property
   * keeps its old value.
   */
  lemma {:induction false} MergePayloadIntendedGet(sub: seq<Field>, updated: seq<Field>, k: string)
    requires UniqueKeys(updated)
    ensures Get(MergePayloadIntended(sub, updated), k) ==
      if HasKey(updated, k) then Some(IntendedValue(Get(sub, k), Get(updated, k).value)) else Get(sub, k)
    decreases |updated|
  {
    if |updated| > 0 {
      var n := |updated| - 1;
      var prefix, last := updated[..n], updated[n];
      assert updated == prefix + [last];
      MergePayloadIntendedGet(sub, prefix, k);
      GetAppend(prefix, last, k);
    }
  }

  /** With the intended merge, every non-object value from the AI arrives unchanged. */
  lemma MergeIntendedTakesValues(sub: seq<Field>, updated: seq<Field>, k: string)
    requires UniqueKeys(updated) && HasKey(updated, k) && !IsObject(Get(updated, k).value)
    ensures Get(MergePayloadIntended(sub, updated), k) == Get(updated, k)
  {
    MergePayloadIntendedGet(sub, updated, k);
  }

  /** The counterexample input merged as intended. */
  lemma MergePayloadIntendedKeepsStrings()
    ensures MergePayloadIntended([Field("coreConcept", JStr("ab"))], [Field("coreConcept", JStr("cd"))])
      == [Field("coreConcept", JStr("cd"))]
  {
    assert [Field("coreConcept", JStr("cd"))][..0] == [];
  }

  /**
   * The two merges agree whenever every AI property is either new or an
   * object replacing an object; the handler below, built on the intended
   * merge, then computes exactly what the loop as written computes.
   */
  lemma {:induction false} MergePayloadsAgree(sub: seq<Field>, updated: seq<Field>)
    requires UniqueKeys(updated)
    requires forall j :: 0 <= j < |updated| ==>
      (!HasKey(sub, updated[j].key) || (IsObject(Get(sub, updated[j].key).value) && IsObject(updated[j].val)))
    ensures MergePayload(sub, updated) == MergePayloadIntended(sub, updated)
    decreases |updated|
  {
    if |updated| > 0 {
      var n := |updated| - 1;
      var prefix, last := updated[..n], updated[n];
      assert forall j :: 0 <= j < |prefix| ==> prefix[j] == updated[j];
      MergePayloadsAgree(sub, prefix);
      var m := MergePayloadIntended(sub, prefix);
      assert forall j :: 0 <= j < |prefix| ==> prefix[j].key != last.key;
      MergePayloadIntendedGet(sub, prefix, last.key);
      assert Get(m, last.key) == Get(sub, last.key);
      MergePropertiesAgree(m, last);
    }
  }

  /** One pass of either merge does the same when the property is new or both sides are objects. */
  lemma MergePropertiesAgree(m: seq<Field>, f: Field)
    requires !HasKey(m, f.key) || (IsObject(Get(m, f.key).value) && IsObject(f.val))
    ensures MergeProperty(m, f) == MergePropertyIntended(m, f)
  {
  }

  /**
   * Two property lists with the same names at every position, whose values
   * can differ only under the names in `ks`.
   */
  predicate AgreeExcept(a: seq<Field>, b: seq<Field>, ks: set<string>) {
    |a| == |b| && forall i :: 0 <= i < |a| ==> a[i].key == b[i].key && (a[i].key !in ks ==> a[i].val == b[i].val)
  }

  /** The tails of two agreeing lists agree. */
  lemma AgreeTail(a: seq<Field>, b: seq<Field>, ks: set<string>)
    requires AgreeExcept(a, b, ks) && |a| > 0
    ensures AgreeExcept(a[1..], b[1..], ks)
  {
    forall i | 0 <= i < |a| - 1 ensures a[1..][i] == a[i + 1] && b[1..][i] == b[i + 1] { }
  }

  /** Putting the same name in front of two agreeing lists keeps them agreeing. */
  lemma AgreeCons(x: Field, y: Field, ra: seq<Field>, rb: seq<Field>, ks: set<string>)
    requires x.key == y.key && (x.key !in ks ==> x.val == y.val) && AgreeExcept(ra, rb, ks)
    ensures AgreeExcept([x] + ra, [y] + rb, ks)
  {
    forall i | 1 <= i < |ra| + 1 ensures ([x] + ra)[i] == ra[i - 1] && ([y] + rb)[i] == rb[i - 1] { }
  }

  /** Lists that agree have the same names, and the same value under a name outside `ks`. */
  lemma {:induction false} AgreeExceptGet(a: seq<Field>, b: seq<Field>, ks: set<string>, k: string)
    requires AgreeExcept(a, b, ks)
    ensures HasKey(a, k) <==> HasKey(b, k)
    ensures UniqueKeys(a) <==> UniqueKeys(b)
    ensures k !in ks ==> Get(a, k) == Get(b, k)
    decreases |a|
  {
    if |a| > 0 && a[0].key != k {
      AgreeTail(a, b, ks);
      AgreeExceptGet(a[1..], b[1..], ks, k);
    }
  }

  /** Writing the same value, or any values under a name in `ks`, keeps two lists agreeing. */
  lemma {:induction false} AgreeExceptSet(a: seq<Field>, b: seq<Field>, ks: set<string>, k: string, va: Json, vb: Json)
    requires AgreeExcept(a, b, ks) && (k in ks || va == vb)
    ensures AgreeExcept(Set(a, k, va), Set(b, k, vb), ks)
    decreases |a|
  {
    if |a| > 0 && a[0].key != k {
      AgreeTail(a, b, ks);
      AgreeExceptSet(a[1..], b[1..], ks, k, va, vb);
      AgreeCons(a[0], b[0], Set(a[1..], k, va), Set(b[1..], k, vb), ks);
    }
  }

  /**
   * Writing one value under a name of `ks` in both of two agreeing lists
   * with distinct names takes that name out of the difference.
   */
  lemma {:induction false} AgreeExceptSetAll(a: seq<Field>, b: seq<Field>, ks: set<string>, k: string, v: Json)
    requires AgreeExcept(a, b, ks) && UniqueKeys(a)
    ensures AgreeExcept(Set(a, k, v), Set(b, k, v), ks - {k})
    decreases |a|
  {
    if |a| > 0 {
      AgreeTail(a, b, ks);
      if a[0].key != k {
        AgreeExceptSetAll(a[1..], b[1..], ks, k, v);
        AgreeCons(a[0], b[0], Set(a[1..], k, v), Set(b[1..], k, v), ks - {k});
      } else {
        assert AgreeExcept(a[1..], b[1..], ks - {k}) by {
          forall i | 0 <= i < |a| - 1 ensures a[1..][i].key != k {
            assert a[1..][i] == a[i + 1];
          }
        }
        AgreeCons(Field(k, v), Field(k, v), a[1..], b[1..], ks - {k});
      }
    }
  }

  /** Deleting a name from two agreeing lists takes it out of the difference. */
  lemma {:induction false} AgreeExceptDelete(a: seq<Field>, b: seq<Field>, ks: set<string>, k: string)
    requires AgreeExcept(a, b, ks)
    ensures AgreeExcept(Delete(a, k), Delete(b, k), ks - {k})
    decreases |a|
  {
    if |a| > 0 {
      AgreeTail(a, b, ks);
      AgreeExceptDelete(a[1..], b[1..], ks, k);
      if a[0].key != k {
        AgreeCons(a[0], b[0], Delete(a[1..], k), Delete(b[1..], k), ks - {k});
      }
    }
  }

  /** `Assign` of one value in both lists, as `AgreeExceptSetAll` and `AgreeExceptDelete`. */
  lemma AgreeExceptAssign(a: seq<Field>, b: seq<Field>, ks: set<string>, k: string, v: Option<Json>)
    requires AgreeExcept(a, b, ks) && UniqueKeys(a)
    ensures AgreeExcept(Assign(a, k, v), Assign(b, k, v), ks - {k})
    ensures UniqueKeys(Assign(a, k, v))
  {
    if v.Some? {
      AgreeExceptSetAll(a, b, ks, k, v.value);
      SetUnique(a, k, v.value);
    } else {
      AgreeExceptDelete(a, b, ks, k);
    }
  }

  /** Lists that agree everywhere are equal. */
  lemma AgreeExceptNothing(a: seq<Field>, b: seq<Field>)
    requires AgreeExcept(a, b, {})
    ensures a == b
  {
    forall i | 0 <= i < |a| ensures a[i] == b[i] {
      assert a[i].key == b[i].key && a[i].val == b[i].val;
    }
  }

  /**
   * An AI property on which the two merges behave alike: its name is exempt,
   * or it is new, or it is an object replacing an object.
   */
  predicate MergesAlike(sub: seq<Field>, f: Field, ks: set<string>) {
    f.key in ks || !HasKey(sub, f.key) || (IsObject(Get(sub, f.key).value) && IsObject(f.val))
  }

  /**
   * The merge as written and the corrected merge keep the same names in the
   * same places, and differ only under the names in `ks` when every other
   * AI property is new or an object replacing an object.
   */
  lemma {:induction false} MergePayloadsAgreeExcept(sub: seq<Field>, updated: seq<Field>, ks: set<string>)
    requires UniqueKeys(updated)
    requires forall j :: 0 <= j < |updated| ==> MergesAlike(sub, updated[j], ks)
    ensures AgreeExcept(MergePayload(sub, updated), MergePayloadIntended(sub, updated), ks)
    decreases |updated|
  {
    if |updated| > 0 {
      var n := |updated| - 1;
      var prefix, last := updated[..n], updated[n];
      assert forall j :: 0 <= j < |prefix| ==> prefix[j] == updated[j];
      MergePayloadsAgreeExcept(sub, prefix, ks);
      MergeLastAgrees(sub, prefix, last, ks);
    }
  }

  /** The last pass of both merges keeps them agreeing. */
  lemma MergeLastAgrees(sub: seq<Field>, prefix: seq<Field>, last: Field, ks: set<string>)
    requires UniqueKeys(prefix + [last]) && MergesAlike(sub, last, ks)
    requires AgreeExcept(MergePayload(sub, prefix), MergePayloadIntended(sub, prefix), ks)
    ensures MergePayload(sub, prefix + [last]) == MergeProperty(MergePayload(sub, prefix), last)
    ensures MergePayloadIntended(sub, prefix + [last]) == MergePropertyIntended(MergePayloadIntended(sub, prefix), last)
    ensures AgreeExcept(MergeProperty(MergePayload(sub, prefix), last),
      MergePropertyIntended(MergePayloadIntended(sub, prefix), last), ks)
  {
    var updated := prefix + [last];
    assert updated[..|updated| - 1] == prefix && updated[|updated| - 1] == last;
    var m2 := MergePayloadIntended(sub, prefix);
    assert MergesAlike(m2, last, ks) by {
      if last.key !in ks {
        assert forall j :: 0 <= j < |prefix| ==> prefix[j].key != last.key by {
          assert forall j :: 0 <= j < |prefix| ==> prefix[j] == updated[j];
        }
        assert UniqueKeys(prefix) by {
          assert forall j :: 0 <= j < |prefix| ==> prefix[j] == updated[j];
        }
        MergePayloadIntendedGet(sub, prefix, last.key);
      }
    }
    MergePropertiesAgreeExcept(MergePayload(sub, prefix), m2, ks, last);
  }

  /** The corrected merge keeps the names of the original distinct. */
  lemma {:induction false} MergePayloadIntendedUnique(sub: seq<Field>, updated: seq<Field>)
    requires UniqueKeys(sub)
    ensures UniqueKeys(MergePayloadIntended(sub, updated))
    decreases |updated|
  {
    if |updated| > 0 {
      var n := |updated| - 1;
      MergePayloadIntendedUnique(sub, updated[..n]);
      MergePropertyIntendedUnique(MergePayloadIntended(sub, updated[..n]), updated[n]);
    }
  }

  /** One pass of the corrected merge keeps the names distinct. */
  lemma MergePropertyIntendedUnique(m: seq<Field>, f: Field)
    requires UniqueKeys(m)
    ensures UniqueKeys(MergePropertyIntended(m, f))
  {
    SetUnique(m, f.key, IntendedValue(Get(m, f.key), f.val));
  }

  /** One pass of each merge keeps two agreeing lists agreeing, as long as the property is exempt, new or object on object. */
  lemma MergePropertiesAgreeExcept(m1: seq<Field>, m2: seq<Field>, ks: set<string>, f: Field)
    requires AgreeExcept(m1, m2, ks)
    requires MergesAlike(m2, f, ks)
    ensures AgreeExcept(MergeProperty(m1, f), MergePropertyIntended(m2, f), ks)
  {
    AgreeExceptGet(m1, m2, ks, f.key);
    var v1 := if HasKey(m1, f.key) then JObj(SafeDeepMerge(Get(m1, f.key).value, f.val)) else f.val;
    AgreeExceptSet(m1, m2, ks, f.key, v1, IntendedValue(Get(m2, f.key), f.val));
  }

  // ---------------------------------------------------------------------
  // Restoring the immutable fields (lines 275-277)

  /**
   * `magicConstruct.name`, `wonderlandRule` and `blooming` are copied back
   * from the original. `None` is the TypeError raised when the original has
   * no `magicConstruct` or the merged one cannot take a property.
   */
  function RestoreImmutables(sub: seq<Field>, original: seq<Field>): (r: Option<seq<Field>>)
    ensures r.None? <==>
      Get(original, "magicConstruct").None? || Get(original, "magicConstruct").value.JNull?
      || Get(sub, "magicConstruct").None?
      || !(Get(sub, "magicConstruct").value.JObj? || Get(sub, "magicConstruct").value.JArr?)
  {
    var om := Get(original, "magicConstruct");
    var sm := Get(sub, "magicConstruct");
    if om.None? || om.value.JNull? || sm.None? || !(sm.value.JObj? || sm.value.JArr?) then None
    else Some(RestoreRules(RestoreConstructName(sub, sm.value, om), original))
  }

  /** `sublimatedData.magicConstruct.name = originalCharacterData.magicConstruct.name`. */
  function RestoreConstructName(sub: seq<Field>, construct: Json, originalConstruct: Option<Json>): seq<Field> {
    if construct.JObj? then Set(sub, "magicConstruct", JObj(Assign(construct.fields, "name", Member(originalConstruct, "name"))))
    else sub  // a property set on an array does not survive serialisation
  }

  function RestoreRules(sub: seq<Field>, original: seq<Field>): seq<Field> {
    Assign(Assign(sub, "wonderlandRule", Get(original, "wonderlandRule")), "blooming", Get(original, "blooming"))
  }

  lemma RestoreConstructNameGet(sub: seq<Field>, construct: Json, originalConstruct: Option<Json>)
    ensures var r := RestoreConstructName(sub, construct, originalConstruct);
      forall k :: k != "magicConstruct" ==> Get(r, k) == Get(sub, k)
    ensures construct.JObj? ==> var r := RestoreConstructName(sub, construct, originalConstruct);
      Member(Get(r, "magicConstruct"), "name") == Member(originalConstruct, "name")
      && forall k :: k != "name" ==> Member(Get(r, "magicConstruct"), k) == Member(Some(construct), k)
  {
  }

  lemma RestoreRulesGet(sub: seq<Field>, original: seq<Field>)
    ensures var r := RestoreRules(sub, original);
      Get(r, "wonderlandRule") == Get(original, "wonderlandRule")
      && Get(r, "blooming") == Get(original, "blooming")
      && forall k :: k != "wonderlandRule" && k != "blooming" ==> Get(r, k) == Get(sub, k)
  {
  }

  /**
   * The restored object holds the original's `wonderlandRule`, `blooming`
   * and `magicConstruct.name`; everything else is as merged.
   */
  lemma RestoreImmutablesGet(sub: seq<Field>, original: seq<Field>)
    requires RestoreImmutables(sub, original).Some?
    ensures var r := RestoreImmutables(sub, original).value;
      Get(r, "wonderlandRule") == Get(original, "wonderlandRule")
      && Get(r, "blooming") == Get(original, "blooming")
      && Get(r, "magicConstruct").Some?
      && (Get(sub, "magicConstruct").value.JArr? ==> Get(r, "magicConstruct") == Get(sub, "magicConstruct"))
      && (Get(sub, "magicConstruct").value.JObj? ==>
        Member(Get(r, "magicConstruct"), "name") == Member(Get(original, "magicConstruct"), "name"))
    ensures var r := RestoreImmutables(sub, original).value;
      forall k :: k != "magicConstruct" && k != "wonderlandRule" && k != "blooming" ==> Get(r, k) == Get(sub, k)
  {
    var sm := Get(sub, "magicConstruct").value;
    var om := Get(original, "magicConstruct");
    var named := RestoreConstructName(sub, sm, om);
    RestoreConstructNameGet(sub, sm, om);
    RestoreRulesGet(named, original);
  }

  // ---------------------------------------------------------------------
  // The title rule (lines 280-295 and 298-313)

  predicate IsLineTerminator(c: char) {
    c == '\n' || c == '\r' || c == '\U{2028}' || c == '\U{2029}'
  }

  /** `/「(.{1,8})」/` matches at `i` with a title of `k` characters. */
  predicate TitleAt(s: string, i: nat, k: nat) {
    1 <= k <= 8 && i + k + 1 < |s| && s[i] == '「' && s[i + k + 1] == '」'
    && forall j :: i < j <= i + k ==> !IsLineTerminator(s[j])
  }

  /** The greedy `{1,8}`: the longest title of at most `k` characters at `i`, 0 for none. */
  function LongestTitleAt(s: string, i: nat, k: nat): (r: nat)
    ensures r <= k
    ensures r > 0 ==> TitleAt(s, i, r)
    ensures forall m :: r < m <= k ==> !TitleAt(s, i, m)
    decreases k
  {
    if k == 0 then 0 else if TitleAt(s, i, k) then k else LongestTitleAt(s, i, k - 1)
  }

  /**
   * `s.match(/「(.{1,8})」/)` from position `i` on: the leftmost position with
   * a match, and there the longest title.
   */
  function TitleSearch(s: string, i: nat): (r: Option<(nat, nat)>)
    ensures r.Some? ==> i <= r.value.0 && TitleAt(s, r.value.0, r.value.1)
    ensures r.Some? ==> forall m :: r.value.1 < m ==> !TitleAt(s, r.value.0, m)
    ensures r.Some? ==> forall p, m :: i <= p < r.value.0 ==> !TitleAt(s, p, m)
    ensures r.None? ==> forall p, m :: i <= p ==> !TitleAt(s, p, m)
    decreases |s| - i
  {
    if i >= |s| then None
    else
      var k := LongestTitleAt(s, i, 8);
      if k > 0 then Some((i, k)) else TitleSearch(s, i + 1)
  }

  /** The name before the first `「`. */
  function BaseName(full: string): string {
    Split(full, '「')[0]
  }

  /**
   * The stored name: the original base name with the AI's title; without a
   * title from the AI, the original if it already has one, else `「历战」`.
   */
  function FinalName(original: string, fromAi: string): string {
    match TitleSearch(fromAi, 0)
    case Some((i, k)) => BaseName(original) + "「" + fromAi[i + 1..i + 1 + k] + "」"
    case None => if ContainsChar(original, '「') then original else BaseName(original) + "「历战」"
  }

  lemma BaseNameOfTitled(base: string, rest: string)
    requires !ContainsChar(base, '「')
    ensures BaseName(base + "「" + rest) == base
  {
    assert base + "「" + rest == base + ['「'] + rest;
    SplitPrefix(base, rest, '「');
  }

  /** The AI can never change the base name: the result's base name is the original's. */
  lemma FinalNameKeepsBase(original: string, fromAi: string)
    ensures BaseName(FinalName(original, fromAi)) == BaseName(original)
  {
    var b := BaseName(original);
    assert !ContainsChar(b, '「');
    match TitleSearch(fromAi, 0)
    case Some((i, k)) =>
      var title := fromAi[i + 1..i + 1 + k];
      assert FinalName(original, fromAi) == b + "「" + (title + "」") by {
        assert b + "「" + title + "」" == b + "「" + (title + "」");
      }
      BaseNameOfTitled(b, title + "」");
    case None =>
      if !ContainsChar(original, '「') {
        assert FinalName(original, fromAi) == b + "「" + "历战」" by {
          assert b + "「历战」" == b + "「" + "历战」";
        }
        BaseNameOfTitled(b, "历战」");
      }
  }

  /** After sublimation the name always carries a title mark. */
  lemma FinalNameHasTitle(original: string, fromAi: string)
    ensures ContainsChar(FinalName(original, fromAi), '「')
  {
    var b := BaseName(original);
    var r := FinalName(original, fromAi);
    if TitleSearch(fromAi, 0).Some? || !ContainsChar(original, '「') {
      assert r[|b|] == '「';
    }
  }

  /**
   * A name of the form base「title」, with a base free of `「` and a title
   * of one to eight characters on one line, contributes exactly its title.
   */
  lemma FinalNameAdoptsTitle(original: string, base: string, title: string)
    requires !ContainsChar(base, '「') && 1 <= |title| <= 8
    requires forall j :: 0 <= j < |title| ==> !IsLineTerminator(title[j])
    ensures FinalName(original, base + "「" + title + "」") == BaseName(original) + "「" + title + "」"
  {
    var s := base + "「" + title + "」";
    var n := |base|;
    assert TitleAt(s, n, |title|) by {
      forall j | n < j <= n + |title| ensures !IsLineTerminator(s[j]) {
        assert s[j] == title[j - n - 1];
      }
    }
    var r := TitleSearch(s, 0);
    assert r.Some?;
    var (i, k) := r.value;
    assert forall p :: 0 <= p < n ==> s[p] == base[p];
    assert i == n;
    assert k == |title|;
    assert s[i + 1..i + 1 + k] == title;
  }

  // ---------------------------------------------------------------------
  // The history entry (lines 321-334)

  /** `arena_history.entries || []`; `None` is the TypeError when it is truthy but no array. */
  function OldEntries(arena: Json): Option<seq<Json>> {
    if arena.JArr? then None  // an array's `entries` is `Array.prototype.entries`, which has no `filter`
    else
      var e := Member(Some(arena), "entries");
      if !TruthyOpt(e) then Some([])
      else if e.value.JArr? then Some(e.value.items)
      else None
  }

  predicate IsSublimationEntry(e: Json) {
    Member(Some(e), "type") == Some(JStr("sublimation"))
  }

  /** `entries.filter(e => e.type === 'sublimation')`; `None` is the TypeError on a `null` entry. */
  function KeepSublimations(entries: seq<Json>): (r: Option<seq<Json>>)
    ensures r.None? <==> exists j :: 0 <= j < |entries| && entries[j].JNull?
    decreases |entries|
  {
    if |entries| == 0 then Some([])
    else if entries[0].JNull? then None
    else
      match KeepSublimations(entries[1..])
      case None => None
      case Some(rest) => Some(if IsSublimationEntry(entries[0]) then [entries[0]] + rest else rest)
  }

  /** The filter keeps exactly the sublimation entries: each kept entry is one, and none is dropped. */
  lemma {:induction false} KeptSublimations(entries: seq<Json>)
    requires KeepSublimations(entries).Some?
    ensures var kept := KeepSublimations(entries).value;
      (forall j :: 0 <= j < |kept| ==> IsSublimationEntry(kept[j]) && kept[j] in entries)
      && (forall j :: 0 <= j < |entries| && IsSublimationEntry(entries[j]) ==> entries[j] in kept)
    decreases |entries|
  {
    if |entries| > 0 {
      var rest := entries[1..];
      KeptSublimations(rest);
      assert forall j :: 1 <= j < |entries| ==> entries[j] == rest[j - 1];
    }
  }

  /** `Number(e.id)`; `None` is NaN. */
  function EntryId(e: Json): Option<int> {
    ToNumber(Member(Some(e), "id"))
  }

  /** `Math.max(...entries.map(e => e.id))`; `None` is NaN. */
  function MaxId(entries: seq<Json>): (r: Option<int>)
    requires |entries| > 0
    ensures r.Some? <==> forall j :: 0 <= j < |entries| ==> EntryId(entries[j]).Some?
    ensures r.Some? ==> forall j :: 0 <= j < |entries| ==> EntryId(entries[j]).value <= r.value
    ensures r.Some? ==> exists j :: 0 <= j < |entries| && EntryId(entries[j]) == r
    decreases |entries|
  {
    var first := EntryId(entries[0]);
    if |entries| == 1 then first
    else
      var rest := MaxId(entries[1..]);
      assert forall j :: 1 <= j < |entries| ==> entries[j] == entries[1..][j - 1];
      if first.None? || rest.None? then None
      else Some(if first.value >= rest.value then first.value else rest.value)
  }

  /** `lastEntryId + 1`, where NaN is written out as `null`. */
  function NextEntryId(entries: seq<Json>): Json {
    if |entries| == 0 then JNum(1)
    else
      match MaxId(entries)
      case Some(m) => JNum(m + 1)
      case None => JNull
  }

  /** A numeric new id is larger than, so different from, every old id. */
  lemma NextEntryIdFresh(entries: seq<Json>, n: int)
    requires NextEntryId(entries) == JNum(n)
    ensures forall j :: 0 <= j < |entries| ==> EntryId(entries[j]).Some? && EntryId(entries[j]).value < n
  {
  }

  function NewEntry(id: Json, title: string, impact: string, name: string, isNative: bool): Json {
    JObj([
      Field("id", id), Field("type", JStr("sublimation")), Field("title", JStr(title)),
      Field("participants", JArr([JStr(name)])), Field("winner", JStr(name)), Field("impact", JStr(impact)),
      Field("metadata", JObj([
        Field("user_guidance", JNull), Field("scenario_title", JNull),
        Field("non_native_data_involved", JBool(!isNative))]))])
  }

  /**
   * A history of sublimation entries only is kept whole by the filter, so a
   * later sublimation keeps every entry an earlier one wrote.
   */
  lemma {:induction false} KeepSublimationsStable(entries: seq<Json>)
    requires forall j :: 0 <= j < |entries| ==> IsSublimationEntry(entries[j])
    ensures KeepSublimations(entries) == Some(entries)
    decreases |entries|
  {
    if |entries| > 0 {
      var rest := entries[1..];
      assert forall j :: 0 <= j < |rest| ==> rest[j] == entries[j + 1];
      KeepSublimationsStable(rest);
      assert IsSublimationEntry(entries[0]);
      assert [entries[0]] + rest == entries;
    }
  }

  lemma NewEntryIsSublimation(id: Json, title: string, impact: string, name: string, isNative: bool)
    ensures IsSublimationEntry(NewEntry(id, title, impact, name, isNative))
  {
    var f := NewEntry(id, title, impact, name, isNative).fields;
    assert f[1..][0] == Field("type", JStr("sublimation"));
  }

  // ---------------------------------------------------------------------
  // The counters (lines 337-340)

  /** `arena_history.attributes.sublimation_count`; `None` is the TypeError when `attributes` is missing or null. */
  function OldCount(arena: Json): Option<Option<Json>> {
    var attrs := Member(Some(arena), "attributes");
    if attrs.None? || attrs.value.JNull? then None else Some(Member(attrs, "sublimation_count"))
  }

  /** `(count || 0) + 1` in JavaScript: numbers add, strings and objects concatenate. */
  function NextCount(count: Option<Json>): Json {
    if !TruthyOpt(count) then JNum(1)
    else
      match count.value
      case JNum(n) => JNum(n + 1)
      case JBool(_) => JNum(2)
      case JStr(s) => JStr(s + "1")
      case other => JStr(JsString(other) + "1")
  }

  /** A numeric or missing count goes up by exactly one. */
  lemma NextCountIncrements(count: Option<Json>)
    ensures count.None? || count.value.JNull? ==> NextCount(count) == JNum(1)
    ensures count.Some? && count.value.JNum? ==> NextCount(count) == JNum(count.value.n + 1)
    ensures ToNumber(count).Some? ==> ToNumber(Some(NextCount(count))) == Some(ToNumber(count).value + 1)
  {
    if count.Some? {
      match count.value
      case JBool(b) =>
      case JNum(n) =>
      case _ =>
    }
  }

  /**
   * Writes the new history list and, when `attributes` is an object, the
   * count and both timestamps. `None` is the TypeError when the merged
   * `arena_history` is not an object or its `attributes` cannot take a property.
   */
  function UpdateArena(arena: Option<Json>, entries: seq<Json>, count: Json, now: string): (r: Option<Json>)
    ensures r.Some? <==> (arena.Some? && arena.value.JObj?
      && Get(arena.value.fields, "attributes").Some?
      && (Get(arena.value.fields, "attributes").value.JObj? || Get(arena.value.fields, "attributes").value.JArr?))
    ensures r.Some? ==> r.value.JObj? && Get(r.value.fields, "entries") == Some(JArr(entries))
    ensures r.Some? && Get(arena.value.fields, "attributes").value.JObj? ==>
      var attrs := Get(r.value.fields, "attributes");
      Member(attrs, "sublimation_count") == Some(count)
      && Member(attrs, "updated_at") == Some(JStr(now))
      && Member(attrs, "last_sublimation_at") == Some(JStr(now))
    ensures r.Some? && Get(arena.value.fields, "attributes").value.JArr? ==>
      Get(r.value.fields, "attributes") == Get(arena.value.fields, "attributes")
    ensures r.Some? ==> forall k :: k != "entries" && k != "attributes" ==>
      Get(r.value.fields, k) == Get(arena.value.fields, k)
  {
    if arena.None? || !arena.value.JObj? then None
    else
      var af := Set(arena.value.fields, "entries", JArr(entries));
      match Get(af, "attributes")
      case Some(JObj(at)) =>
        var stamped := Set(Set(Set(at, "sublimation_count", count), "updated_at", JStr(now)), "last_sublimation_at", JStr(now));
        Some(JObj(Set(af, "attributes", JObj(stamped))))
      case Some(JArr(_)) => Some(JObj(af))
      case _ => None
  }

  // ---------------------------------------------------------------------
  // The handler (lines 226-367)

  datatype AiResult = AiResult(updated: seq<Field>, title: string, impact: string)

  datatype Reply =
    | MethodNotAllowed
    | Noncompliant
    | MissingHistory
    | Failed
    | Sublimated(data: seq<Field>, unchangedFields: seq<string>)

  function Status(r: Reply): int {
    match r
    case MethodNotAllowed => 405
    case Noncompliant => 400
    case MissingHistory => 400
    case Failed => 500
    case Sublimated(_, _) => 200
  }

  /** The property holding the name: `codename` for a magical girl, `name` for a canshou. */
  function NameKey(original: seq<Field>): string {
    if HasKey(original, "codename") then "codename" else "name"
  }

  /** Properties the handler writes after the merge. */
  predicate Handled(k: string, original: seq<Field>) {
    k == NameKey(original) || k == "arena_history" || k == "signature"
    || (HasKey(original, "codename") && (k == "magicConstruct" || k == "wonderlandRule" || k == "blooming"))
  }

  /** Step 4 up to the type check: the immutable fields for a magical girl, `None` on a mismatch or TypeError. */
  function CheckedKind(fields: seq<Field>, updated: seq<Field>, merged: seq<Field>): Option<seq<Field>> {
    if HasKey(fields, "codename") && HasKey(updated, "codename") then RestoreImmutables(merged, fields)
    else if !HasKey(fields, "codename") && HasKey(updated, "name") then Some(merged)
    else None
  }

  /** The names involved, when both are strings (otherwise `split` or `match` throws). */
  predicate NamesAreStrings(fields: seq<Field>, updated: seq<Field>) {
    var nk := NameKey(fields);
    Get(fields, nk).Some? && Get(fields, nk).value.JStr? && Get(updated, nk).Some? && Get(updated, nk).value.JStr?
  }

  function NewName(fields: seq<Field>, updated: seq<Field>): string
    requires NamesAreStrings(fields, updated)
  {
    var nk := NameKey(fields);
    FinalName(Get(fields, nk).value.s, Get(updated, nk).value.s)
  }

  /** The entry step 5 appends. */
  function EntryFor(arena: Json, ai: AiResult, name: string, isNative: bool): Json
    requires OldEntries(arena).Some?
  {
    NewEntry(NextEntryId(OldEntries(arena).value), ai.title, ai.impact, name, isNative)
  }

  /** Steps 5 and 6: the history list and the counters; `None` is a TypeError. */
  function RecordHistory(sub: seq<Field>, arena: Json, ai: AiResult, name: string, isNative: bool, now: string)
    : (r: Option<seq<Field>>)
    ensures r.Some? ==> forall k :: k != "arena_history" ==> Get(r.value, k) == Get(sub, k)
  {
    var oldEntries := OldEntries(arena);
    if oldEntries.None? then None
    else
      var kept := KeepSublimations(oldEntries.value);
      var count := OldCount(arena);
      if kept.None? || count.None? then None
      else
        var out := UpdateArena(Get(sub, "arena_history"), kept.value + [EntryFor(arena, ai, name, isNative)],
          NextCount(count.value), now);
        if out.None? then None else Some(Set(sub, "arena_history", out.value))
  }

  /** Step 7: a native character is re-signed, any other loses its signature. */
  function SignOrStrip(data: seq<Field>, isNative: bool, key: SigningKey, c: Crypto): (r: seq<Field>)
    ensures forall k :: k != "signature" ==> Get(r, k) == Get(data, k)
    ensures isNative && key.Key? ==> VerifySignature(key, c, JObj(r))
    ensures !isNative ==> !HasKey(r, "signature")
  {
    if isNative then
      var signature := GenerateSignature(key, c, data);
      if signature.Some? then
        SignedDataVerifies(key, c, data);
        Set(data, "signature", JStr(signature.value))
      else Set(data, "signature", JNull)
    else Delete(data, "signature")
  }

  /** Steps 4 to 8 on the merged object. */
  function Complete(fields: seq<Field>, ai: AiResult, merged: seq<Field>, isNative: bool,
                    key: SigningKey, c: Crypto, now: string, unchangedPaths: seq<string>): Reply
  {
    var restored := CheckedKind(fields, ai.updated, merged);
    if restored.None? || !NamesAreStrings(fields, ai.updated) || Get(fields, "arena_history").None? then Failed
    else
      var name := NewName(fields, ai.updated);
      var named := Set(restored.value, NameKey(fields), JStr(name));
      var history := RecordHistory(named, Get(fields, "arena_history").value, ai, name, isNative, now);
      if history.None? then Failed
      else Sublimated(SignOrStrip(history.value, isNative, key, c), unchangedPaths)
  }

  /** What the endpoint answers, with the loop of lines 259-266 as a fold. */
  function SublimationReply(isPost: bool, original: Json, hasSensitiveWords: string -> bool,
                            key: SigningKey, c: Crypto, ai: Option<AiResult>, now: string): (r: Reply)
    ensures !isPost ==> r == MethodNotAllowed
    ensures isPost && hasSensitiveWords(ExtractTextForCheck(original)) ==> r == Noncompliant
    ensures isPost && !hasSensitiveWords(ExtractTextForCheck(original)) && original.JNull? ==> r == Failed
    ensures (isPost && !hasSensitiveWords(ExtractTextForCheck(original)) && !original.JNull?
      && !TruthyOpt(Member(Some(original), "arena_history"))) ==> r == MissingHistory
    ensures r.Sublimated? ==> (isPost && original.JObj? && ai.Some?
      && TruthyOpt(Get(original.fields, "arena_history"))
      && HasKey(ai.value.updated, NameKey(original.fields))
      && r.unchangedFields == FindUnchangedFieldsIntended(original, JObj(ai.value.updated), ""))
  {
    if !isPost then MethodNotAllowed
    else if hasSensitiveWords(ExtractTextForCheck(original)) then Noncompliant
    else if original.JNull? then Failed
    else if !TruthyOpt(Member(Some(original), "arena_history")) then MissingHistory
    else if ai.None? then Failed
    else
      Complete(original.fields, ai.value, MergePayloadIntended(original.fields, ai.value.updated),
        VerifySignature(key, c, original), key, c, now, FindUnchangedFieldsIntended(original, JObj(ai.value.updated), ""))
  }

  /** The handler: the checks, the merge loop, then the remaining steps. */
  method Sublimate(isPost: bool, original: Json, hasSensitiveWords: string -> bool,
                   key: SigningKey, c: Crypto, ai: Option<AiResult>, now: string)
    returns (reply: Reply)
    ensures reply == SublimationReply(isPost, original, hasSensitiveWords, key, c, ai, now)
  {
    if !isPost {
      return MethodNotAllowed;
    }
    if hasSensitiveWords(ExtractTextForCheck(original)) {
      return Noncompliant;
    }
    if original.JNull? {
      return Failed;
    }
    if !TruthyOpt(Member(Some(original), "arena_history")) {
      return MissingHistory;
    }
    var isNative := VerifySignature(key, c, original);
    if ai.None? {
      return Failed;
    }
    var fields, updated := original.fields, ai.value.updated;
    var unchangedPaths := FindUnchangedFieldsIntended(original, JObj(updated), "");

    var sub := fields;
    for i := 0 to |updated|
      invariant sub == MergePayloadIntended(fields, updated[..i])
    {
      assert updated[..i + 1][..i] == updated[..i];
      var f := updated[i];
      var t := Get(sub, f.key);
      if t.Some? && IsObject(t.value) && IsObject(f.val) {
        sub := Set(sub, f.key, JObj(SafeDeepMerge(t.value, f.val)));
      } else {
        sub := Set(sub, f.key, f.val);
      }
    }
    assert updated[..|updated|] == updated;
    reply := Complete(fields, ai.value, sub, isNative, key, c, now, unchangedPaths);
  }

  // ---------------------------------------------------------------------
  // What a successful reply carries


  /**
   * Properties whose merged value the handler overwrites whatever it is:
   * the name, and the copied-back rules of a magical girl.
   */
  function Rewritten(fields: seq<Field>, updated: seq<Field>): set<string> {
    if HasKey(fields, "codename") && HasKey(updated, "codename") then {"codename", "wonderlandRule", "blooming"}
    else {NameKey(fields)}
  }

  /** Copying the rules back takes them out of the difference between two merges. */
  lemma RestoreRulesAgree(r1: seq<Field>, r2: seq<Field>, original: seq<Field>)
    requires AgreeExcept(r1, r2, {"codename", "wonderlandRule", "blooming"}) && UniqueKeys(r1)
    ensures UniqueKeys(RestoreRules(r1, original))
    ensures AgreeExcept(RestoreRules(r1, original), RestoreRules(r2, original), {"codename"})
  {
    var ks: set<string> := {"codename", "wonderlandRule", "blooming"};
    AgreeExceptAssign(r1, r2, ks, "wonderlandRule", Get(original, "wonderlandRule"));
    var w1, w2 := Assign(r1, "wonderlandRule", Get(original, "wonderlandRule")),
                  Assign(r2, "wonderlandRule", Get(original, "wonderlandRule"));
    assert ks - {"wonderlandRule"} == {"codename", "blooming"};
    AgreeExceptAssign(w1, w2, ks - {"wonderlandRule"}, "blooming", Get(original, "blooming"));
    assert ks - {"wonderlandRule"} - {"blooming"} == {"codename"};
  }

  /** Restoring a magical girl's immutable fields on two merges that differ only under the rewritten names. */
  lemma RestoreImmutablesAgree(m1: seq<Field>, m2: seq<Field>, original: seq<Field>)
    requires AgreeExcept(m1, m2, {"codename", "wonderlandRule", "blooming"}) && UniqueKeys(m1)
    ensures RestoreImmutables(m1, original).None? <==> RestoreImmutables(m2, original).None?
    ensures RestoreImmutables(m1, original).Some? ==>
      UniqueKeys(RestoreImmutables(m1, original).value)
      && AgreeExcept(RestoreImmutables(m1, original).value, RestoreImmutables(m2, original).value, {"codename"})
  {
    var ks: set<string> := {"codename", "wonderlandRule", "blooming"};
    var sm := Get(m1, "magicConstruct");
    var om := Get(original, "magicConstruct");
    assert Get(m2, "magicConstruct") == sm by {
      AgreeExceptGet(m1, m2, ks, "magicConstruct");
    }
    if !(om.None? || om.value.JNull? || sm.None? || !(sm.value.JObj? || sm.value.JArr?)) {
      var r1, r2 := RestoreConstructName(m1, sm.value, om), RestoreConstructName(m2, sm.value, om);
      assert AgreeExcept(r1, r2, ks) && UniqueKeys(r1) by {
        RestoreConstructNameAgree(m1, m2, ks, sm.value, om);
      }
      RestoreRulesAgree(r1, r2, original);
    }
  }

  /** Writing the construct's name back keeps two merges agreeing. */
  lemma RestoreConstructNameAgree(m1: seq<Field>, m2: seq<Field>, ks: set<string>, construct: Json, om: Option<Json>)
    requires AgreeExcept(m1, m2, ks) && UniqueKeys(m1)
    ensures UniqueKeys(RestoreConstructName(m1, construct, om))
    ensures AgreeExcept(RestoreConstructName(m1, construct, om), RestoreConstructName(m2, construct, om), ks)
  {
    if construct.JObj? {
      var v := JObj(Assign(construct.fields, "name", Member(om, "name")));
      AgreeExceptSet(m1, m2, ks, "magicConstruct", v, v);
      SetUnique(m1, "magicConstruct", v);
    }
  }

  /**
   * Two merges that differ only under the rewritten names fail the type
   * check together and otherwise differ only under the name.
   */
  lemma CheckedKindAgrees(fields: seq<Field>, updated: seq<Field>, m1: seq<Field>, m2: seq<Field>)
    requires AgreeExcept(m1, m2, Rewritten(fields, updated)) && UniqueKeys(m1)
    ensures CheckedKind(fields, updated, m1).None? <==> CheckedKind(fields, updated, m2).None?
    ensures CheckedKind(fields, updated, m1).Some? ==>
      UniqueKeys(CheckedKind(fields, updated, m1).value)
      && AgreeExcept(CheckedKind(fields, updated, m1).value, CheckedKind(fields, updated, m2).value, {NameKey(fields)})
  {
    if HasKey(fields, "codename") && HasKey(updated, "codename") {
      RestoreImmutablesAgree(m1, m2, fields);
    }
  }

  /** Steps 4 to 8 give the same reply on two merges that differ only under the rewritten names. */
  lemma CompleteAgrees(fields: seq<Field>, ai: AiResult, m1: seq<Field>, m2: seq<Field>, isNative: bool,
                       key: SigningKey, c: Crypto, now: string, unchangedPaths: seq<string>)
    requires AgreeExcept(m1, m2, Rewritten(fields, ai.updated)) && UniqueKeys(m1)
    ensures Complete(fields, ai, m1, isNative, key, c, now, unchangedPaths)
      == Complete(fields, ai, m2, isNative, key, c, now, unchangedPaths)
  {
    CheckedKindAgrees(fields, ai.updated, m1, m2);
    var r1, r2 := CheckedKind(fields, ai.updated, m1), CheckedKind(fields, ai.updated, m2);
    if r1.Some? && NamesAreStrings(fields, ai.updated) {
      var nk, name := NameKey(fields), JStr(NewName(fields, ai.updated));
      AgreeExceptSetAll(r1.value, r2.value, {nk}, nk, name);
      AgreeExceptNothing(Set(r1.value, nk, name), Set(r2.value, nk, name));
    }
  }

  /**
   * When every AI property is new, an object replacing an object, or one the
   * handler overwrites afterwards (the name, and a magical girl's rules), the
   * reply is the one the loop as written produces: the corrected merge only
   * differs where the source garbles a value that survives.
   */
  lemma SublimationReplyAsWritten(isPost: bool, original: Json, hasSensitiveWords: string -> bool,
                                  key: SigningKey, c: Crypto, ai: Option<AiResult>, now: string)
    requires SublimationReply(isPost, original, hasSensitiveWords, key, c, ai, now).Sublimated?
    requires original.JObj? && ai.Some? && UniqueKeys(original.fields) && UniqueKeys(ai.value.updated)
    requires forall j :: 0 <= j < |ai.value.updated| ==>
      MergesAlike(original.fields, ai.value.updated[j], Rewritten(original.fields, ai.value.updated))
    ensures SublimationReply(isPost, original, hasSensitiveWords, key, c, ai, now)
      == Complete(original.fields, ai.value, MergePayload(original.fields, ai.value.updated),
        VerifySignature(key, c, original), key, c, now, FindUnchangedFieldsIntended(original, JObj(ai.value.updated), ""))
  {
    var fields, updated := original.fields, ai.value.updated;
    var m1, m2 := MergePayload(fields, updated), MergePayloadIntended(fields, updated);
    MergePayloadsAgreeExcept(fields, updated, Rewritten(fields, updated));
    MergePayloadIntendedUnique(fields, updated);
    AgreeExceptGet(m1, m2, Rewritten(fields, updated), "");
    CompleteAgrees(fields, ai.value, m1, m2, VerifySignature(key, c, original), key, c, now,
      FindUnchangedFieldsIntended(original, JObj(updated), ""));
  }

  /** The name is the original base name with the new (or fallback) title. */
  lemma SublimationName(isPost: bool, original: Json, hasSensitiveWords: string -> bool,
                        key: SigningKey, c: Crypto, ai: Option<AiResult>, now: string)
    requires SublimationReply(isPost, original, hasSensitiveWords, key, c, ai, now).Sublimated?
    ensures original.JObj? && ai.Some? && NamesAreStrings(original.fields, ai.value.updated)
    ensures Get(SublimationReply(isPost, original, hasSensitiveWords, key, c, ai, now).data, NameKey(original.fields))
      == Some(JStr(NewName(original.fields, ai.value.updated)))
  {
    var fields, a := original.fields, ai.value;
    var merged := MergePayloadIntended(fields, a.updated);
    var isNative := VerifySignature(key, c, original);
    var paths := FindUnchangedFieldsIntended(original, JObj(a.updated), "");
    assert SublimationReply(isPost, original, hasSensitiveWords, key, c, ai, now)
      == Complete(fields, a, merged, isNative, key, c, now, paths);
    CompleteSteps(fields, a, merged, isNative, key, c, now, paths);
    var nk := NameKey(fields);
    assert nk != "arena_history" && nk != "signature";
  }

  /** Steps 5 to 7 leave every property but the name, the history and the signature as restored. */
  lemma KeptThroughSteps(restored: seq<Field>, nk: string, name: string, arena: Json, ai: AiResult,
                         isNative: bool, now: string, key: SigningKey, c: Crypto, k: string)
    requires RecordHistory(Set(restored, nk, JStr(name)), arena, ai, name, isNative, now).Some?
    requires k != nk && k != "arena_history" && k != "signature"
    ensures Get(SignOrStrip(RecordHistory(Set(restored, nk, JStr(name)), arena, ai, name, isNative, now).value,
      isNative, key, c), k) == Get(restored, k)
  {
  }

  /** Steps 5 to 7 leave `arena_history` as step 5 and 6 wrote it. */
  lemma HistoryThroughSteps(named: seq<Field>, arena: Json, ai: AiResult, name: string,
                            isNative: bool, now: string, key: SigningKey, c: Crypto)
    requires RecordHistory(named, arena, ai, name, isNative, now).Some?
    ensures OldEntries(arena).Some? && KeepSublimations(OldEntries(arena).value).Some? && OldCount(arena).Some?
    ensures Some(Get(SignOrStrip(RecordHistory(named, arena, ai, name, isNative, now).value, isNative, key, c), "arena_history").value)
      == UpdateArena(Get(named, "arena_history"),
        KeepSublimations(OldEntries(arena).value).value + [EntryFor(arena, ai, name, isNative)],
        NextCount(OldCount(arena).value), now)
  {
    var kept := KeepSublimations(OldEntries(arena).value).value;
    var out := UpdateArena(Get(named, "arena_history"), kept + [EntryFor(arena, ai, name, isNative)],
      NextCount(OldCount(arena).value), now);
    var recorded := RecordHistory(named, arena, ai, name, isNative, now).value;
    assert recorded == Set(named, "arena_history", out.value);
    assert "arena_history" != "signature";
  }

  /** The steps of a successful `Complete`, one after the other. */
  lemma CompleteSteps(fields: seq<Field>, ai: AiResult, merged: seq<Field>, isNative: bool,
                      key: SigningKey, c: Crypto, now: string, paths: seq<string>)
    requires Complete(fields, ai, merged, isNative, key, c, now, paths).Sublimated?
    ensures CheckedKind(fields, ai.updated, merged).Some? && NamesAreStrings(fields, ai.updated)
    ensures Get(fields, "arena_history").Some?
    ensures var named := Set(CheckedKind(fields, ai.updated, merged).value, NameKey(fields), JStr(NewName(fields, ai.updated)));
      var history := RecordHistory(named, Get(fields, "arena_history").value, ai, NewName(fields, ai.updated), isNative, now);
      history.Some?
      && Complete(fields, ai, merged, isNative, key, c, now, paths).data == SignOrStrip(history.value, isNative, key, c)
  {
  }

  lemma CompleteImmutables(fields: seq<Field>, ai: AiResult, merged: seq<Field>, isNative: bool,
                           key: SigningKey, c: Crypto, now: string, paths: seq<string>)
    requires Complete(fields, ai, merged, isNative, key, c, now, paths).Sublimated?
    requires HasKey(fields, "codename")
    ensures var data := Complete(fields, ai, merged, isNative, key, c, now, paths).data;
      Get(data, "wonderlandRule") == Get(fields, "wonderlandRule")
      && Get(data, "blooming") == Get(fields, "blooming")
      && Get(data, "magicConstruct").Some?
      && (Get(data, "magicConstruct").value.JArr?
        || Member(Get(data, "magicConstruct"), "name") == Member(Get(fields, "magicConstruct"), "name"))
  {
    CompleteSteps(fields, ai, merged, isNative, key, c, now, paths);
    var restored := RestoreImmutables(merged, fields).value;
    RestoreImmutablesGet(merged, fields);
    var name := NewName(fields, ai.updated);
    var arena := Get(fields, "arena_history").value;
    KeptThroughSteps(restored, "codename", name, arena, ai, isNative, now, key, c, "wonderlandRule");
    KeptThroughSteps(restored, "codename", name, arena, ai, isNative, now, key, c, "blooming");
    KeptThroughSteps(restored, "codename", name, arena, ai, isNative, now, key, c, "magicConstruct");
  }

  /** A magical girl keeps her `wonderlandRule`, `blooming` and magic construct's name. */
  lemma SublimationImmutables(isPost: bool, original: Json, hasSensitiveWords: string -> bool,
                              key: SigningKey, c: Crypto, ai: Option<AiResult>, now: string)
    requires SublimationReply(isPost, original, hasSensitiveWords, key, c, ai, now).Sublimated?
    requires original.JObj? && HasKey(original.fields, "codename")
    ensures var data := SublimationReply(isPost, original, hasSensitiveWords, key, c, ai, now).data;
      Get(data, "wonderlandRule") == Get(original.fields, "wonderlandRule")
      && Get(data, "blooming") == Get(original.fields, "blooming")
      && Get(data, "magicConstruct").Some?
      && (Get(data, "magicConstruct").value.JArr?
        || Member(Get(data, "magicConstruct"), "name") == Member(Get(original.fields, "magicConstruct"), "name"))
  {
    var fields := original.fields;
    CompleteImmutables(fields, ai.value, MergePayloadIntended(fields, ai.value.updated),
      VerifySignature(key, c, original), key, c, now, FindUnchangedFieldsIntended(original, JObj(ai.value.updated), ""));
  }

  lemma CompleteHistory(fields: seq<Field>, ai: AiResult, merged: seq<Field>, isNative: bool,
                        key: SigningKey, c: Crypto, now: string, paths: seq<string>)
    requires Complete(fields, ai, merged, isNative, key, c, now, paths).Sublimated?
    ensures NamesAreStrings(fields, ai.updated) && Get(fields, "arena_history").Some?
    ensures var arena := Get(fields, "arena_history").value;
      var data := Complete(fields, ai, merged, isNative, key, c, now, paths).data;
      OldEntries(arena).Some? && KeepSublimations(OldEntries(arena).value).Some? && OldCount(arena).Some?
      && Member(Get(data, "arena_history"), "entries") == Some(JArr(KeepSublimations(OldEntries(arena).value).value
        + [EntryFor(arena, ai, NewName(fields, ai.updated), isNative)]))
      && var attrs := Member(Get(data, "arena_history"), "attributes");
      attrs.Some? && (attrs.value.JArr? || (
        Member(attrs, "sublimation_count") == Some(NextCount(OldCount(arena).value))
        && Member(attrs, "updated_at") == Some(JStr(now))
        && Member(attrs, "last_sublimation_at") == Some(JStr(now))))
  {
    CompleteSteps(fields, ai, merged, isNative, key, c, now, paths);
    var name := NewName(fields, ai.updated);
    var named := Set(CheckedKind(fields, ai.updated, merged).value, NameKey(fields), JStr(name));
    HistoryThroughSteps(named, Get(fields, "arena_history").value, ai, name, isNative, now, key, c);
  }

  /**
   * The history holds the old sublimation entries followed by the new one,
   * and the counters are updated.
   */
  lemma SublimationHistory(isPost: bool, original: Json, hasSensitiveWords: string -> bool,
                           key: SigningKey, c: Crypto, ai: Option<AiResult>, now: string)
    requires SublimationReply(isPost, original, hasSensitiveWords, key, c, ai, now).Sublimated?
    ensures original.JObj? && ai.Some? && NamesAreStrings(original.fields, ai.value.updated)
    ensures var arena := Get(original.fields, "arena_history").value;
      var data := SublimationReply(isPost, original, hasSensitiveWords, key, c, ai, now).data;
      OldEntries(arena).Some? && KeepSublimations(OldEntries(arena).value).Some? && OldCount(arena).Some?
      && Member(Get(data, "arena_history"), "entries") == Some(JArr(KeepSublimations(OldEntries(arena).value).value
        + [EntryFor(arena, ai.value, NewName(original.fields, ai.value.updated), VerifySignature(key, c, original))]))
      && var attrs := Member(Get(data, "arena_history"), "attributes");
      attrs.Some? && (attrs.value.JArr? || (
        Member(attrs, "sublimation_count") == Some(NextCount(OldCount(arena).value))
        && Member(attrs, "updated_at") == Some(JStr(now))
        && Member(attrs, "last_sublimation_at") == Some(JStr(now))))
  {
    var fields := original.fields;
    CompleteHistory(fields, ai.value, MergePayloadIntended(fields, ai.value.updated),
      VerifySignature(key, c, original), key, c, now, FindUnchangedFieldsIntended(original, JObj(ai.value.updated), ""));
  }

  /** A native character comes back with a valid signature, any other without one. */
  lemma SublimationSignature(isPost: bool, original: Json, hasSensitiveWords: string -> bool,
                             key: SigningKey, c: Crypto, ai: Option<AiResult>, now: string)
    requires SublimationReply(isPost, original, hasSensitiveWords, key, c, ai, now).Sublimated?
    ensures var data := SublimationReply(isPost, original, hasSensitiveWords, key, c, ai, now).data;
      (VerifySignature(key, c, original) ==> VerifySignature(key, c, JObj(data)))
      && (!VerifySignature(key, c, original) ==> !HasKey(data, "signature"))
  {
  }

  /** Every property the handler does not write afterwards is as the merge left it. */
  lemma SublimationKeepsMerged(isPost: bool, original: Json, hasSensitiveWords: string -> bool,
                               key: SigningKey, c: Crypto, ai: Option<AiResult>, now: string, k: string)
    requires SublimationReply(isPost, original, hasSensitiveWords, key, c, ai, now).Sublimated?
    ensures original.JObj? && ai.Some?
    ensures !Handled(k, original.fields) ==>
      Get(SublimationReply(isPost, original, hasSensitiveWords, key, c, ai, now).data, k)
        == Get(MergePayloadIntended(original.fields, ai.value.updated), k)
  {
    var fields, u := original.fields, ai.value.updated;
    var merged := MergePayloadIntended(fields, u);
    if HasKey(fields, "codename") {
      RestoreImmutablesGet(merged, fields);
    }
  }
}
