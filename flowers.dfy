/**
 * The maintenance script that merges a supplementary flower list into the
 * main flower file (public/safe_update_flowers.py). Files are given as their
 * state on disk; printing is not modelled, only which outcome is reached and
 * what would be written. A parsed document has distinct property names in
 * every object: `json.load` keeps the last of repeated names where `Get`
 * reads the first, and the two agree once names are distinct.
 */
module FlowerMerge {
  import opened Wrappers
  import opened Json

  /** A file on disk: absent, present but not valid JSON, or parsed. */
  datatype FileState = Absent | Unparsable | Parsed(doc: Json)

  datatype Outcome =
    | MainFileMissing
    | SupplementFileMissing
    | DecodeError
    | MainMalformed
    | SupplementMalformed
    | UnexpectedError
    | NothingAdded
    | Written(doc: Json, added: nat)

  /** Python truthiness of a JSON value (empty lists and objects are false). */
  predicate PyTruthy(v: Json) {
    match v
    case JNull => false
    case JBool(b) => b
    case JNum(n) => n != 0
    case JStr(s) => s != ""
    case JArr(items) => |items| > 0
    case JObj(fields) => |fields| > 0
  }

  /** Lists and dicts cannot be put in a Python set. */
  predicate Hashable(v: Json) {
    !v.JArr? && !v.JObj?
  }

  /** The set element Python compares by: `True == 1` and `False == 0`. */
  function NameKey(v: Json): Json {
    match v
    case JBool(b) => JNum(if b then 1 else 0)
    case _ => v
  }

  /** Result of `'flowers' in doc` followed by `doc['flowers']`. */
  datatype Lookup = Missing | Crashed | Found(val: Json)

  function FlowersOf(doc: Json): (r: Lookup)
    ensures doc.JObj? ==> (r.Found? <==> HasKey(doc.fields, "flowers"))
    ensures r.Found? ==> doc.JObj? && Get(doc.fields, "flowers") == Some(r.val)
  {
    match doc
    case JObj(fields) =>
      var v := Get(fields, "flowers");
      if v.Some? then Found(v.value) else Missing
    case JArr(items) => if JStr("flowers") in items then Crashed else Missing
    case JStr(s) => if JsText.Contains(s, "flowers") then Crashed else Missing
    case _ => Crashed
  }

  /** `{flower['name'] for flower in flowers}`, or `None` where Python raises. */
  function MainNames(flowers: seq<Json>): (r: Option<set<Json>>)
    ensures r.Some? <==> forall i :: 0 <= i < |flowers| ==> NamedEntry(flowers[i])
  {
    if |flowers| == 0 then Some({})
    else
      var rest := MainNames(flowers[1..]);
      if NamedEntry(flowers[0]) && rest.Some? then
        Some({NameKey(Get(flowers[0].fields, "name").value)} + rest.value)
      else None
  }

  /** A main entry that `flower['name']` can read and hash. */
  predicate NamedEntry(v: Json) {
    v.JObj? && Get(v.fields, "name").Some? && Hashable(Get(v.fields, "name").value)
  }

  /** What one iteration of the merge loop does with a supplement entry. */
  datatype Step = Crash | Skip | Add(key: Json)

  function StepFor(names: set<Json>, flower: Json): Step {
    if !flower.JObj? then Crash
    else
      var name := Get(flower.fields, "name");
      if name.None? || !PyTruthy(name.value) then Skip
      else if !Hashable(name.value) then Crash
      else if NameKey(name.value) in names then Skip
      else Add(NameKey(name.value))
  }

  /** The entries the loop appends, in order, or `None` when an iteration raises. */
  function Appended(names: set<Json>, supp: seq<Json>): Option<seq<Json>>
    decreases |supp|
  {
    if |supp| == 0 then Some([])
    else
      match StepFor(names, supp[0])
      case Crash => None
      case Skip => Appended(names, supp[1..])
      case Add(key) =>
        var rest := Appended(names + {key}, supp[1..]);
        if rest.Some? then Some([supp[0]] + rest.value) else None
  }

  /** The whole script as a function of the two files. */
  function Merge(mainFile: FileState, supplementFile: FileState): Outcome {
    if mainFile.Absent? then MainFileMissing
    else if supplementFile.Absent? then SupplementFileMissing
    else if mainFile.Unparsable? || supplementFile.Unparsable? then DecodeError
    else
      var main := FlowersOf(mainFile.doc);
      if main.Crashed? then UnexpectedError
      else if main.Missing? || !main.val.JArr? then MainMalformed
      else
        var names := MainNames(main.val.items);
        if names.None? then UnexpectedError
        else
          var supp := FlowersOf(supplementFile.doc);
          if supp.Crashed? then UnexpectedError
          else if supp.Missing? || !supp.val.JArr? then SupplementMalformed
          else Finish(mainFile.doc.fields, main.val.items, Appended(names.value, supp.val.items))
  }

  /** The write decision once the loop has run. */
  function Finish(fields: seq<Field>, items: seq<Json>, added: Option<seq<Json>>): Outcome {
    if added.None? then UnexpectedError
    else if |added.value| == 0 then NothingAdded
    else Written(JObj(Set(fields, "flowers", JArr(items + added.value))), |added.value|)
  }

  /**
   * The script itself: after the checks, one pass over the supplement list
   * appends to the main list, grows the name set and counts.
   */
  method MergeFlowerData(mainFile: FileState, supplementFile: FileState) returns (outcome: Outcome)
    ensures outcome == Merge(mainFile, supplementFile)
    ensures outcome.Written? ==> outcome.added > 0
  {
    if mainFile.Absent? { return MainFileMissing; }
    if supplementFile.Absent? { return SupplementFileMissing; }
    if mainFile.Unparsable? || supplementFile.Unparsable? { return DecodeError; }
    var main := FlowersOf(mainFile.doc);
    if main.Crashed? { return UnexpectedError; }
    if main.Missing? || !main.val.JArr? { return MainMalformed; }
    var existing := MainNames(main.val.items);
    if existing.None? { return UnexpectedError; }
    var supp := FlowersOf(supplementFile.doc);
    if supp.Crashed? { return UnexpectedError; }
    if supp.Missing? || !supp.val.JArr? { return SupplementMalformed; }

    var ok, flowers, added := AppendNew(main.val.items, existing.value, supp.val.items);
    if !ok {
      outcome := UnexpectedError;
    } else if added > 0 {
      outcome := Written(JObj(Set(mainFile.doc.fields, "flowers", JArr(flowers))), added);
    } else {
      outcome := NothingAdded;
    }
  }

  /**
   * The merge loop: every supplement entry with a truthy name not yet in the
   * set is appended to the list, its name added to the set and the counter
   * incremented. `ok` is false when an iteration raises.
   */
  method AppendNew(items: seq<Json>, existing: set<Json>, entries: seq<Json>)
    returns (ok: bool, flowers: seq<Json>, added: nat)
    ensures ok <==> Appended(existing, entries).Some?
    ensures ok ==> flowers == items + Appended(existing, entries).value
    ensures ok ==> added == |flowers| - |items|
  {
    flowers := items;
    var names := existing;
    added := 0;
    for i := 0 to |entries|
      invariant added == |flowers| - |items|
      invariant flowers[..|items|] == items
      invariant Appended(existing, entries).Some? ==>
        Appended(names, entries[i..]).Some? &&
        Appended(existing, entries).value == flowers[|items|..] + Appended(names, entries[i..]).value
      invariant Appended(existing, entries).None? ==> Appended(names, entries[i..]).None?
    {
      assert entries[i..][1..] == entries[i + 1..];
      match StepFor(names, entries[i])
      case Crash =>
        assert Appended(names, entries[i..]).None?;
        return false, flowers, added;
      case Skip =>
      case Add(key) =>
        flowers := flowers + [entries[i]];
        names := names + {key};
        added := added + 1;
    }
    assert entries[|entries|..] == [];
    assert flowers == items + flowers[|items|..];
    ok := true;
  }

  /** `a` is `b` with some entries left out and the rest in their order. */
  predicate IsSubsequence(a: seq<Json>, b: seq<Json>)
    decreases |b|
  {
    if |a| == 0 then true
    else if |b| == 0 then false
    else (a[0] == b[0] && IsSubsequence(a[1..], b[1..])) || IsSubsequence(a, b[1..])
  }

  /** The name an appended or main entry is known by in the set. */
  function EntryKey(e: Json): Json
    requires NamedEntry(e)
  {
    NameKey(Get(e.fields, "name").value)
  }

  /** Appended entries come from the supplement, in supplement order. */
  lemma {:induction false} AppendedInOrder(names: set<Json>, supp: seq<Json>)
    requires Appended(names, supp).Some?
    ensures IsSubsequence(Appended(names, supp).value, supp)
    decreases |supp|
  {
    if |supp| > 0 {
      match StepFor(names, supp[0])
      case Skip =>
        AppendedInOrder(names, supp[1..]);
        SubsequenceOfTail(Appended(names, supp).value, supp);
      case Add(key) =>
        AppendedInOrder(names + {key}, supp[1..]);
    }
  }

  lemma SubsequenceOfTail(a: seq<Json>, b: seq<Json>)
    requires |b| > 0 && IsSubsequence(a, b[1..])
    ensures IsSubsequence(a, b)
  {
  }

  /**
   * Every appended entry has a truthy, hashable name; no appended name was in
   * the set beforehand, and no two appended entries share a name.
   */
  lemma {:induction false} AppendedNamesFresh(names: set<Json>, supp: seq<Json>)
    requires Appended(names, supp).Some?
    ensures forall k :: 0 <= k < |Appended(names, supp).value| ==>
      NamedEntry(Appended(names, supp).value[k])
      && PyTruthy(Get(Appended(names, supp).value[k].fields, "name").value)
      && EntryKey(Appended(names, supp).value[k]) !in names
    ensures forall j, k :: 0 <= j < k < |Appended(names, supp).value| ==>
      EntryKey(Appended(names, supp).value[j]) != EntryKey(Appended(names, supp).value[k])
    decreases |supp|
  {
    if |supp| > 0 {
      match StepFor(names, supp[0])
      case Skip =>
        AppendedNamesFresh(names, supp[1..]);
      case Add(key) =>
        AppendedNamesFresh(names + {key}, supp[1..]);
        var A := Appended(names, supp).value;
        assert A == [supp[0]] + Appended(names + {key}, supp[1..]).value;
        assert EntryKey(A[0]) == key;
    }
  }

  /** The name set of a concatenation is the union of the name sets. */
  lemma {:induction false} MainNamesConcat(a: seq<Json>, b: seq<Json>)
    requires MainNames(a).Some? && MainNames(b).Some?
    ensures MainNames(a + b) == Some(MainNames(a).value + MainNames(b).value)
  {
    if |a| > 0 {
      assert (a + b)[1..] == a[1..] + b;
      assert (a + b)[0] == a[0];
      assert MainNames(a[1..]).Some?;
      MainNamesConcat(a[1..], b);
      var k := NameKey(Get(a[0].fields, "name").value);
      assert MainNames(a + b).value == {k} + MainNames(a[1..] + b).value;
      assert MainNames(a).value == {k} + MainNames(a[1..]).value;
      assert {k} + (MainNames(a[1..]).value + MainNames(b).value)
          == ({k} + MainNames(a[1..]).value) + MainNames(b).value;
    } else {
      assert a + b == b;
      assert MainNames(a).value == {};
      assert MainNames(a + b) == MainNames(b);
      assert {} + MainNames(b).value == MainNames(b).value;
    }
  }

  /** Once every appended name is known, a second pass appends nothing. */
  lemma {:induction false} AppendedAgain(names: set<Json>, later: set<Json>, supp: seq<Json>)
    requires Appended(names, supp).Some?
    requires MainNames(Appended(names, supp).value).Some?
    requires names + MainNames(Appended(names, supp).value).value <= later
    ensures Appended(later, supp) == Some([])
    decreases |supp|
  {
    if |supp| > 0 {
      match StepFor(names, supp[0])
      case Skip =>
        AppendedAgain(names, later, supp[1..]);
      case Add(key) =>
        var rest := Appended(names + {key}, supp[1..]).value;
        assert Appended(names, supp).value == [supp[0]] + rest;
        assert Appended(names, supp).value[1..] == rest;
        assert MainNames(Appended(names, supp).value).value == {key} + MainNames(rest).value;
        AppendedAgain(names + {key}, later, supp[1..]);
    }
  }

  /** Running the script again on the file it wrote, with the same supplement, adds nothing. */
  lemma MergeIdempotent(mainFile: FileState, supplementFile: FileState)
    requires Merge(mainFile, supplementFile).Written?
    ensures Merge(Parsed(Merge(mainFile, supplementFile).doc), supplementFile) == NothingAdded
  {
    WrittenFlowers(mainFile, supplementFile);
    var main := FlowersOf(mainFile.doc);
    var names := MainNames(main.val.items).value;
    var supp := FlowersOf(supplementFile.doc).val.items;
    var A := Appended(names, supp).value;
    var items := main.val.items + A;
    AppendedNamesFresh(names, supp);
    assert MainNames(A).Some?;
    var later := names + MainNames(A).value;
    MainNamesConcat(main.val.items, A);
    AppendedAgain(names, later, supp);
    MergeAgainNothing(Merge(mainFile, supplementFile).doc, supplementFile, items, later);
  }

  /** What a written result holds: the main list followed by the appended entries. */
  lemma WrittenFlowers(mainFile: FileState, supplementFile: FileState)
    requires Merge(mainFile, supplementFile).Written?
    ensures mainFile.Parsed? && mainFile.doc.JObj? && supplementFile.Parsed?
    ensures FlowersOf(mainFile.doc).Found? && FlowersOf(mainFile.doc).val.JArr?
    ensures MainNames(FlowersOf(mainFile.doc).val.items).Some?
    ensures FlowersOf(supplementFile.doc).Found? && FlowersOf(supplementFile.doc).val.JArr?
    ensures
      var items := FlowersOf(mainFile.doc).val.items;
      var added := Appended(MainNames(items).value, FlowersOf(supplementFile.doc).val.items);
      var doc := Merge(mainFile, supplementFile).doc;
      added.Some? && doc.JObj? && FlowersOf(doc) == Found(JArr(items + added.value))
  {
  }

  /** A document whose list already names everything the supplement would add gets nothing added. */
  lemma MergeAgainNothing(doc: Json, supplementFile: FileState, items: seq<Json>, later: set<Json>)
    requires doc.JObj? && FlowersOf(doc) == Found(JArr(items)) && MainNames(items) == Some(later)
    requires supplementFile.Parsed?
    requires FlowersOf(supplementFile.doc).Found? && FlowersOf(supplementFile.doc).val.JArr?
    requires Appended(later, FlowersOf(supplementFile.doc).val.items) == Some([])
    ensures Merge(Parsed(doc), supplementFile) == NothingAdded
  {
  }

  /**
   * A written file keeps the main list as a prefix and appends exactly
   * `added` supplement entries after it, in supplement order.
   */
  lemma MergeWrittenShape(mainFile: FileState, supplementFile: FileState)
    requires Merge(mainFile, supplementFile).Written?
    ensures mainFile.Parsed? && mainFile.doc.JObj? && supplementFile.Parsed?
    ensures FlowersOf(mainFile.doc).Found? && FlowersOf(mainFile.doc).val.JArr?
    ensures FlowersOf(supplementFile.doc).Found? && FlowersOf(supplementFile.doc).val.JArr?
    ensures
      var out := Merge(mainFile, supplementFile);
      var before := FlowersOf(mainFile.doc).val.items;
      var after := FlowersOf(out.doc);
      after.Found? && after.val.JArr? && |after.val.items| == |before| + out.added
      && after.val.items[..|before|] == before
      && IsSubsequence(after.val.items[|before|..], FlowersOf(supplementFile.doc).val.items)
  {
    var main := FlowersOf(mainFile.doc);
    var names := MainNames(main.val.items).value;
    var supp := FlowersOf(supplementFile.doc).val.items;
    var A := Appended(names, supp).value;
    AppendedInOrder(names, supp);
    assert (main.val.items + A)[|main.val.items|..] == A;
  }

  /** A main entry that has no `name` makes the set construction raise: nothing is written. */
  lemma MissingMainNameAborts(mainFile: FileState, supplementFile: FileState, i: nat)
    requires mainFile.Parsed? && supplementFile.Parsed?
    requires FlowersOf(mainFile.doc).Found? && FlowersOf(mainFile.doc).val.JArr?
    requires i < |FlowersOf(mainFile.doc).val.items|
    requires FlowersOf(mainFile.doc).val.items[i].JObj?
    requires !HasKey(FlowersOf(mainFile.doc).val.items[i].fields, "name")
    ensures Merge(mainFile, supplementFile) == UnexpectedError
  {
  }
}
