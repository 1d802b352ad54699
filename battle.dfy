/**
 * The battle page's roster (pages/battle.tsx): character files are checked,
 * repaired where a known layout mistake allows it, and added to a roster of
 * at most four combatants, either one preset at a time or as a batch from
 * uploaded files or pasted text. Fetching, file reading and `JSON.parse`
 * are inputs.
 */
module Battle {
  import opened Wrappers
  import opened JsText
  import opened Json

  const AppearanceFields: seq<string> := ["outfit", "accessories", "colorScheme", "overallLook"]
  const ConstructFields: seq<string> := ["name", "form", "basicAbilities", "description"]
  const RuleFields: seq<string> := ["name", "description", "tendency", "activation"]
  const BloomingFields: seq<string> := ["name", "evolvedAbilities", "evolvedForm", "evolvedOutfit", "powerLevel"]
  const AnalysisFields: seq<string> := ["personalityAnalysis", "abilityReasoning", "coreTraits", "predictionBasis"]

  /** `MAGICAL_GIRL_CORE_FIELDS`: each parent with the children it must hold, in declared order. */
  const MagicalGirlCoreFields: seq<(string, seq<string>)> := [
    ("appearance", AppearanceFields), ("magicConstruct", ConstructFields), ("wonderlandRule", RuleFields),
    ("blooming", BloomingFields), ("analysis", AnalysisFields)
  ]

  /** `CANSHOU_CORE_FIELDS`. */
  const CanshouCoreFields: seq<string> := [
    "name", "coreConcept", "coreEmotion", "evolutionStage", "appearance",
    "materialAndSkin", "featuresAndAppendages", "attackMethod", "specialAbility",
    "origin", "birthEnvironment", "researcherNotes"
  ]

  const MaxCombatants: nat := 4

  datatype Kind = MagicalGirl | Canshou

  /** A roster entry; `filename` is `item.codename || item.name` (or the preset's file name). */
  datatype Combatant = Combatant(kind: Kind, data: Json, filename: Option<Json>)

  // ---------------------------------------------------------------------
  // Messages the page shows

  function MissingCodenameMessage(filename: string): string {
    "❌ 文件 \"" + filename + "\" 格式不规范，缺少必需的 \"codename\" 字段。"
  }

  function MissingParentMessage(filename: string, parent: string): string {
    "❌ 文件 \"" + filename + "\" 格式不规范，缺少必需的 \"" + parent + "\" 字段或其部分子字段。"
  }

  function WarningLine(parent: string): string {
    "检测到缺失的顶层项目 \"" + parent + "\"，但其子项目齐全，已自动兼容。\n"
  }

  /** The mark the page uses to tell a repair warning from an error. */
  const WarningMark: string := "✔️"

  function RepairWarning(filename: string, lines: string): string {
    WarningMark + (" 文件 \"" + filename + "\" 已加载，但格式稍有不规范:\n" + Trim(lines))
  }

  function MissingCanshouFieldMessage(filename: string, field: string): string {
    "❌ 残兽文件 \"" + filename + "\" 格式不规范，缺少必需的 \"" + field + "\" 字段。"
  }

  const RosterFullMessage: string := "最多只能选择 4 位参战者。"
  const OverCapacityMessage: string := "队伍将超出4人上限！"

  /** The engine's message for reading a property of `null`. */
  function NullReadMessage(property: string): string {
    "Cannot read properties of null (reading '" + property + "')"
  }

  function UnrecognisedMessage(shown: string): string {
    "文件 \"" + shown + "\" 无法识别为魔法少女或残兽。"
  }

  // ---------------------------------------------------------------------
  // validateMagicalGirlData (lines 160-204)

  /** What a validator reports: the outcome, the (possibly repaired) data and the last message it set. */
  datatype Check = Check(success: bool, wasCorrected: bool, data: seq<Field>, message: Option<string>)

  /** `childKeys.every(childKey => data[childKey] !== undefined)`. */
  predicate AllPresent(data: seq<Field>, keys: seq<string>) {
    forall i :: 0 <= i < |keys| ==> HasKey(data, keys[i])
  }

  /** The properties of `data[parent]`, when it is an object. */
  function ParentFields(data: seq<Field>, parent: string): seq<Field> {
    var p := Get(data, parent);
    if p.Some? && p.value.JObj? then p.value.fields else []
  }

  /** One step of the move: `data[parent][child] = data[child]; delete data[child]`. */
  function MoveOne(data: seq<Field>, parent: string, child: string): seq<Field> {
    Delete(Set(data, parent, JObj(Assign(ParentFields(data, parent), child, Get(data, child)))), child)
  }

  function MoveFrom(data: seq<Field>, parent: string, children: seq<string>): seq<Field>
    decreases |children|
  {
    if |children| == 0 then data else MoveFrom(MoveOne(data, parent, children[0]), parent, children[1..])
  }

  /** `data[parent] = {}` followed by the moves. */
  function Repair(data: seq<Field>, parent: string, children: seq<string>): seq<Field> {
    MoveFrom(Set(data, parent, JObj([])), parent, children)
  }

  /** The loop of lines 175-197, run over the remaining parents. */
  datatype RepairOutcome =
    | Repaired(data: seq<Field>, lines: string, corrected: bool)
    | RepairFailed(parent: string, data: seq<Field>)

  function RepairFrom(data: seq<Field>, parents: seq<(string, seq<string>)>, lines: string, corrected: bool)
    : RepairOutcome
    decreases |parents|
  {
    if |parents| == 0 then Repaired(data, lines, corrected)
    else
      var (parent, children) := parents[0];
      if HasKey(data, parent) then RepairFrom(data, parents[1..], lines, corrected)
      else if AllPresent(data, children) then
        RepairFrom(Repair(data, parent, children), parents[1..], lines + WarningLine(parent), true)
      else RepairFailed(parent, data)
  }

  /** `data.codename` is a non-empty string. */
  predicate HasCodename(data: seq<Field>) {
    var c := Get(data, "codename");
    c.Some? && c.value.JStr? && c.value.s != ""
  }

  /** The legacy layout: truthy `name` and `construct`. */
  predicate IsLegacy(data: seq<Field>) {
    TruthyOpt(Get(data, "name")) && TruthyOpt(Get(data, "construct"))
  }

  /** What `validateMagicalGirlData` computes. */
  function MagicalGirlCheck(data: seq<Field>, filename: string): Check {
    if IsLegacy(data) then Check(true, false, Set(data, "codename", Get(data, "name").value), None)
    else if !HasCodename(data) then Check(false, false, data, Some(MissingCodenameMessage(filename)))
    else
      match RepairFrom(data, MagicalGirlCoreFields, "", false)
      case RepairFailed(parent, d) => Check(false, false, d, Some(MissingParentMessage(filename, parent)))
      case Repaired(d, lines, corrected) =>
        Check(true, corrected, d, if lines != "" then Some(RepairWarning(filename, lines)) else None)
  }

  /** A legacy file is accepted as it is, with `codename` copied from `name`. */
  lemma LegacyAccepted(data: seq<Field>, filename: string)
    requires IsLegacy(data)
    ensures var c := MagicalGirlCheck(data, filename);
      c.success && !c.wasCorrected && c.message.None?
      && Get(c.data, "codename") == Get(data, "name")
      && forall k :: k != "codename" ==> Get(c.data, k) == Get(data, k)
  {
  }

  /** A current-format file without a non-empty string `codename` is rejected with that message. */
  lemma CodenameRequired(data: seq<Field>, filename: string)
    requires !IsLegacy(data) && !HasCodename(data)
    ensures MagicalGirlCheck(data, filename) == Check(false, false, data, Some(MissingCodenameMessage(filename)))
  {
  }

  /** The inner loop of lines 186-190. */
  method MoveChildren(data: seq<Field>, parent: string, children: seq<string>) returns (moved: seq<Field>)
    ensures moved == Repair(data, parent, children)
  {
    moved := Set(data, parent, JObj([]));
    for j := 0 to |children|
      invariant MoveFrom(moved, parent, children[j..]) == Repair(data, parent, children)
    {
      assert children[j..][1..] == children[j + 1..];
      moved := MoveOne(moved, parent, children[j]);
    }
  }

  /** `validateMagicalGirlData`, repairing in place. */
  method ValidateMagicalGirl(data: seq<Field>, filename: string) returns (check: Check)
    ensures check == MagicalGirlCheck(data, filename)
  {
    if IsLegacy(data) {
      return Check(true, false, Set(data, "codename", Get(data, "name").value), None);
    }
    if !HasCodename(data) {
      return Check(false, false, data, Some(MissingCodenameMessage(filename)));
    }
    var outcome := RepairParents(data, MagicalGirlCoreFields);
    match outcome
    case RepairFailed(parent, d) =>
      check := Check(false, false, d, Some(MissingParentMessage(filename, parent)));
    case Repaired(d, lines, corrected) =>
      check := Check(true, corrected, d, if lines != "" then Some(RepairWarning(filename, lines)) else None);
  }

  /** The loop of lines 175-197: each missing parent is rebuilt from its children, or the loop stops. */
  method RepairParents(data: seq<Field>, parents: seq<(string, seq<string>)>) returns (outcome: RepairOutcome)
    ensures outcome == RepairFrom(data, parents, "", false)
  {
    var d, lines, corrected := data, "", false;
    for i := 0 to |parents|
      invariant RepairFrom(d, parents[i..], lines, corrected) == RepairFrom(data, parents, "", false)
    {
      assert parents[i..][1..] == parents[i + 1..];
      var (parent, children) := parents[i];
      if !HasKey(d, parent) {
        if AllPresent(d, children) {
          corrected := true;
          lines := lines + WarningLine(parent);
          d := MoveChildren(d, parent, children);
        } else {
          return RepairFailed(parent, d);
        }
      }
    }
    outcome := Repaired(d, lines, corrected);
  }

  predicate Distinct(keys: seq<string>) {
    forall i, j :: 0 <= i < j < |keys| ==> keys[i] != keys[j]
  }

  /** One move, seen from the property `k`: the child joins the parent object and leaves the top level. */
  lemma MoveOneAt(data: seq<Field>, parent: string, child: string, k: string)
    requires child != parent
    ensures Get(MoveOne(data, parent, child), parent)
      == Some(JObj(Assign(ParentFields(data, parent), child, Get(data, child))))
    ensures k == child ==> Get(MoveOne(data, parent, child), k) == None
    ensures k != parent && k != child ==> Get(MoveOne(data, parent, child), k) == Get(data, k)
  {
  }

  /**
   * Moving distinct children into an existing parent object, seen from the
   * property `k`: a child ends up in the parent with its value from the top
   * level and is gone from the top level; the parent keeps whatever else it
   * held; every other property is unchanged.
   */
  lemma {:induction false} MoveFromAt(data: seq<Field>, parent: string, children: seq<string>, k: string)
    requires Distinct(children) && parent !in children
    requires Get(data, parent).Some? && Get(data, parent).value.JObj?
    ensures Get(MoveFrom(data, parent, children), parent).Some?
    ensures Get(MoveFrom(data, parent, children), parent).value.JObj?
    ensures k in children ==> Get(ParentFields(MoveFrom(data, parent, children), parent), k) == Get(data, k)
    ensures k in children ==> Get(MoveFrom(data, parent, children), k) == None
    ensures k !in children ==>
      Get(ParentFields(MoveFrom(data, parent, children), parent), k) == Get(ParentFields(data, parent), k)
    ensures k != parent && k !in children ==> Get(MoveFrom(data, parent, children), k) == Get(data, k)
    decreases |children|
  {
    if |children| > 0 {
      var c := children[0];
      var tail := children[1..];
      assert children == [c] + tail;
      assert Distinct(tail);
      assert c !in tail by {
        forall i | 0 <= i < |tail| ensures tail[i] != c {
          assert tail[i] == children[i + 1];
        }
      }
      MoveOneAt(data, parent, c, k);
      MoveFromAt(MoveOne(data, parent, c), parent, tail, k);
    }
  }

  /** `MoveFromAt` for every property at once. */
  lemma MoveFromEffect(data: seq<Field>, parent: string, children: seq<string>)
    requires Distinct(children) && parent !in children
    requires Get(data, parent).Some? && Get(data, parent).value.JObj?
    ensures var r := MoveFrom(data, parent, children);
      Get(r, parent).Some? && Get(r, parent).value.JObj?
      && (forall k :: k in children ==> Get(ParentFields(r, parent), k) == Get(data, k) && !HasKey(r, k))
      && (forall k :: k !in children ==> Get(ParentFields(r, parent), k) == Get(ParentFields(data, parent), k))
      && (forall k :: k != parent && k !in children ==> Get(r, k) == Get(data, k))
  {
    MoveFromAt(data, parent, children, parent);
    forall k {
      MoveFromAt(data, parent, children, k);
    }
  }

  /** A repair, seen from the property `k`. */
  lemma RepairAt(data: seq<Field>, parent: string, children: seq<string>, k: string)
    requires Distinct(children) && parent !in children
    ensures Get(Repair(data, parent, children), parent).Some?
    ensures Get(Repair(data, parent, children), parent).value.JObj?
    ensures k in children ==> Get(ParentFields(Repair(data, parent, children), parent), k) == Get(data, k)
    ensures k in children ==> Get(Repair(data, parent, children), k) == None
    ensures k !in children ==> Get(ParentFields(Repair(data, parent, children), parent), k) == None
    ensures k != parent && k !in children ==> Get(Repair(data, parent, children), k) == Get(data, k)
  {
    var start := Set(data, parent, JObj([]));
    MoveFromAt(start, parent, children, k);
  }

  /**
   * A repair of a missing parent: the new parent holds exactly its children
   * with their values from the top level, they are gone from the top level,
   * and the other properties are untouched.
   */
  lemma RepairEffect(data: seq<Field>, parent: string, children: seq<string>)
    requires Distinct(children) && parent !in children
    ensures var r := Repair(data, parent, children);
      Get(r, parent).Some? && Get(r, parent).value.JObj?
      && (forall k :: k in children ==> Get(ParentFields(r, parent), k) == Get(data, k) && !HasKey(r, k))
      && (forall k :: k !in children ==> !HasKey(ParentFields(r, parent), k))
      && (forall k :: k != parent && k !in children ==> Get(r, k) == Get(data, k))
  {
    RepairAt(data, parent, children, parent);
    forall k {
      RepairAt(data, parent, children, k);
    }
  }

  /** A file with every core parent present passes unchanged. */
  lemma {:induction false} CompleteFilesPassUnchanged(data: seq<Field>, parents: seq<(string, seq<string>)>,
                                                      lines: string, corrected: bool)
    requires forall i :: 0 <= i < |parents| ==> HasKey(data, parents[i].0)
    ensures RepairFrom(data, parents, lines, corrected) == Repaired(data, lines, corrected)
    decreases |parents|
  {
    if |parents| > 0 {
      CompleteFilesPassUnchanged(data, parents[1..], lines, corrected);
    }
  }

  /**
   * The construct and the wonderland rule share the children `name` and
   * `description`: once a missing `magicConstruct` has been rebuilt those are
   * gone, so a file missing both parents is always rejected.
   */
  lemma SharedChildrenBlockSecondRepair(data: seq<Field>, filename: string)
    requires !IsLegacy(data) && HasCodename(data)
    requires !HasKey(data, "magicConstruct") && !HasKey(data, "wonderlandRule")
    ensures !MagicalGirlCheck(data, filename).success
  {
    var parents := MagicalGirlCoreFields;
    assert Distinct(parents[0].1) && parents[0].0 !in parents[0].1;
    assert "magicConstruct" !in parents[0].1 && "wonderlandRule" !in parents[0].1;
    SecondAndThirdClash(parents[1..]);
    FirstThenClashFails(data, parents);
  }

  lemma FirstThenClashFails(data: seq<Field>, parents: seq<(string, seq<string>)>)
    requires |parents| > 0 && Clashing(parents[1..])
    requires Distinct(parents[0].1) && parents[0].0 !in parents[0].1
    requires "magicConstruct" !in parents[0].1 && "wonderlandRule" !in parents[0].1
    requires parents[0].0 != "magicConstruct" && parents[0].0 != "wonderlandRule"
    requires !HasKey(data, "magicConstruct") && !HasKey(data, "wonderlandRule")
    ensures RepairFrom(data, parents, "", false).RepairFailed?
  {
    var first := parents[0].0;
    var children := parents[0].1;
    if HasKey(data, first) {
      RepairFromPresent(data, parents, "", false);
      ConstructThenRuleFails(data, parents[1..], "", false);
    } else if AllPresent(data, children) {
      RepairFromMissing(data, parents, "", false);
      RepairKeepsClash(data, first, children);
      ConstructThenRuleFails(Repair(data, first, children), parents[1..], "" + WarningLine(first), true);
    }
  }

  lemma RepairKeepsClash(data: seq<Field>, first: string, children: seq<string>)
    requires Distinct(children) && first !in children
    requires "magicConstruct" !in children && "wonderlandRule" !in children
    requires first != "magicConstruct" && first != "wonderlandRule"
    requires !HasKey(data, "magicConstruct") && !HasKey(data, "wonderlandRule")
    ensures !HasKey(Repair(data, first, children), "magicConstruct")
    ensures !HasKey(Repair(data, first, children), "wonderlandRule")
  {
    RepairAt(data, first, children, "magicConstruct");
    RepairAt(data, first, children, "wonderlandRule");
  }

  /** The facts about the construct and rule entries the clash needs. */
  predicate Clashing(parents: seq<(string, seq<string>)>) {
    |parents| >= 2 && parents[0].0 == "magicConstruct" && parents[1].0 == "wonderlandRule"
    && Distinct(parents[0].1) && "magicConstruct" !in parents[0].1 && "wonderlandRule" !in parents[0].1
    && |parents[0].1| > 0 && |parents[1].1| > 0 && parents[1].1[0] == parents[0].1[0]
  }

  lemma SecondAndThirdClash(parents: seq<(string, seq<string>)>)
    requires parents == MagicalGirlCoreFields[1..]
    ensures Clashing(parents)
  {
    assert parents[0] == ("magicConstruct", ConstructFields) && parents[1] == ("wonderlandRule", RuleFields);
  }

  lemma ConstructThenRuleFails(data: seq<Field>, parents: seq<(string, seq<string>)>, lines: string, corrected: bool)
    requires Clashing(parents)
    requires !HasKey(data, "magicConstruct") && !HasKey(data, "wonderlandRule")
    ensures RepairFrom(data, parents, lines, corrected).RepairFailed?
  {
    var construct := parents[0].0;
    var children := parents[0].1;
    if AllPresent(data, children) {
      RepairFromMissing(data, parents, lines, corrected);
      var d := Repair(data, construct, children);
      RepairAt(data, construct, children, children[0]);
      RepairAt(data, construct, children, "wonderlandRule");
      assert children[0] in children;
      FirstParentFails(d, parents[1..], lines + WarningLine(construct), children[0]);
    }
  }

  /** One step of the repair loop over a missing parent whose children are all present. */
  lemma RepairFromMissing(data: seq<Field>, parents: seq<(string, seq<string>)>, lines: string, corrected: bool)
    requires |parents| > 0 && !HasKey(data, parents[0].0) && AllPresent(data, parents[0].1)
    ensures RepairFrom(data, parents, lines, corrected)
      == RepairFrom(Repair(data, parents[0].0, parents[0].1), parents[1..], lines + WarningLine(parents[0].0), true)
  {
  }

  /** One step of the repair loop over a parent that is present. */
  lemma RepairFromPresent(data: seq<Field>, parents: seq<(string, seq<string>)>, lines: string, corrected: bool)
    requires |parents| > 0 && HasKey(data, parents[0].0)
    ensures RepairFrom(data, parents, lines, corrected) == RepairFrom(data, parents[1..], lines, corrected)
  {
  }

  lemma FirstParentFails(data: seq<Field>, parents: seq<(string, seq<string>)>, lines: string, child: string)
    requires |parents| > 0 && |parents[0].1| > 0 && parents[0].1[0] == child
    requires !HasKey(data, child) && !HasKey(data, parents[0].0)
    ensures RepairFrom(data, parents, lines, true).RepairFailed?
  {
    assert !AllPresent(data, parents[0].1);
  }

  // ---------------------------------------------------------------------
  // validateCanshouData (lines 207-214)

  /** `fields.find(field => data[field] === undefined)`. */
  function FirstMissing(data: seq<Field>, fields: seq<string>): (r: Option<string>)
    ensures r.None? <==> AllPresent(data, fields)
    ensures r.Some? ==>
      exists i :: 0 <= i < |fields| && fields[i] == r.value && !HasKey(data, r.value) && AllPresent(data, fields[..i])
  {
    if |fields| == 0 then None
    else if !HasKey(data, fields[0]) then
      assert fields[..0] == [];
      Some(fields[0])
    else
      var r := FirstMissing(data, fields[1..]);
      assert AllPresent(data, fields) <==> AllPresent(data, fields[1..]) by {
        if AllPresent(data, fields[1..]) {
          forall i | 0 <= i < |fields| ensures HasKey(data, fields[i]) {
            if i > 0 {
              assert fields[i] == fields[1..][i - 1];
            }
          }
        }
      }
      if r.Some? then
        assert exists i :: (0 <= i < |fields| && fields[i] == r.value && !HasKey(data, r.value)
                            && AllPresent(data, fields[..i])) by {
          var i :| 0 <= i < |fields[1..]| && fields[1..][i] == r.value && !HasKey(data, r.value)
            && AllPresent(data, fields[1..][..i]);
          assert fields[..i + 1] == [fields[0]] + fields[1..][..i];
        }
        r
      else r
  }

  /**
   * `validateCanshouData`: every core field present passes; otherwise the
   * first missing one in `CANSHOU_CORE_FIELDS` order is named. Nothing is
   * ever repaired.
   */
  function CanshouCheck(data: seq<Field>, filename: string): (r: Check)
    ensures r.success <==> AllPresent(data, CanshouCoreFields)
    ensures r.success <==> r.message.None?
    ensures !r.wasCorrected && r.data == data
    ensures !r.success ==>
      exists i :: 0 <= i < |CanshouCoreFields| && !HasKey(data, CanshouCoreFields[i])
        && AllPresent(data, CanshouCoreFields[..i])
        && r.message == Some(MissingCanshouFieldMessage(filename, CanshouCoreFields[i]))
  {
    match FirstMissing(data, CanshouCoreFields)
    case Some(field) => Check(false, false, data, Some(MissingCanshouFieldMessage(filename, field)))
    case None => Check(true, false, data, None)
  }

  // ---------------------------------------------------------------------
  // processJsonData (lines 257-300), one item at a time

  /** `item.codename || item.name`. */
  function FileLabel(fields: seq<Field>): Option<Json> {
    var c := Get(fields, "codename");
    if TruthyOpt(c) then c else Get(fields, "name")
  }

  /** `x || fallback` rendered into a message. */
  function LabelOr(v: Option<Json>, fallback: string): string {
    if TruthyOpt(v) then JsString(v.value) else fallback
  }

  /** A value used as a property name (`undefined` becomes `"undefined"`). */
  function PropertyKey(v: Option<Json>): string {
    if v.Some? then JsString(v.value) else "undefined"
  }

  /** The kind lines 270-271 detect: a truthy `codename`, else a truthy `evolutionStage`. */
  function DetectKind(fields: seq<Field>): Option<Kind> {
    if TruthyOpt(Get(fields, "codename")) then Some(MagicalGirl)
    else if TruthyOpt(Get(fields, "evolutionStage")) then Some(Canshou)
    else None
  }

  datatype ItemResult =
    | ItemThrown(message: string)
    | ItemRejected(message: string)
    | ItemLoaded(combatant: Combatant, correctedName: Option<string>, warning: Option<string>)

  /**
   * One pass of the loop body. Reading a property of `null` throws; any
   * other value that is not an object has neither property and is
   * unrecognised.
   */
  function ItemStep(item: Json, sourceName: string): ItemResult {
    match item
    case JNull => ItemThrown(NullReadMessage("codename"))
    case JObj(fields) => ObjectStep(fields, sourceName)
    case _ => ItemThrown(UnrecognisedMessage(sourceName))
  }

  function ObjectStep(fields: seq<Field>, sourceName: string): ItemResult {
    match DetectKind(fields)
    case None => ItemThrown(UnrecognisedMessage(LabelOr(Get(fields, "name"), sourceName)))
    case Some(MagicalGirl) =>
      var check := MagicalGirlCheck(fields, LabelOr(Get(fields, "codename"), sourceName));
      if !check.success then ItemRejected(check.message.GetOr(""))
      else
        ItemLoaded(Combatant(MagicalGirl, JObj(check.data), FileLabel(check.data)),
          if check.wasCorrected then Some(PropertyKey(Get(check.data, "codename"))) else None,
          check.message)
    case Some(Canshou) =>
      var check := CanshouCheck(fields, LabelOr(Get(fields, "name"), sourceName));
      if !check.success then ItemRejected(check.message.GetOr(""))
      else ItemLoaded(Combatant(Canshou, JObj(fields), FileLabel(fields)), None, None)
  }

  /** What the loop has gathered so far. */
  datatype Batch = Batch(loaded: seq<Combatant>, corrected: set<string>, warning: Option<string>)

  /** Adds one loaded item; the last warning set is the one that remains. */
  function Absorb(acc: Batch, c: Combatant, correctedName: Option<string>, warning: Option<string>): Batch {
    Batch(acc.loaded + [c],
      if correctedName.Some? then acc.corrected + {correctedName.value} else acc.corrected,
      if warning.Some? then warning else acc.warning)
  }

  datatype Outcome = Thrown(message: string) | Rejected(message: string) | Loaded(batch: Batch)

  function ProcessItems(items: seq<Json>, sourceName: string, acc: Batch): Outcome
    decreases |items|
  {
    if |items| == 0 then Loaded(acc)
    else
      match ItemStep(items[0], sourceName)
      case ItemThrown(m) => Thrown(m)
      case ItemRejected(m) => Rejected(m)
      case ItemLoaded(c, name, w) => ProcessItems(items[1..], sourceName, Absorb(acc, c, name, w))
  }

  /** `processJsonData` on a roster of `count` combatants. */
  function ProcessJsonDataResult(count: nat, items: seq<Json>, sourceName: string): Outcome {
    if |items| > MaxCombatants - count then Thrown(OverCapacityMessage)
    else ProcessItems(items, sourceName, Batch([], {}, None))
  }

  /** A loaded item was an object of the kind it was detected as. */
  lemma ItemLoadedKind(item: Json, sourceName: string)
    requires ItemStep(item, sourceName).ItemLoaded?
    ensures item.JObj? && DetectKind(item.fields) == Some(ItemStep(item, sourceName).combatant.kind)
  {
  }

  /** A batch that loads holds one combatant per item, in input order, of the detected kind. */
  lemma {:induction false} ProcessItemsLoaded(items: seq<Json>, sourceName: string, acc: Batch)
    requires ProcessItems(items, sourceName, acc).Loaded?
    ensures var out := ProcessItems(items, sourceName, acc).batch.loaded;
      |out| == |acc.loaded| + |items| && out[..|acc.loaded|] == acc.loaded
      && forall i :: 0 <= i < |items| ==>
           items[i].JObj? && DetectKind(items[i].fields) == Some(out[|acc.loaded| + i].kind)
    decreases |items|
  {
    if |items| > 0 {
      var step := ItemStep(items[0], sourceName);
      ItemLoadedKind(items[0], sourceName);
      var acc' := Absorb(acc, step.combatant, step.correctedName, step.warning);
      ProcessItemsLoaded(items[1..], sourceName, acc');
      var out := ProcessItems(items, sourceName, acc).batch.loaded;
      assert out == ProcessItems(items[1..], sourceName, acc').batch.loaded;
      assert out[..|acc'.loaded|][..|acc.loaded|] == out[..|acc.loaded|];
      forall i | 0 <= i < |items|
        ensures items[i].JObj? && DetectKind(items[i].fields) == Some(out[|acc.loaded| + i].kind)
      {
        if i == 0 {
          assert out[|acc.loaded|] == out[..|acc'.loaded|][|acc.loaded|] == acc'.loaded[|acc.loaded|];
        } else {
          assert items[i] == items[1..][i - 1];
        }
      }
    }
  }

  /** A loaded batch never makes the roster larger than four. */
  lemma LoadedFits(count: nat, items: seq<Json>, sourceName: string)
    requires count <= MaxCombatants
    requires ProcessJsonDataResult(count, items, sourceName).Loaded?
    ensures count + |ProcessJsonDataResult(count, items, sourceName).batch.loaded| <= MaxCombatants
  {
    ProcessItemsLoaded(items, sourceName, Batch([], {}, None));
  }

  // ---------------------------------------------------------------------
  // The warning after a repair (lines 199-202 and 297-299)

  /**
   * As written: the test on line 297 reads `error` as it was before the
   * call, so unless that already was a repair warning the warning the call
   * just set is replaced by `null`.
   */
  function ErrorAfterLoadAsWritten(before: Option<string>, batch: Batch): Option<string> {
    if before.Some? && StartsWith(before.value, WarningMark) then (if batch.warning.Some? then batch.warning else before)
    else None
  }

  /** As intended: the last repair warning of this load stays visible, and a clean load clears the line. */
  function ErrorAfterLoad(batch: Batch): Option<string> {
    batch.warning
  }

  /** The warning a loaded item carries is a repair warning. */
  lemma ItemWarningMarked(item: Json, sourceName: string)
    requires ItemStep(item, sourceName).ItemLoaded? && ItemStep(item, sourceName).warning.Some?
    ensures StartsWith(ItemStep(item, sourceName).warning.value, WarningMark)
  {
    var fields := item.fields;
    var filename := LabelOr(Get(fields, "codename"), sourceName);
    assert ItemStep(item, sourceName).warning == MagicalGirlCheck(fields, filename).message;
    CheckWarningMarked(fields, filename);
  }

  lemma CheckWarningMarked(data: seq<Field>, filename: string)
    requires MagicalGirlCheck(data, filename).message.Some? && MagicalGirlCheck(data, filename).success
    ensures StartsWith(MagicalGirlCheck(data, filename).message.value, WarningMark)
  {
    var lines := RepairFrom(data, MagicalGirlCoreFields, "", false).lines;
    RepairWarningMarked(filename, lines);
  }

  lemma RepairWarningMarked(filename: string, lines: string)
    ensures StartsWith(RepairWarning(filename, lines), WarningMark)
  {
    StartsWithPrefix(WarningMark, " 文件 \"" + filename + "\" 已加载，但格式稍有不规范:\n" + Trim(lines));
  }

  /** Every warning a batch carries starts with the warning mark. */
  lemma {:induction false} BatchWarningsMarked(items: seq<Json>, sourceName: string, acc: Batch)
    requires acc.warning.Some? ==> StartsWith(acc.warning.value, WarningMark)
    requires ProcessItems(items, sourceName, acc).Loaded?
    ensures var w := ProcessItems(items, sourceName, acc).batch.warning;
      w.Some? ==> StartsWith(w.value, WarningMark)
    decreases |items|
  {
    if |items| > 0 {
      var step := ItemStep(items[0], sourceName);
      if step.warning.Some? {
        ItemWarningMarked(items[0], sourceName);
      }
      BatchWarningsMarked(items[1..], sourceName, Absorb(acc, step.combatant, step.correctedName, step.warning));
    }
  }

  /** A magical girl whose `appearance` is spread over the top level. */
  const LooseAppearance: seq<Field> := [
    Field("codename", JStr("A")),
    Field("outfit", JNull), Field("accessories", JNull), Field("colorScheme", JNull), Field("overallLook", JNull),
    Field("magicConstruct", JNull), Field("wonderlandRule", JNull), Field("blooming", JNull), Field("analysis", JNull)]

  /** A current-format file whose `appearance` children sit at the top level. */
  predicate SpreadAppearance(f: seq<Field>) {
    !IsLegacy(f) && HasCodename(f) && !HasKey(f, "appearance")
    && HasKey(f, "outfit") && HasKey(f, "accessories") && HasKey(f, "colorScheme") && HasKey(f, "overallLook")
    && HasKey(f, "magicConstruct") && HasKey(f, "wonderlandRule") && HasKey(f, "blooming") && HasKey(f, "analysis")
  }

  lemma LooseAppearanceIsSpread()
    ensures SpreadAppearance(LooseAppearance)
  {
    LooseAppearanceHead();
    LooseAppearanceKeys();
  }

  lemma LooseAppearanceHead()
    ensures !IsLegacy(LooseAppearance) && HasCodename(LooseAppearance) && !HasKey(LooseAppearance, "appearance")
  {
    forall i | 0 <= i < |LooseAppearance|
      ensures LooseAppearance[i].key != "name" && LooseAppearance[i].key != "appearance"
    {
    }
    assert Get(LooseAppearance, "codename") == Some(JStr("A"));
  }

  /** The example file has the four appearance children and the four other parents at the top level. */
  lemma LooseAppearanceKeys()
    ensures HasKey(LooseAppearance, "outfit") && HasKey(LooseAppearance, "accessories")
    ensures HasKey(LooseAppearance, "colorScheme") && HasKey(LooseAppearance, "overallLook")
    ensures HasKey(LooseAppearance, "magicConstruct") && HasKey(LooseAppearance, "wonderlandRule")
    ensures HasKey(LooseAppearance, "blooming") && HasKey(LooseAppearance, "analysis")
  {
    assert Get(LooseAppearance, "outfit").Some? && Get(LooseAppearance, "accessories").Some?;
    assert Get(LooseAppearance, "colorScheme").Some? && Get(LooseAppearance, "overallLook").Some?;
    assert Get(LooseAppearance, "magicConstruct").Some? && Get(LooseAppearance, "wonderlandRule").Some?;
    assert Get(LooseAppearance, "blooming").Some? && Get(LooseAppearance, "analysis").Some?;
  }

  /** Such a file is accepted, with a warning. */
  lemma SpreadAppearanceRepaired(f: seq<Field>, filename: string)
    requires SpreadAppearance(f)
    ensures MagicalGirlCheck(f, filename).success
    ensures MagicalGirlCheck(f, filename).message.Some?
  {
    SpreadAppearanceFits(f);
    RepairOnlyFirst(f, MagicalGirlCoreFields);
    assert "" + WarningLine(MagicalGirlCoreFields[0].0) != "";
  }

  /** The first entry is the one repaired; the others are present. */
  predicate OnlyFirstMissing(f: seq<Field>, parents: seq<(string, seq<string>)>) {
    |parents| > 0 && !HasKey(f, parents[0].0) && AllPresent(f, parents[0].1)
    && Distinct(parents[0].1) && parents[0].0 !in parents[0].1
    && forall i :: 1 <= i < |parents| ==>
         HasKey(f, parents[i].0) && parents[i].0 != parents[0].0 && parents[i].0 !in parents[0].1
  }

  lemma SpreadAppearanceFits(f: seq<Field>)
    requires SpreadAppearance(f)
    ensures OnlyFirstMissing(f, MagicalGirlCoreFields)
  {
    var parents := MagicalGirlCoreFields;
    assert parents[0] == ("appearance", AppearanceFields);
    var ks := AppearanceFields;
    assert ks[0] == "outfit" && ks[1] == "accessories" && ks[2] == "colorScheme" && ks[3] == "overallLook";
    assert parents[1].0 == "magicConstruct" && parents[2].0 == "wonderlandRule";
    assert parents[3].0 == "blooming" && parents[4].0 == "analysis" && |parents| == 5;
  }

  /** When only the first parent is missing and can be rebuilt, the loop ends after that one repair. */
  lemma RepairOnlyFirst(f: seq<Field>, parents: seq<(string, seq<string>)>)
    requires OnlyFirstMissing(f, parents)
    ensures RepairFrom(f, parents, "", false)
      == Repaired(Repair(f, parents[0].0, parents[0].1), "" + WarningLine(parents[0].0), true)
  {
    RepairFromMissing(f, parents, "", false);
    var d := Repair(f, parents[0].0, parents[0].1);
    var rest := parents[1..];
    forall i | 0 <= i < |rest| ensures HasKey(d, rest[i].0) {
      assert rest[i] == parents[i + 1];
      RepairAt(f, parents[0].0, parents[0].1, rest[i].0);
    }
    CompleteFilesPassUnchanged(d, rest, "" + WarningLine(parents[0].0), true);
  }

  /**
   * Loading such a file onto a page with no message repairs it and
   * produces a warning, yet the page as written ends with no message at all.
   */
  lemma RepairWarningLostAsWritten(f: seq<Field>, sourceName: string)
    requires SpreadAppearance(f)
    ensures var out := ProcessJsonDataResult(0, [JObj(f)], sourceName);
      out.Loaded? && out.batch.warning.Some? && ErrorAfterLoadAsWritten(None, out.batch) == None
  {
    SpreadItemLoads(f, sourceName);
    SingleItemLoads(JObj(f), sourceName);
  }

  lemma SpreadItemLoads(f: seq<Field>, sourceName: string)
    requires SpreadAppearance(f)
    ensures ItemStep(JObj(f), sourceName).ItemLoaded? && ItemStep(JObj(f), sourceName).warning.Some?
  {
    SpreadIsMagicalGirl(f);
    SpreadAppearanceRepaired(f, LabelOr(Get(f, "codename"), sourceName));
    MagicalGirlItemLoads(f, sourceName);
  }

  lemma SpreadIsMagicalGirl(f: seq<Field>)
    requires SpreadAppearance(f)
    ensures DetectKind(f) == Some(MagicalGirl)
  {
  }

  lemma MagicalGirlItemLoads(f: seq<Field>, sourceName: string)
    requires DetectKind(f) == Some(MagicalGirl)
    requires MagicalGirlCheck(f, LabelOr(Get(f, "codename"), sourceName)).success
    requires MagicalGirlCheck(f, LabelOr(Get(f, "codename"), sourceName)).message.Some?
    ensures ItemStep(JObj(f), sourceName).ItemLoaded? && ItemStep(JObj(f), sourceName).warning.Some?
  {
    assert ItemStep(JObj(f), sourceName) == ObjectStep(f, sourceName);
  }

  /** A single item that loads makes a batch of its own. */
  lemma SingleItemLoads(item: Json, sourceName: string)
    requires ItemStep(item, sourceName).ItemLoaded?
    ensures var step := ItemStep(item, sourceName);
      ProcessJsonDataResult(0, [item], sourceName)
        == Loaded(Absorb(Batch([], {}, None), step.combatant, step.correctedName, step.warning))
  {
    var items := [item];
    var step := ItemStep(item, sourceName);
    assert items[0] == item && items[1..] == [];
    assert ProcessItems(items, sourceName, Batch([], {}, None))
      == ProcessItems([], sourceName, Absorb(Batch([], {}, None), step.combatant, step.correctedName, step.warning));
  }

  /** The file `LooseAppearance` is such an input. */
  lemma LooseAppearanceWarningLost()
    ensures var out := ProcessJsonDataResult(0, [JObj(LooseAppearance)], "x");
      out.Loaded? && out.batch.warning.Some? && ErrorAfterLoadAsWritten(None, out.batch) == None
  {
    LooseAppearanceIsSpread();
    RepairWarningLostAsWritten(LooseAppearance, "x");
  }

  /** With the intended rule, a load that repaired a file shows that repair's warning. */
  lemma RepairWarningShown(count: nat, items: seq<Json>, sourceName: string)
    requires ProcessJsonDataResult(count, items, sourceName).Loaded?
    ensures var shown := ErrorAfterLoad(ProcessJsonDataResult(count, items, sourceName).batch);
      shown.Some? ==> StartsWith(shown.value, WarningMark)
  {
    BatchWarningsMarked(items, sourceName, Batch([], {}, None));
  }

  /** With the intended rule, such a file leaves its repair warning on screen. */
  lemma RepairWarningKept(f: seq<Field>, sourceName: string)
    requires SpreadAppearance(f)
    ensures var out := ProcessJsonDataResult(0, [JObj(f)], sourceName);
      out.Loaded? && ErrorAfterLoad(out.batch).Some? && StartsWith(ErrorAfterLoad(out.batch).value, WarningMark)
  {
    RepairWarningLostAsWritten(f, sourceName);
    RepairWarningShown(0, [JObj(f)], sourceName);
  }

  // ---------------------------------------------------------------------
  // Repairing pasted text (lines 322-343)

  /** The number of leading `\s` characters. */
  function LeadingSpace(s: string): (n: nat)
    ensures n <= |s|
    decreases |s|
  {
    if |s| > 0 && IsJsWhitespace(s[0]) then 1 + LeadingSpace(s[1..]) else 0
  }

  /** The leading run is all white space, and what follows it is not. */
  lemma {:induction false} LeadingSpaceRun(s: string)
    ensures forall i :: 0 <= i < LeadingSpace(s) ==> IsJsWhitespace(s[i])
    ensures LeadingSpace(s) < |s| ==> !IsJsWhitespace(s[LeadingSpace(s)])
    decreases |s|
  {
    if |s| > 0 && IsJsWhitespace(s[0]) {
      LeadingSpaceRun(s[1..]);
    }
  }

  /** A `}\s*{` starts at the head of `s`. */
  predicate JoinsAt(s: string)
    requires |s| > 0
  {
    s[0] == '}' && 1 + LeadingSpace(s[1..]) < |s| && s[1 + LeadingSpace(s[1..])] == '{'
  }

  /** `text.replace(/}\s*{/g, '},{')`. */
  function ReplaceBraces(s: string): string
    decreases |s|
  {
    if |s| == 0 then ""
    else if JoinsAt(s) then "},{" + ReplaceBraces(s[2 + LeadingSpace(s[1..])..])
    else [s[0]] + ReplaceBraces(s[1..])
  }

  /** Text without a closing brace is left alone. */
  lemma {:induction false} ReplaceBracesNoBrace(s: string)
    requires forall i :: 0 <= i < |s| ==> s[i] != '}'
    ensures ReplaceBraces(s) == s
    decreases |s|
  {
    if |s| > 0 {
      ReplaceBracesNoBrace(s[1..]);
    }
  }

  /** Two objects separated by white space become two list elements. */
  lemma ReplaceBracesJoins(space: string, rest: string)
    requires forall i :: 0 <= i < |space| ==> IsJsWhitespace(space[i])
    ensures ReplaceBraces("}" + space + "{" + rest) == "},{" + ReplaceBraces(rest)
  {
    var tail := ['{'] + rest;
    var s := ['}'] + (space + tail);
    assert "}" + space + "{" + rest == s;
    assert !IsJsWhitespace('{');
    LeadingSpaceOf(space, tail);
    assert s[1..] == space + tail;
    assert s[1 + |space|] == '{';
    assert s[2 + |space|..] == rest;
  }

  lemma {:induction false} LeadingSpaceOf(space: string, rest: string)
    requires forall i :: 0 <= i < |space| ==> IsJsWhitespace(space[i])
    requires |rest| > 0 && !IsJsWhitespace(rest[0])
    ensures LeadingSpace(space + rest) == |space|
    decreases |space|
  {
    if |space| > 0 {
      assert (space + rest)[1..] == space[1..] + rest;
      LeadingSpaceOf(space[1..], rest);
    } else {
      assert space + rest == rest;
    }
  }

  /** The first character survives the replacement. */
  lemma ReplaceBracesFirst(s: string)
    requires |s| > 0
    ensures |ReplaceBraces(s)| > 0 && ReplaceBraces(s)[0] == s[0]
  {
  }

  /** Leading white space is copied unchanged. */
  lemma {:induction false} ReplaceBracesSpace(space: string, rest: string)
    requires forall i :: 0 <= i < |space| ==> IsJsWhitespace(space[i])
    ensures ReplaceBraces(space + rest) == space + ReplaceBraces(rest)
    decreases |space|
  {
    if |space| > 0 {
      assert !IsJsWhitespace('}');
      assert (space + rest)[1..] == space[1..] + rest;
      ReplaceBracesSpace(space[1..], rest);
      assert [space[0]] + (space[1..] + ReplaceBraces(rest)) == space + ReplaceBraces(rest);
    } else {
      assert space + rest == rest;
    }
  }

  /** A character other than `}` is copied as it is. */
  lemma ReplaceBracesCopy(c: char, t: string)
    requires c != '}'
    ensures ReplaceBraces([c] + t) == [c] + ReplaceBraces(t)
  {
    assert ([c] + t)[1..] == t;
  }

  /** Text the replacement already produced is not changed by a second pass. */
  lemma {:induction false} ReplaceBracesIdempotent(s: string)
    ensures ReplaceBraces(ReplaceBraces(s)) == ReplaceBraces(s)
    decreases |s|
  {
    if |s| > 0 {
      if JoinsAt(s) {
        var rest := s[2 + LeadingSpace(s[1..])..];
        ReplaceBracesIdempotent(rest);
        ReplaceBracesJoinStep(s);
        ReplaceBracesJoined(ReplaceBraces(rest));
      } else if s[0] != '}' {
        ReplaceBracesIdempotent(s[1..]);
        ReplaceBracesStep(s);
        ReplaceBracesCopy(s[0], ReplaceBraces(s[1..]));
      } else {
        var n := LeadingSpace(s[1..]);
        ClosingParts(s);
        ReplaceBracesIdempotent(s[1 + n..]);
        ReplaceBracesUnjoinedTwice(s[1..1 + n], s[1 + n..]);
      }
    }
  }

  /** Where `}\s*{` starts, it becomes `},{`. */
  lemma ReplaceBracesJoinStep(s: string)
    requires |s| > 0 && JoinsAt(s)
    ensures ReplaceBraces(s) == "},{" + ReplaceBraces(s[2 + LeadingSpace(s[1..])..])
  {
    var k := 2 + LeadingSpace(s[1..]);
    assert k <= |s|;
    var r := ReplaceBraces(s);
    assert r == "},{" + ReplaceBraces(s[k..]);
  }

  /**
   * A `}` that starts no `}\s*{` is that brace, the white space after it,
   * and a rest that opens with neither white space nor `{`.
   */
  lemma ClosingParts(s: string)
    requires |s| > 0 && s[0] == '}' && !JoinsAt(s)
    ensures var n := LeadingSpace(s[1..]);
      var space := s[1..1 + n];
      var t := s[1 + n..];
      s == "}" + space + t
      && (forall i :: 0 <= i < |space| ==> IsJsWhitespace(space[i]))
      && (|t| > 0 ==> !IsJsWhitespace(t[0]) && t[0] != '{')
  {
    var n := LeadingSpace(s[1..]);
    var space := s[1..1 + n];
    var t := s[1 + n..];
    LeadingSpaceRun(s[1..]);
    assert forall i :: 0 <= i < |space| ==> space[i] == s[1..][i];
    assert |t| > 0 ==> t[0] == s[1..][n];
    assert s == [s[0]] + s[1..];
    assert s[1..] == space + t;
    assert "}" + space + t == ['}'] + (space + t);
  }

  /** A `},{` the replacement wrote stays as it is. */
  lemma ReplaceBracesJoined(x: string)
    ensures ReplaceBraces("},{" + x) == "},{" + ReplaceBraces(x)
  {
    var open := ['{'] + x;
    var rest := [','] + open;
    var out := ['}'] + rest;
    assert out == "},{" + x;
    assert ReplaceBraces(out) == ['}'] + ReplaceBraces(rest) by {
      assert out[1..] == rest;
      assert LeadingSpace(rest) == 0 by {
        assert !IsJsWhitespace(',');
      }
      ReplaceBracesStep(out);
    }
    assert ReplaceBraces(rest) == [','] + (['{'] + ReplaceBraces(x)) by {
      ReplaceBracesCopy(',', open);
      ReplaceBracesCopy('{', x);
    }
    assert ['}'] + ([','] + (['{'] + ReplaceBraces(x))) == "},{" + ReplaceBraces(x);
  }

  /** A `}` whose white space is not followed by `{` is copied with that white space. */
  lemma ReplaceBracesUnjoined(space: string, t: string)
    requires forall i :: 0 <= i < |space| ==> IsJsWhitespace(space[i])
    requires |t| > 0 ==> !IsJsWhitespace(t[0]) && t[0] != '{'
    ensures ReplaceBraces("}" + space + t) == "}" + space + ReplaceBraces(t)
  {
    var s := "}" + space + t;
    DropOpening("}", space, t);
    UnjoinedHead(space, t);
    ReplaceBracesSpace(space, t);
    CopyClosing(s, space + t, ReplaceBraces(t), space);
  }

  /** Dropping a one-character opening leaves the rest. */
  lemma DropOpening(c: string, a: string, b: string)
    requires |c| == 1
    ensures (c + a + b)[1..] == a + b
  {
  }

  /** Unfolding one copied `}`: the rest of the text is replaced on its own. */
  lemma CopyClosing(s: string, tail: string, r: string, space: string)
    requires |s| > 0 && s[0] == '}' && !JoinsAt(s) && s[1..] == tail
    requires ReplaceBraces(tail) == space + r
    ensures ReplaceBraces(s) == "}" + space + r
  {
    ReplaceBracesStep(s);
    assert "}" + space + r == ['}'] + (space + r);
  }

  /** After `}` and its white space comes something other than `{`. */
  lemma UnjoinedHead(space: string, t: string)
    requires forall i :: 0 <= i < |space| ==> IsJsWhitespace(space[i])
    requires |t| > 0 ==> !IsJsWhitespace(t[0]) && t[0] != '{'
    ensures !JoinsAt("}" + space + t)
  {
    var s := "}" + space + t;
    assert s[1..] == space + t;
    if |t| > 0 {
      LeadingSpaceOf(space, t);
      assert s[1 + |space|] == t[0];
    }
  }

  /** Where no `}\s*{` starts, the first character is copied. */
  lemma ReplaceBracesStep(s: string)
    requires |s| > 0
    requires !JoinsAt(s)
    ensures ReplaceBraces(s) == [s[0]] + ReplaceBraces(s[1..])
  {
  }

  /** The second pass over an unjoined `}` changes nothing when it changes nothing after it. */
  lemma ReplaceBracesUnjoinedTwice(space: string, t: string)
    requires forall i :: 0 <= i < |space| ==> IsJsWhitespace(space[i])
    requires |t| > 0 ==> !IsJsWhitespace(t[0]) && t[0] != '{'
    requires ReplaceBraces(ReplaceBraces(t)) == ReplaceBraces(t)
    ensures ReplaceBraces(ReplaceBraces("}" + space + t)) == ReplaceBraces("}" + space + t)
  {
    ReplaceBracesUnjoined(space, t);
    if |t| > 0 {
      ReplaceBracesFirst(t);
    }
    ReplaceBracesUnjoined(space, ReplaceBraces(t));
  }

  /** What the paste handler hands to `processJsonData`: an array's elements, or the single value. */
  function AsItems(parsed: Json): seq<Json> {
    if parsed.JArr? then parsed.items else [parsed]
  }

  // ---------------------------------------------------------------------
  // The roster

  /** A preset as `/api/get-presets` lists it. */
  datatype Preset = Preset(name: string, kind: Kind, filename: string)

  /** One uploaded file: whether its MIME type is JSON, its name and what parsing its text gives. */
  datatype Upload = Upload(isJson: bool, name: string, parsed: Result<Json, string>)

  class Roster {
    var combatants: seq<Combatant>
    /** The message line; `None` is `null`. */
    var error: Option<string>
    /** `correctedFiles`: the codenames whose files were repaired. */
    var correctedFiles: set<string>
    /** The paste box. */
    var pastedJson: string

    ghost predicate Valid()
      reads this
    {
      |combatants| <= MaxCombatants
    }

    constructor ()
      ensures Valid()
      ensures combatants == [] && error == None && correctedFiles == {} && pastedJson == ""
    {
      combatants, error, correctedFiles, pastedJson := [], None, {}, "";
    }

    /** `addCombatant`: refused once four are selected. */
    method AddCombatant(c: Combatant)
      requires Valid()
      modifies this
      ensures Valid()
      ensures |old(combatants)| >= MaxCombatants ==> combatants == old(combatants) && error == Some(RosterFullMessage)
      ensures |old(combatants)| < MaxCombatants ==> combatants == old(combatants) + [c] && error == None
      ensures correctedFiles == old(correctedFiles) && pastedJson == old(pastedJson)
    {
      if |combatants| >= MaxCombatants {
        error := Some(RosterFullMessage);
        return;
      }
      combatants := combatants + [c];
      error := None;
    }

    /**
     * `handleSelectPreset`: a selected preset is removed; otherwise the
     * fetched file (a failure carries the message of what the fetch or the
     * parse threw) is checked, marked as a preset and added.
     */
    method SelectPreset(preset: Preset, fetched: Result<Json, string>)
      requires Valid()
      modifies this
      ensures Valid()
      ensures correctedFiles == old(correctedFiles) && pastedJson == old(pastedJson)
      ensures (exists i :: 0 <= i < |old(combatants)| && old(combatants)[i].filename == Some(JStr(preset.filename)))
        ==> error == None && combatants == Without(old(combatants), preset.filename)
      ensures !(exists i :: 0 <= i < |old(combatants)| && old(combatants)[i].filename == Some(JStr(preset.filename)))
        ==> var o := PresetOutcome(preset, fetched);
          (o.Failure? ==> combatants == old(combatants) && error == o.error)
          && (o.Success? && |old(combatants)| < MaxCombatants ==> combatants == old(combatants) + [o.value] && error == None)
          && (o.Success? && |old(combatants)| >= MaxCombatants ==>
                combatants == old(combatants) && error == Some(RosterFullMessage))
    {
      if exists i :: 0 <= i < |combatants| && combatants[i].filename == Some(JStr(preset.filename)) {
        combatants := Without(combatants, preset.filename);
        error := None;
        return;
      }
      if fetched.Failure? {
        error := Some(fetched.error);
        return;
      }
      var data := fetched.value;
      if !data.JObj? {
        // `null` throws a TypeError; any other non-object fails the checks
        error := Some(if data.JNull? then NullReadMessage("name") else PresetRejectedMessage(preset));
        return;
      }
      var check: Check;
      if preset.kind == MagicalGirl {
        check := ValidateMagicalGirl(data.fields, preset.name);
      } else {
        check := CanshouCheck(data.fields, preset.name);
      }
      if !check.success {
        error := check.message;
        return;
      }
      var marked := Set(check.data, "isPreset", JBool(true));
      AddCombatant(Combatant(preset.kind, JObj(marked), Some(JStr(preset.filename))));
    }

    /**
     * `processJsonData`: all items are added, in order, or none is. A thrown
     * error is left to the caller's message; a rejected item leaves the
     * checker's message; a load ends with the intended message.
     */
    method ProcessJsonData(items: seq<Json>, sourceName: string) returns (outcome: Outcome)
      requires Valid()
      modifies this
      ensures Valid()
      ensures outcome == ProcessJsonDataResult(|old(combatants)|, items, sourceName)
      ensures outcome.Loaded? ==>
        (combatants == old(combatants) + outcome.batch.loaded
         && correctedFiles == old(correctedFiles) + outcome.batch.corrected
         && error == ErrorAfterLoad(outcome.batch))
      ensures outcome.Rejected? ==>
        (combatants == old(combatants) && correctedFiles == old(correctedFiles) && error == Some(outcome.message))
      ensures outcome.Thrown? ==>
        (combatants == old(combatants) && correctedFiles == old(correctedFiles) && error == old(error))
      ensures pastedJson == old(pastedJson)
    {
      if |items| > MaxCombatants - |combatants| {
        return Thrown(OverCapacityMessage);
      }
      var acc := Batch([], {}, None);
      for i := 0 to |items|
        invariant ProcessItems(items[i..], sourceName, acc) == ProcessItems(items, sourceName, Batch([], {}, None))
        invariant combatants == old(combatants) && correctedFiles == old(correctedFiles)
        invariant error == old(error) && pastedJson == old(pastedJson)
      {
        assert items[i..][1..] == items[i + 1..];
        var item := items[i];
        if !item.JObj? {
          return Thrown(if item.JNull? then NullReadMessage("codename") else UnrecognisedMessage(sourceName));
        }
        var fields := item.fields;
        match DetectKind(fields) {
          case None =>
            return Thrown(UnrecognisedMessage(LabelOr(Get(fields, "name"), sourceName)));
          case Some(MagicalGirl) =>
            var check := ValidateMagicalGirl(fields, LabelOr(Get(fields, "codename"), sourceName));
            if !check.success {
              error := Some(check.message.GetOr(""));
              return Rejected(check.message.GetOr(""));
            }
            var name := if check.wasCorrected then Some(PropertyKey(Get(check.data, "codename"))) else None;
            acc := Absorb(acc, Combatant(MagicalGirl, JObj(check.data), FileLabel(check.data)), name, check.message);
          case Some(Canshou) =>
            var check := CanshouCheck(fields, LabelOr(Get(fields, "name"), sourceName));
            if !check.success {
              error := Some(check.message.GetOr(""));
              return Rejected(check.message.GetOr(""));
            }
            acc := Absorb(acc, Combatant(Canshou, item, FileLabel(fields)), None, None);
        }
      }
      assert items[|items|..] == [];
      LoadedFits(|combatants|, items, sourceName);
      combatants := combatants + acc.loaded;
      correctedFiles := correctedFiles + acc.corrected;
      error := ErrorAfterLoad(acc);
      outcome := Loaded(acc);
    }

    /**
     * `handleAddFromPaste`: blank text does nothing; otherwise the parsed
     * items go to `processJsonData` and the box is emptied unless that throws.
     */
    method AddFromPaste(parse: string -> Result<Json, string>)
      requires Valid()
      modifies this
      ensures Valid()
      ensures Trim(old(pastedJson)) == "" ==> (combatants == old(combatants) && error == old(error)
        && pastedJson == old(pastedJson) && correctedFiles == old(correctedFiles))
      ensures Trim(old(pastedJson)) != "" ==>
        PasteEffect(ParsePasted(Trim(old(pastedJson)), parse), |old(combatants)|, old(combatants), combatants,
          error, pastedJson, old(correctedFiles), correctedFiles)
    {
      var text := Trim(pastedJson);
      if text == "" {
        return;
      }
      var parsed := parse(text);
      if parsed.Failure? {
        parsed := parse("[" + ReplaceBraces(text) + "]");
      }
      assert parsed == ParsePasted(text, parse);
      AddParsed(parsed);
    }

    /** The rest of `handleAddFromPaste`, once the pasted text is parsed (or failed to parse). */
    method AddParsed(parsed: Result<Json, string>)
      requires Valid() && pastedJson != ""
      modifies this
      ensures Valid()
      ensures PasteEffect(parsed, |old(combatants)|, old(combatants), combatants, error, pastedJson,
        old(correctedFiles), correctedFiles)
    {
      if parsed.Failure? {
        error := Some(PasteFailedMessage(parsed.error));
        return;
      }
      var outcome := ProcessJsonData(AsItems(parsed.value), PastedSource);
      if outcome.Thrown? {
        error := Some(PasteFailedMessage(outcome.message));
        return;
      }
      pastedJson := "";
    }

    /**
     * `handleFileChange`: a file whose type is not JSON, or one that fails
     * to parse, stops the upload; otherwise every parsed file goes to
     * `processJsonData`.
     */
    method AddFiles(files: seq<Upload>)
      requires Valid()
      modifies this
      ensures Valid()
      ensures pastedJson == old(pastedJson)
      ensures FirstUploadError(files).Some? ==>
        (combatants == old(combatants) && error == Some(UploadFailedMessage(FirstUploadError(files).value))
          && correctedFiles == old(correctedFiles))
      ensures FirstUploadError(files).None? ==>
        LoadEffect(ProcessJsonDataResult(|old(combatants)|, Parsed(files), UploadedSource), old(combatants),
          combatants, error, UploadFailedMessage, old(correctedFiles), correctedFiles)
    {
      var problem := FirstUploadError(files);
      if problem.Some? {
        error := Some(UploadFailedMessage(problem.value));
        return;
      }
      var outcome := ProcessJsonData(Parsed(files), UploadedSource);
      if outcome.Thrown? {
        error := Some(UploadFailedMessage(outcome.message));
      }
    }

    /** `handleClearRoster`. */
    method Clear()
      modifies this
      ensures Valid()
      ensures combatants == [] && error == None && correctedFiles == {} && pastedJson == old(pastedJson)
    {
      combatants, error, correctedFiles := [], None, {};
    }
  }

  /** `prev.filter(c => c.filename !== preset.filename)`. */
  function Without(cs: seq<Combatant>, filename: string): (r: seq<Combatant>)
    ensures |r| <= |cs|
    ensures forall i :: 0 <= i < |r| ==> r[i].filename != Some(JStr(filename)) && r[i] in cs
    ensures forall i :: 0 <= i < |cs| && cs[i].filename != Some(JStr(filename)) ==> cs[i] in r
    ensures (exists i :: 0 <= i < |cs| && cs[i].filename == Some(JStr(filename))) ==> |r| < |cs|
  {
    if |cs| == 0 then []
    else
      var rest := Without(cs[1..], filename);
      assert forall i :: 1 <= i < |cs| ==> cs[i] == cs[1..][i - 1];
      if cs[0].filename == Some(JStr(filename)) then rest else [cs[0]] + rest
  }

  const PastedSource: string := "粘贴的内容"
  const UploadedSource: string := "上传的文件"

  /** What a call of `processJsonData` leaves, when the caller prefixes a thrown message with `wrap`. */
  predicate LoadEffect(outcome: Outcome, before: seq<Combatant>, after: seq<Combatant>, error: Option<string>,
                       wrap: string -> string, correctedBefore: set<string>, correctedAfter: set<string>)
  {
    (outcome.Loaded? ==>
      after == before + outcome.batch.loaded && error == ErrorAfterLoad(outcome.batch)
      && correctedAfter == correctedBefore + outcome.batch.corrected)
    && (outcome.Rejected? ==> after == before && error == Some(outcome.message) && correctedAfter == correctedBefore)
    && (outcome.Thrown? ==> after == before && error == Some(wrap(outcome.message)) && correctedAfter == correctedBefore)
  }

  /** `JSON.parse(text)`, or on failure the parse of the text with its objects joined into a list. */
  function ParsePasted(text: string, parse: string -> Result<Json, string>): Result<Json, string> {
    if parse(text).Success? then parse(text) else parse("[" + ReplaceBraces(text) + "]")
  }

  /** What pasting non-blank text leaves. */
  predicate PasteEffect(parsed: Result<Json, string>, count: nat, before: seq<Combatant>, after: seq<Combatant>,
                        error: Option<string>, box: string, correctedBefore: set<string>, correctedAfter: set<string>)
  {
    (parsed.Failure? ==>
      after == before && error == Some(PasteFailedMessage(parsed.error)) && correctedAfter == correctedBefore)
    && (parsed.Success? ==>
          var outcome := ProcessJsonDataResult(count, AsItems(parsed.value), PastedSource);
          LoadEffect(outcome, before, after, error, PasteFailedMessage, correctedBefore, correctedAfter)
          && (box == "" <==> !outcome.Thrown?))
  }

  /**
   * What a preset that is not yet selected comes to: the combatant to add,
   * or the message the page is left with (the fetch's or the check's).
   */
  function PresetOutcome(preset: Preset, fetched: Result<Json, string>): (r: Result<Combatant, Option<string>>)
    ensures fetched.Failure? ==> r == Failure(Some(fetched.error))
    ensures r.Success? ==>
      (fetched.Success? && fetched.value.JObj?
        && r.value.kind == preset.kind && r.value.filename == Some(JStr(preset.filename))
        && r.value.data.JObj? && Get(r.value.data.fields, "isPreset") == Some(JBool(true)))
  {
    if fetched.Failure? then Failure(Some(fetched.error))
    else if !fetched.value.JObj? then
      // `null` throws a TypeError; any other non-object fails the checks
      Failure(Some(if fetched.value.JNull? then NullReadMessage("name") else PresetRejectedMessage(preset)))
    else
      var fields := fetched.value.fields;
      var check := if preset.kind == MagicalGirl then MagicalGirlCheck(fields, preset.name) else CanshouCheck(fields, preset.name);
      if !check.success then Failure(check.message)
      else Success(Combatant(preset.kind, JObj(Set(check.data, "isPreset", JBool(true))), Some(JStr(preset.filename))))
  }

  /** The message a rejected preset leaves. */
  function PresetRejectedMessage(preset: Preset): string {
    if preset.kind == MagicalGirl then MissingCodenameMessage(preset.name)
    else MissingCanshouFieldMessage(preset.name, CanshouCoreFields[0])
  }

  function PasteFailedMessage(message: string): string {
    "❌ 文本解析失败: " + message + "."
  }

  function UploadFailedMessage(message: string): string {
    "❌ 文件处理失败: " + message
  }

  function NotJsonMessage(name: string): string {
    "文件 \"" + name + "\" 不是有效的 JSON 文件。"
  }

  /** The error that stops an upload: a non-JSON file first, else the first parse failure. */
  function FirstUploadError(files: seq<Upload>): Option<string> {
    var nonJson := FirstNonJson(files);
    if nonJson.Some? then Some(NotJsonMessage(nonJson.value)) else FirstParseError(files)
  }

  function FirstNonJson(files: seq<Upload>): Option<string> {
    if |files| == 0 then None
    else if !files[0].isJson then Some(files[0].name)
    else FirstNonJson(files[1..])
  }

  function FirstParseError(files: seq<Upload>): Option<string> {
    if |files| == 0 then None
    else if files[0].parsed.Failure? then Some(files[0].parsed.error)
    else FirstParseError(files[1..])
  }

  /** The parsed files, once none failed. */
  function Parsed(files: seq<Upload>): seq<Json> {
    if |files| == 0 then []
    else (if files[0].parsed.Success? then [files[0].parsed.value] else []) + Parsed(files[1..])
  }
}
