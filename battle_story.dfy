/**
 * The battle report endpoint (pages/api/generate-battle-story.ts): the
 * request checks, the prompt assembled from the fighters' profiles, and the
 * statistics update that runs after the report is returned. The AI call,
 * the journalist draw, the clock and the way each database query ends are
 * inputs.
 */
module BattleStory {
  import opened Wrappers
  import opened JsText
  import opened Json
  import Arena
  import DataCards
  import Journalist

  /** The winner the report names when nobody won. */
  const Draw: string := "平局"

  // ---------------------------------------------------------------------
  // Statistics update
  // ---------------------------------------------------------------------

  /** `p.codename || p.name`, when that value is text. */
  function ParticipantName(p: Json): Option<string> {
    var codename := Member(Some(p), "codename");
    var v := if TruthyOpt(codename) then codename else Member(Some(p), "name");
    if v.Some? && v.value.JStr? then Some(v.value.s) else None
  }

  /** What the update reads from one participant: its name and `!!p.isPreset`. */
  datatype Entry = Entry(name: Option<string>, isPreset: bool)

  function EntryOf(p: Json): Entry {
    Entry(ParticipantName(p), TruthyOpt(Member(Some(p), "isPreset")))
  }

  function Entries(participants: seq<Json>): (entries: seq<Entry>)
    ensures |entries| == |participants|
    ensures forall k :: 0 <= k < |participants| ==> entries[k] == EntryOf(participants[k])
  {
    seq(|participants|, k requires 0 <= k < |participants| => EntryOf(participants[k]))
  }

  /** The first `i` participants have text names. */
  predicate NamedUpTo(entries: seq<Entry>, i: nat) {
    i <= |entries| && forall k :: 0 <= k < i ==> entries[k].name.Some?
  }

  /** How many leading participants have a text name. */
  function FirstUnnamed(entries: seq<Entry>, from: nat): (f: nat)
    requires from <= |entries|
    ensures from <= f <= |entries|
    ensures forall k :: from <= k < f ==> entries[k].name.Some?
    ensures f < |entries| ==> entries[f].name.None?
    decreases |entries| - from
  {
    if from == |entries| || entries[from].name.None? then from else FirstUnnamed(entries, from + 1)
  }

  /**
   * One participant: insert-or-ignore its row, then count the battle for
   * it: a win when its name is the winner's, a loss when the report names
   * a winner, only a participation on a draw.
   */
  function Take(chars: seq<Arena.Character>, winnerName: string, e: Entry): seq<Arena.Character>
    requires e.name.Some?
  {
    Arena.UpdateStats(Arena.InsertIgnore(chars, e.name.value, e.isPreset),
                      e.name.value, e.name.value == winnerName, winnerName != Draw)
  }

  /** The characters table after the first `i` participants, in order. */
  function Tally(chars: seq<Arena.Character>, winnerName: string, entries: seq<Entry>, i: nat): seq<Arena.Character>
    requires NamedUpTo(entries, i)
  {
    if i == 0 then chars
    else Take(Tally(chars, winnerName, entries, i - 1), winnerName, entries[i - 1])
  }

  /** The battle row: the winner and every participant's name in input order. */
  function BattleRow(battles: seq<Arena.Battle>, winnerName: string, entries: seq<Entry>, now: int): Arena.Battle
    requires NamedUpTo(entries, |entries|)
  {
    Arena.Battle(|battles| + 1, winnerName,
                 seq(|entries|, k requires 0 <= k < |entries| => entries[k].name.value), now)
  }

  /**
   * How many of the `2n + 1` queries take effect: two per participant, then
   * the battle row. A name that is not text is refused by the database at
   * its insert; `failAt` is the first query the database fails (a value past
   * the last query when none fails). A
   * query that throws ends the update.
   */
  function Reached(entries: seq<Entry>, failAt: nat): (s: nat)
    ensures s <= 2 * |entries| + 1
  {
    var f := FirstUnnamed(entries, 0);
    var reach := if f < |entries| then 2 * f else 2 * |entries| + 1;
    if failAt < reach then failAt else reach
  }

  datatype Db = Db(characters: seq<Arena.Character>, battles: seq<Arena.Battle>)

  /** The tables after the first `Reached` queries. */
  function Counted(db: Db, winnerName: string, entries: seq<Entry>, now: int, failAt: nat): Db {
    var s := Reached(entries, failAt);
    var n := |entries|;
    if s == 2 * n + 1 then
      Db(Tally(db.characters, winnerName, entries, n), db.battles + [BattleRow(db.battles, winnerName, entries, now)])
    else if s % 2 == 0 then Db(Tally(db.characters, winnerName, entries, s / 2), db.battles)
    else
      var e := entries[s / 2];
      Db(Arena.InsertIgnore(Tally(db.characters, winnerName, entries, s / 2), e.name.value, e.isPreset), db.battles)
  }

  /**
   * What the tables hold once `updateBattleStats` has ended, normally or by
   * a caught error. A `null` participant throws before the first query
   * (reading its `codename`).
   */
  function Updated(db: Db, winnerName: string, participants: seq<Json>, now: int, failAt: nat): Db {
    if JNull in participants then db else Counted(db, winnerName, Entries(participants), now, failAt)
  }

  /** A participant without a text name, or a failed insert, ends the update after `i` participants. */
  lemma CountedAtInsert(db: Db, winnerName: string, entries: seq<Entry>, now: int, failAt: nat, i: nat)
    requires i < |entries| && NamedUpTo(entries, i)
    requires 2 * i <= failAt
    requires entries[i].name.None? || failAt == 2 * i
    ensures Counted(db, winnerName, entries, now, failAt) == Db(Tally(db.characters, winnerName, entries, i), db.battles)
  {
    var f := FirstUnnamed(entries, 0);
    assert f >= i;
    assert entries[i].name.None? ==> f == i;
    var s := Reached(entries, failAt);
    assert s == 2 * i;
    assert s % 2 == 0 && s / 2 == i;
  }

  /** A failed counter update ends the update with participant `i` inserted but not counted. */
  lemma CountedAtCount(db: Db, winnerName: string, entries: seq<Entry>, now: int, failAt: nat, i: nat)
    requires i < |entries| && NamedUpTo(entries, i + 1)
    requires failAt == 2 * i + 1
    ensures Counted(db, winnerName, entries, now, failAt) ==
      Db(Arena.InsertIgnore(Tally(db.characters, winnerName, entries, i), entries[i].name.value, entries[i].isPreset),
         db.battles)
  {
    var f := FirstUnnamed(entries, 0);
    assert f > i;
    var s := Reached(entries, failAt);
    assert s == 2 * i + 1;
    assert s % 2 == 1 && s / 2 == i;
  }

  /** Every participant counted, then the battle row failed. */
  lemma CountedBeforeRow(db: Db, winnerName: string, entries: seq<Entry>, now: int)
    requires NamedUpTo(entries, |entries|)
    ensures Counted(db, winnerName, entries, now, 2 * |entries|) ==
      Db(Tally(db.characters, winnerName, entries, |entries|), db.battles)
  {
    var f := FirstUnnamed(entries, 0);
    assert f == |entries|;
    var s := Reached(entries, 2 * |entries|);
    assert s == 2 * |entries|;
    assert s % 2 == 0 && s / 2 == |entries|;
  }

  /** Every query went through: every participant counted and the battle row appended. */
  lemma CountedComplete(db: Db, winnerName: string, entries: seq<Entry>, now: int, failAt: nat)
    requires NamedUpTo(entries, |entries|)
    requires 2 * |entries| < failAt
    ensures Counted(db, winnerName, entries, now, failAt) ==
      Db(Tally(db.characters, winnerName, entries, |entries|),
         db.battles + [BattleRow(db.battles, winnerName, entries, now)])
  {
    var f := FirstUnnamed(entries, 0);
    assert f == |entries|;
  }

  /** How many of the first `i` participants carry `name`. */
  function Occurrences(entries: seq<Entry>, i: nat, name: string): (c: nat)
    requires i <= |entries|
    ensures c <= i
  {
    if i == 0 then 0 else Occurrences(entries, i - 1, name) + (if entries[i - 1].name == Some(name) then 1 else 0)
  }

  /** Reading a name after one participant is counted. */
  lemma TakeFind(chars: seq<Arena.Character>, winnerName: string, e: Entry, name: string)
    requires e.name.Some?
    ensures Arena.Find(Take(chars, winnerName, e), name) ==
      if e.name == Some(name) then
        var c := if Arena.Find(chars, name).Some? then Arena.Find(chars, name).value else Arena.Fresh(name, e.isPreset);
        Some(Arena.Bump(c, name == winnerName, winnerName != Draw))
      else Arena.Find(chars, name)
  {
    var m := e.name.value;
    var inserted := Arena.InsertIgnore(chars, m, e.isPreset);
    Arena.FindInsertIgnore(chars, m, e.isPreset, name);
    Arena.FindUpdateStats(inserted, m, m == winnerName, winnerName != Draw, name);
  }

  /** The row `name` has after counting participant `e`, from the row `r` it had before. */
  function Next(r: Option<Arena.Character>, e: Entry, winnerName: string, name: string): Option<Arena.Character> {
    if e.name == Some(name) then
      var c := if r.Some? then r.value else Arena.Fresh(name, e.isPreset);
      Some(Arena.Bump(c, name == winnerName, winnerName != Draw))
    else r
  }

  /** The row `name` has after the first `i` participants are counted, from the row it had before. */
  function Row(before: Option<Arena.Character>, winnerName: string, entries: seq<Entry>, i: nat, name: string): Option<Arena.Character>
    requires i <= |entries|
  {
    if i == 0 then before else Next(Row(before, winnerName, entries, i - 1, name), entries[i - 1], winnerName, name)
  }

  /** Any chain of rows that steps by `Next` participant by participant ends at `Row`. */
  lemma {:induction false} RowChain(rows: seq<Option<Arena.Character>>, winnerName: string, entries: seq<Entry>, i: nat, name: string)
    requires i < |rows| && i <= |entries|
    requires forall k :: 0 <= k < i ==> rows[k + 1] == Next(rows[k], entries[k], winnerName, name)
    ensures rows[i] == Row(rows[0], winnerName, entries, i, name)
  {
    if i > 0 {
      RowChain(rows, winnerName, entries, i - 1, name);
    }
  }

  /** Reading `name` from the counted table gives its `Row`. */
  lemma TallyRow(chars: seq<Arena.Character>, winnerName: string, entries: seq<Entry>, i: nat, name: string)
    requires NamedUpTo(entries, i)
    ensures Arena.Find(Tally(chars, winnerName, entries, i), name) == Row(Arena.Find(chars, name), winnerName, entries, i, name)
  {
    var rows := seq(i + 1, k requires 0 <= k <= i => Arena.Find(Tally(chars, winnerName, entries, k), name));
    forall k | 0 <= k < i
      ensures rows[k + 1] == Next(rows[k], entries[k], winnerName, name)
    {
      TallyStep(chars, winnerName, entries, k + 1, name);
    }
    RowChain(rows, winnerName, entries, i, name);
  }

  /** Reading `name` after one more participant is counted. */
  lemma TallyStep(chars: seq<Arena.Character>, winnerName: string, entries: seq<Entry>, i: nat, name: string)
    requires 0 < i && NamedUpTo(entries, i)
    ensures NamedUpTo(entries, i - 1)
    ensures Arena.Find(Tally(chars, winnerName, entries, i), name)
      == Next(Arena.Find(Tally(chars, winnerName, entries, i - 1), name), entries[i - 1], winnerName, name)
  {
    assert NamedUpTo(entries, i - 1);
    var prev := Tally(chars, winnerName, entries, i - 1);
    assert Tally(chars, winnerName, entries, i) == Take(prev, winnerName, entries[i - 1]);
    TakeFind(prev, winnerName, entries[i - 1], name);
  }

  /** The counters of `Row`: one participation per occurrence, and a win or a loss as the result says. */
  lemma {:induction false} RowCounts(before: Option<Arena.Character>, winnerName: string, entries: seq<Entry>, i: nat, name: string)
    requires i <= |entries|
    ensures var after := Row(before, winnerName, entries, i, name);
      var occ := Occurrences(entries, i, name);
      (after.Some? <==> before.Some? || occ > 0)
      && (after.Some? ==>
            after.value.participations == (if before.Some? then before.value.participations else 0) + occ
            && after.value.wins == (if before.Some? then before.value.wins else 0) + (if name == winnerName then occ else 0)
            && after.value.losses == (if before.Some? then before.value.losses else 0)
                                     + (if name != winnerName && winnerName != Draw then occ else 0))
  {
    if i > 0 {
      RowCounts(before, winnerName, entries, i - 1, name);
    }
  }

  /**
   * Counting a battle adds one participation per occurrence of a name, and
   * as many wins (the winner) or losses (the others, unless it is a draw);
   * a row exists afterwards exactly when it existed before or the name took
   * part.
   */
  lemma TallyCounts(chars: seq<Arena.Character>, winnerName: string, entries: seq<Entry>, i: nat, name: string)
    requires NamedUpTo(entries, i)
    ensures var before := Arena.Find(chars, name);
      var after := Arena.Find(Tally(chars, winnerName, entries, i), name);
      var occ := Occurrences(entries, i, name);
      (after.Some? <==> before.Some? || occ > 0)
      && (after.Some? ==>
            after.value.participations == (if before.Some? then before.value.participations else 0) + occ
            && after.value.wins == (if before.Some? then before.value.wins else 0) + (if name == winnerName then occ else 0)
            && after.value.losses == (if before.Some? then before.value.losses else 0)
                                     + (if name != winnerName && winnerName != Draw then occ else 0))
  {
    TallyRow(chars, winnerName, entries, i, name);
    RowCounts(Arena.Find(chars, name), winnerName, entries, i, name);
  }

  /** Counting keeps names unique and wins + losses within participations. */
  lemma {:induction false} TallyValid(chars: seq<Arena.Character>, winnerName: string, entries: seq<Entry>, i: nat)
    requires NamedUpTo(entries, i) && Arena.ValidTable(chars)
    ensures Arena.ValidTable(Tally(chars, winnerName, entries, i))
  {
    if i > 0 {
      TallyValid(chars, winnerName, entries, i - 1);
      var t := Tally(chars, winnerName, entries, i - 1);
      var e := entries[i - 1];
      Arena.InsertIgnoreValid(t, e.name.value, e.isPreset);
      Arena.UpdateStatsValid(Arena.InsertIgnore(t, e.name.value, e.isPreset), e.name.value,
                             e.name.value == winnerName, winnerName != Draw);
    }
  }

  /**
   * The battle log gains one row exactly when every query went through,
   * and then it holds the winner and every name in input order; otherwise
   * it is unchanged.
   */
  lemma BattleLogged(db: Db, winnerName: string, entries: seq<Entry>, now: int, failAt: nat)
    ensures var after := Counted(db, winnerName, entries, now, failAt);
      var complete := Reached(entries, failAt) == 2 * |entries| + 1;
      (complete ==> |after.battles| == |db.battles| + 1
                    && after.battles[..|db.battles|] == db.battles
                    && after.battles[|db.battles|].winnerName == winnerName
                    && |after.battles[|db.battles|].participants| == |entries|
                    && forall k :: 0 <= k < |entries| ==> Some(after.battles[|db.battles|].participants[k]) == entries[k].name)
      && (!complete ==> after.battles == db.battles)
  {
    var complete := Reached(entries, failAt) == 2 * |entries| + 1;
    if complete {
      var after := Counted(db, winnerName, entries, now, failAt);
      assert after.battles[..|db.battles|] == db.battles;
    }
  }

  /**
   * `updateBattleStats`: the names are read from every participant, then
   * the queries run. The error of a query that throws is caught and
   * logged, so the caller never sees it.
   */
  method UpdateBattleStats(db: Arena.ArenaDb, winnerName: string, participants: seq<Json>, now: int, failAt: nat)
    modifies db
    requires db.Valid()
    ensures db.Valid()
    ensures Db(db.characters, db.battles) == Updated(Db(old(db.characters), old(db.battles)), winnerName, participants, now, failAt)
  {
    if JNull in participants {
      return;
    }
    var entries := Entries(participants);
    RunQueries(db, winnerName, entries, now, failAt);
  }

    /**
   * The two queries for one participant: insert-or-ignore its row, then
   * count the battle for it, unless that second query fails.
   */
  method CountParticipant(db: Arena.ArenaDb, winnerName: string, e: Entry, countFails: bool)
    modifies db
    requires db.Valid() && e.name.Some?
    ensures db.Valid() && db.battles == old(db.battles)
    ensures countFails ==> db.characters == Arena.InsertIgnore(old(db.characters), e.name.value, e.isPreset)
    ensures !countFails ==> db.characters == Take(old(db.characters), winnerName, e)
  {
    db.InsertOrIgnore(e.name.value, e.isPreset);
    if countFails {
      return;
    }
    Arena.UpdateStatsValid(db.characters, e.name.value, e.name.value == winnerName, winnerName != Draw);
    db.characters := Arena.UpdateStats(db.characters, e.name.value, e.name.value == winnerName, winnerName != Draw);
  }

/**
   * The queries of `updateBattleStats`: participant by participant, an
   * insert-or-ignore and a counter update, then one battle row. A query
   * that throws ends the run.
   */
  method RunQueries(db: Arena.ArenaDb, winnerName: string, entries: seq<Entry>, now: int, failAt: nat)
    modifies db
    requires db.Valid()
    ensures db.Valid()
    ensures Db(db.characters, db.battles) == Counted(Db(old(db.characters), old(db.battles)), winnerName, entries, now, failAt)
  {
    ghost var start := Db(db.characters, db.battles);
    var n := |entries|;
    var i := 0;
    while i < n
      invariant 0 <= i <= n
      invariant 2 * i <= failAt
      invariant NamedUpTo(entries, i)
      invariant db.Valid() && db.battles == start.battles
      invariant db.characters == Tally(start.characters, winnerName, entries, i)
    {
      var e := entries[i];
      if e.name.None? || failAt == 2 * i {
        CountedAtInsert(start, winnerName, entries, now, failAt, i);
        return;
      }
      assert NamedUpTo(entries, i + 1);
      CountParticipant(db, winnerName, e, failAt == 2 * i + 1);
      if failAt == 2 * i + 1 {
        CountedAtCount(start, winnerName, entries, now, failAt, i);
        return;
      }
      i := i + 1;
    }
    if failAt == 2 * n {
      CountedBeforeRow(start, winnerName, entries, now);
      return;
    }
    CountedComplete(start, winnerName, entries, now, failAt);
    var participantNames := seq(n, k requires 0 <= k < n => entries[k].name.value);
    var id := db.RecordBattle(winnerName, participantNames, now, DataCards.Succeeded);
  }

  // ---------------------------------------------------------------------
  // Prompt
  // ---------------------------------------------------------------------

  const CoreComment: string := "// AI生成的角色核心设定\n"
  const AnswersComment: string := "\n// 用户问卷回答 (用于理解角色深层性格与理念)\n"
  const Intro: string := "这是本次对战的魔法少女们的情报信息。每个角色包含【角色核心设定】和【问卷回答】两部分。请务必综合分析所有信息，特别是通过问卷回答来理解角色的深层性格，并以此为基础进行创作：\n\n"
  const DefaultInstruction: string := "请根据以上设定，创作她们之间的冲突新闻稿。"

  function LevelInstruction(level: string): string {
    "注意：请将本次战斗的参与者的平均等级设定为【" + level + "】，并严格根据该等级的能力限制进行战斗推演和描述。"
  }

  /** `questions[i] || \`问题 ${i + 1}\``. */
  function Question(questions: seq<string>, i: nat): (q: string)
    ensures i < |questions| && questions[i] != "" ==> q == questions[i]
    ensures !(i < |questions| && questions[i] != "") ==> q == "问题 " + NatToString(i + 1)
  {
    if i < |questions| && questions[i] != "" then questions[i] else "问题 " + NatToString(i + 1)
  }

  /** Answer `i` under question `i`, one `Q:`/`A:` pair per answer, in answer order. */
  function QaLines(questions: seq<string>, answers: seq<Json>): (lines: seq<string>)
    ensures |lines| == |answers|
    ensures forall i :: 0 <= i < |answers| ==>
      lines[i] == "Q: " + Question(questions, i) + "\nA: " + JsString(answers[i])
  {
    seq(|answers|, i requires 0 <= i < |answers| => "Q: " + Question(questions, i) + "\nA: " + JsString(answers[i]))
  }

  /**
   * `const { userAnswers, isPreset: _, ...restOfProfile } = mg`: every own
   * property but those two.
   */
  function RestOfProfile(mg: Json): (rest: seq<Field>)
    ensures !HasKey(rest, "userAnswers") && !HasKey(rest, "isPreset")
    ensures forall k :: k != "userAnswers" && k != "isPreset" ==> Get(rest, k) == Get(Spread(mg), k)
  {
    Delete(Delete(Spread(mg), "userAnswers"), "isPreset")
  }

  function Header(index: nat): string {
    HeaderOpen + NatToString(index + 1) + HeaderClose
  }

  /**
   * One fighter's profile: a numbered header, the pretty-printed rest of
   * the profile and, when `userAnswers` is an array, the question and
   * answer pairs. Destructuring `null` throws (`None`).
   */
  function Profile(mg: Json, index: nat, questions: seq<string>, stringify: Json -> string): Option<string> {
    if mg.JNull? then None else Some(Header(index) + ProfileBody(mg, questions, stringify))
  }

  /** What follows the header: the core profile, then the answers when there are any. */
  function ProfileBody(mg: Json, questions: seq<string>, stringify: Json -> string): string {
    var core := CoreComment + stringify(JObj(RestOfProfile(mg))) + "\n";
    var answers := Member(Some(mg), "userAnswers");
    if TruthyOpt(answers) && answers.value.JArr? then
      core + AnswersComment + JoinBy(QaLines(questions, answers.value.items), "\n")
    else core
  }

  /** Every profile opens with its own numbered header, and no two fighters share one. */
  lemma ProfileHeader(mg: Json, index: nat, other: nat, questions: seq<string>, stringify: Json -> string)
    requires Profile(mg, index, questions, stringify).Some?
    ensures StartsWith(Profile(mg, index, questions, stringify).value, Header(index))
    ensures Header(index) == Header(other) ==> index == other
  {
    var h := Header(index);
    var p := Profile(mg, index, questions, stringify).value;
    assert p[..|h|] == h by {
      assert p == h + ProfileBody(mg, questions, stringify);
    }
    if h == Header(other) {
      HeaderInjective(index, other);
    }
  }

  const HeaderOpen: string := "--- 角色 #"
  const HeaderClose: string := " ---\n"

  /** Two fighters' headers differ when their positions do. */
  lemma HeaderInjective(index: nat, other: nat)
    requires Header(index) == Header(other)
    ensures index == other
  {
    MiddleEqual(HeaderOpen, NatToString(index + 1), NatToString(other + 1), HeaderClose);
    NatToStringInjective(index + 1, other + 1);
  }

  /** Texts with the same frame around them are equal. */
  lemma MiddleEqual(p: string, a: string, b: string, q: string)
    requires p + a + q == p + b + q
    ensures a == b
  {
    var x := p + a + q;
    var y := p + b + q;
    assert |a| == |b|;
    assert a == x[|p|..|p| + |a|];
    assert b == y[|p|..|p| + |b|];
  }

  function Profiles(girls: seq<Json>, questions: seq<string>, stringify: Json -> string): (r: Option<seq<string>>)
    ensures r.Some? <==> JNull !in girls
    ensures r.Some? ==>
      |r.value| == |girls| && forall k :: 0 <= k < |girls| ==> Some(r.value[k]) == Profile(girls[k], k, questions, stringify)
  {
    if JNull in girls then None
    else Some(seq(|girls|, k requires 0 <= k < |girls| => Profile(girls[k], k, questions, stringify).value))
  }

  /**
   * The closing instruction: the level when `selectedLevel` is text that is
   * not blank, the default otherwise; a truthy `selectedLevel` that is not
   * text has no `trim` and throws (`None`).
   */
  function Instruction(level: Option<Json>): Option<string> {
    if !TruthyOpt(level) then Some(DefaultInstruction)
    else if !level.value.JStr? then None
    else if Trim(level.value.s) != "" then Some(LevelInstruction(level.value.s))
    else Some(DefaultInstruction)
  }

  /** `promptBuilder`. */
  function Prompt(girls: seq<Json>, level: Option<Json>, questions: seq<string>, stringify: Json -> string): Option<string> {
    var profiles := Profiles(girls, questions, stringify);
    var instruction := Instruction(level);
    if profiles.None? || instruction.None? then None
    else Some(Intro + JoinBy(profiles.value, "\n\n") + "\n\n" + instruction.value)
  }

  /** A selected level is text that is not blank. */
  predicate LevelSelected(level: Option<Json>) {
    level.Some? && level.value.JStr? && Trim(level.value.s) != ""
  }

  /** Neither closing instruction ends with the other. */
  lemma InstructionsDiffer(level: string)
    ensures !EndsWith(LevelInstruction(level), DefaultInstruction)
    ensures |DefaultInstruction| < |LevelInstruction(level)|
  {
    var li := LevelInstruction(level);
    var d := DefaultInstruction;
    assert li[|li| - 2] == '述' && d[|d| - 2] == '稿';
  }

  /**
   * The prompt ends with the level instruction when a level is selected,
   * and with the default instruction exactly when none is.
   */
  lemma LevelInstructionIff(girls: seq<Json>, level: Option<Json>, questions: seq<string>, stringify: Json -> string)
    requires Prompt(girls, level, questions, stringify).Some?
    ensures var p := Prompt(girls, level, questions, stringify).value;
      (LevelSelected(level) ==> EndsWith(p, LevelInstruction(level.value.s)))
      && (!LevelSelected(level) <==> EndsWith(p, DefaultInstruction))
  {
    var body := Intro + JoinBy(Profiles(girls, questions, stringify).value, "\n\n") + "\n\n";
    assert Prompt(girls, level, questions, stringify).value == body + Instruction(level).value;
    InstructionLast(body, level);
  }

  /** Whatever precedes it, the closing instruction decides how the prompt ends. */
  lemma InstructionLast(body: string, level: Option<Json>)
    requires Instruction(level).Some?
    ensures var p := body + Instruction(level).value;
      (LevelSelected(level) ==> EndsWith(p, LevelInstruction(level.value.s)))
      && (!LevelSelected(level) <==> EndsWith(p, DefaultInstruction))
  {
    var instruction := Instruction(level).value;
    EndsWithAppend(body, instruction, instruction);
    if LevelSelected(level) {
      assert instruction == LevelInstruction(level.value.s);
      InstructionsDiffer(level.value.s);
      EndsWithAppend(body, instruction, DefaultInstruction);
    } else {
      assert instruction == DefaultInstruction;
    }
  }

  /** The prompt exists unless a fighter is `null` or a truthy level is not text. */
  lemma PromptBuilt(girls: seq<Json>, level: Option<Json>, questions: seq<string>, stringify: Json -> string)
    ensures Prompt(girls, level, questions, stringify).Some? <==>
      JNull !in girls && !(TruthyOpt(level) && !level.value.JStr?)
  {
  }

  // ---------------------------------------------------------------------
  // Handler
  // ---------------------------------------------------------------------

  /** The report the AI returns, shaped by its schema. */
  datatype CoreReport = CoreReport(headline: string, body: string, analysis: string, winner: string, impact: string)

  datatype ReplyBody = ErrorBody(error: string) | ReportBody(report: CoreReport, reporter: Journalist.Info)

  datatype Reply = Reply(status: int, body: ReplyBody)

  /** The response, and the statistics update started before it: the winner and the fighters. */
  datatype Handled = Handled(reply: Reply, stats: Option<(string, seq<Json>)>)

  const MethodNotAllowed: string := "Method not allowed"
  const RosterError: string := "必须提供2到6个魔法少女的设定"
  const GenerationError: string := "生成失败，当前服务器可能正忙，请稍后重试"

  /** `magicalGirls` is an array of 2 to 6 entries. */
  predicate RosterOk(girls: Option<Json>) {
    girls.Some? && girls.value.JArr? && 2 <= |girls.value.items| <= 6
  }

  /**
   * `handler`. `body` is the parsed request (`None` when it is not JSON);
   * `ai` answers a prompt with a report, or with nothing when every
   * provider failed. The statistics update runs after the response and
   * reports nothing back.
   */
  function Handle(verb: string, body: Option<Json>, questions: seq<string>, stringify: Json -> string,
                  ai: string -> Option<CoreReport>, reporter: Journalist.Info): Handled
  {
    if verb != "POST" then Handled(Reply(405, ErrorBody(MethodNotAllowed)), None)
    else if body.None? || body.value.JNull? then Handled(Reply(500, ErrorBody(GenerationError)), None)
    else
      var girls := Member(body, "magicalGirls");
      if !RosterOk(girls) then Handled(Reply(400, ErrorBody(RosterError)), None)
      else
        var prompt := Prompt(girls.value.items, Member(body, "selectedLevel"), questions, stringify);
        var report := if prompt.Some? then ai(prompt.value) else None;
        if report.None? then Handled(Reply(500, ErrorBody(GenerationError)), None)
        else Handled(Reply(200, ReportBody(report.value, reporter)), Some((report.value.winner, girls.value.items)))
  }

  /**
   * Only POST is served; a roster outside 2 to 6 fighters is refused with
   * 400, and exactly those requests get 400.
   */
  lemma HandleRejects(verb: string, body: Option<Json>, questions: seq<string>, stringify: Json -> string,
                      ai: string -> Option<CoreReport>, reporter: Journalist.Info)
    ensures var h := Handle(verb, body, questions, stringify, ai, reporter);
      (verb != "POST" <==> h.reply.status == 405)
      && (h.reply.status == 400 <==>
            verb == "POST" && body.Some? && !body.value.JNull? && !RosterOk(Member(body, "magicalGirls")))
  {
  }

  /**
   * The statistics update starts exactly when the report is returned, with
   * the report's winner and the 2 to 6 fighters of the request.
   */
  lemma StatsOnlyWithReport(verb: string, body: Option<Json>, questions: seq<string>, stringify: Json -> string,
                            ai: string -> Option<CoreReport>, reporter: Journalist.Info)
    ensures var h := Handle(verb, body, questions, stringify, ai, reporter);
      (h.stats.Some? <==> h.reply.status == 200)
      && (h.stats.Some? ==>
            h.reply.body.ReportBody? && h.stats.value.0 == h.reply.body.report.winner
            && RosterOk(Member(body, "magicalGirls")) && h.stats.value.1 == Member(body, "magicalGirls").value.items)
  {
  }
}
