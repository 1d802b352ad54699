/**
 * Arena statistics (lib/database/arena.ts): the `characters` table of
 * win, loss and participation counters keyed by name, and the `battles`
 * log. Both tables are fields of class `ArenaDb`; how each query ended and
 * the clock are inputs.
 */
module Arena {
  import opened Wrappers
  import opened Tables
  import DataCards

  type Query = DataCards.Query

  datatype Character = Character(name: string, isPreset: bool, wins: nat, losses: nat, participations: nat)

  datatype Battle = Battle(id: nat, winnerName: string, participants: seq<string>, createdAt: int)

  /** Every win or loss was counted as a participation too. */
  predicate Consistent(c: Character) {
    c.wins + c.losses <= c.participations
  }

  /** Names are keys, and every row's counters are consistent. */
  predicate ValidTable(chars: seq<Character>) {
    (forall i, j :: 0 <= i < j < |chars| ==> chars[i].name != chars[j].name)
    && (forall i :: 0 <= i < |chars| ==> Consistent(chars[i]))
  }

  predicate Named(chars: seq<Character>, name: string) {
    exists i :: 0 <= i < |chars| && chars[i].name == name
  }

  /** `SELECT * FROM characters WHERE name = ?`: the first such row. */
  function Find(chars: seq<Character>, name: string): (r: Option<Character>)
    ensures r.Some? <==> Named(chars, name)
    ensures r.Some? ==> r.value in chars && r.value.name == name
  {
    if |chars| == 0 then None
    else if chars[0].name == name then Some(chars[0])
    else
      var r := Find(chars[1..], name);
      assert forall i :: 0 < i < |chars| ==> chars[i] == chars[1..][i - 1];
      r
  }

  function Fresh(name: string, isPreset: bool): Character {
    Character(name, isPreset, 0, 0, 0)
  }

  /**
   * `getOrCreateCharacter`: an existing row is returned as it is; otherwise
   * a row with zero counters is inserted. The insert of a name already
   * present breaks the key and fails; a thrown query gives `null`.
   */
  function GetOrCreate(chars: seq<Character>, name: string, isPreset: bool, select: Query, insert: Query)
    : (Option<Character>, seq<Character>)
  {
    if select == DataCards.Thrown then (None, chars)
    else if select == DataCards.Succeeded && Find(chars, name).Some? then (Find(chars, name), chars)
    else if insert == DataCards.Succeeded && !Named(chars, name) then
      (Some(Fresh(name, isPreset)), chars + [Fresh(name, isPreset)])
    else (None, chars)
  }

  /**
   * An existing row comes back unchanged and nothing is written; a new name
   * gets a row with zero counters and the preset flag as given. The table
   * stays valid either way.
   */
  lemma GetOrCreateRow(chars: seq<Character>, name: string, isPreset: bool, insert: Query)
    requires ValidTable(chars)
    ensures var (r, after) := GetOrCreate(chars, name, isPreset, DataCards.Succeeded, insert);
      ValidTable(after)
      && (Named(chars, name) ==> after == chars && r.Some? && r.value in chars && r.value.name == name)
      && (!Named(chars, name) && insert == DataCards.Succeeded ==>
            r == Some(Character(name, isPreset, 0, 0, 0)) && after == chars + [r.value])
      && (!Named(chars, name) && insert != DataCards.Succeeded ==> r.None? && after == chars)
  {
  }

  /**
   * `participations + 1`, then `wins + 1` when won, else `losses + 1` when
   * the character took part.
   */
  function Bump(c: Character, won: bool, participated: bool): (r: Character)
    ensures r.name == c.name && r.isPreset == c.isPreset
    ensures r.participations == c.participations + 1
    ensures r.wins == c.wins + (if won then 1 else 0)
    ensures r.losses == c.losses + (if !won && participated then 1 else 0)
    ensures Consistent(c) ==> Consistent(r)
  {
    if won then c.(participations := c.participations + 1, wins := c.wins + 1)
    else if participated then c.(participations := c.participations + 1, losses := c.losses + 1)
    else c.(participations := c.participations + 1)
  }

  /** The `UPDATE … WHERE name = ?` of the counters. */
  function UpdateStats(chars: seq<Character>, name: string, won: bool, participated: bool): (r: seq<Character>)
    ensures |r| == |chars|
    ensures forall i :: 0 <= i < |chars| ==> r[i] == if chars[i].name == name then Bump(chars[i], won, participated) else chars[i]
  {
    seq(|chars|, i requires 0 <= i < |chars| =>
      if chars[i].name == name then Bump(chars[i], won, participated) else chars[i])
  }

  /** Counter updates keep names unique and every row consistent. */
  lemma UpdateStatsValid(chars: seq<Character>, name: string, won: bool, participated: bool)
    requires ValidTable(chars)
    ensures ValidTable(UpdateStats(chars, name, won, participated))
  {
  }

  /** `updateCharacterStats`: true exactly when the query succeeded and a row has this name. */
  function StatsUpdate(chars: seq<Character>, name: string, won: bool, participated: bool, q: Query)
    : (bool, seq<Character>)
  {
    if q != DataCards.Succeeded then (false, chars)
    else (CountWhere(chars, (c: Character) => c.name == name) > 0, UpdateStats(chars, name, won, participated))
  }

  lemma UpdateCharacterStatsResult(chars: seq<Character>, name: string, won: bool, participated: bool)
    ensures var (ok, after) := StatsUpdate(chars, name, won, participated, DataCards.Succeeded);
      (ok <==> Named(chars, name))
      && (forall i :: 0 <= i < |chars| && chars[i].name != name ==> after[i] == chars[i])
      && (forall i :: 0 <= i < |chars| && chars[i].name == name ==>
            after[i].participations == chars[i].participations + 1
            && (after[i].wins == chars[i].wins + 1 <==> won)
            && (after[i].losses == chars[i].losses + 1 <==> !won && participated))
  {
    var ok := StatsUpdate(chars, name, won, participated, DataCards.Succeeded).0;
    if Named(chars, name) {
      var i :| 0 <= i < |chars| && chars[i].name == name;
    }
  }

  /** `INSERT … ON CONFLICT(name) DO NOTHING`. */
  function InsertIgnore(chars: seq<Character>, name: string, isPreset: bool): (r: seq<Character>)
    ensures Named(r, name)
    ensures Named(chars, name) ==> r == chars
    ensures !Named(chars, name) ==> r == chars + [Fresh(name, isPreset)]
  {
    if Named(chars, name) then chars
    else
      assert (chars + [Fresh(name, isPreset)])[|chars|].name == name;
      chars + [Fresh(name, isPreset)]
  }

  lemma InsertIgnoreValid(chars: seq<Character>, name: string, isPreset: bool)
    requires ValidTable(chars)
    ensures ValidTable(InsertIgnore(chars, name, isPreset))
  {
  }

  /** Reading a name after one more row is appended. */
  lemma {:induction false} FindAppend(chars: seq<Character>, c: Character, name: string)
    ensures Find(chars + [c], name) ==
      if Named(chars, name) then Find(chars, name) else if c.name == name then Some(c) else None
  {
    if |chars| > 0 {
      assert (chars + [c])[1..] == chars[1..] + [c];
      FindAppend(chars[1..], c, name);
      if chars[0].name != name && Named(chars, name) {
        var i :| 0 <= i < |chars| && chars[i].name == name;
        assert chars[1..][i - 1].name == name;
      }
    }
  }

  /** After `INSERT … ON CONFLICT DO NOTHING`, a name reads its old row, or the new one. */
  lemma FindInsertIgnore(chars: seq<Character>, name: string, isPreset: bool, other: string)
    ensures Find(InsertIgnore(chars, name, isPreset), other) ==
      if Find(chars, other).Some? then Find(chars, other)
      else if other == name then Some(Fresh(name, isPreset))
      else None
  {
    if !Named(chars, name) {
      FindAppend(chars, Fresh(name, isPreset), other);
    }
  }

  /** After a counter update, the named row reads bumped and every other row as before. */
  lemma {:induction false} FindUpdateStats(chars: seq<Character>, name: string, won: bool, participated: bool, other: string)
    ensures Find(UpdateStats(chars, name, won, participated), other) ==
      if other == name && Find(chars, other).Some? then Some(Bump(Find(chars, other).value, won, participated))
      else Find(chars, other)
  {
    if |chars| > 0 {
      assert UpdateStats(chars, name, won, participated)[1..] == UpdateStats(chars[1..], name, won, participated);
      FindUpdateStats(chars[1..], name, won, participated, other);
    }
  }

  /** `ORDER BY wins DESC, participations DESC`. */
  predicate Ranks(a: Character, b: Character) {
    a.wins > b.wins || (a.wins == b.wins && a.participations >= b.participations)
  }

  /** `ORDER BY created_at DESC`. */
  predicate Newer(a: Battle, b: Battle) {
    a.createdAt >= b.createdAt
  }

  lemma OrdersTotal()
    ensures Total(Ranks) && Total(Newer)
  {
  }

  /** `getCharacterLeaderboard`; `[]` when the query fails. */
  function Leaderboard(chars: seq<Character>, limit: int, q: Query): seq<Character> {
    if q == DataCards.Succeeded then Page(SortBy(chars, Ranks), limit, 0) else []
  }

  /**
   * The leaderboard is ordered by wins, then participations, both
   * descending; it holds at most `limit` rows, all from the table, and with
   * a limit no smaller than the table it holds every row.
   */
  lemma LeaderboardOrder(chars: seq<Character>, limit: int)
    ensures var top := Leaderboard(chars, limit, DataCards.Succeeded);
      (limit >= 0 ==> |top| <= limit)
      && (forall i, j :: 0 <= i < j < |top| ==>
            top[i].wins > top[j].wins || (top[i].wins == top[j].wins && top[i].participations >= top[j].participations))
      && (forall c :: c in top ==> c in chars)
      && (limit >= |chars| ==> multiset(top) == multiset(chars))
  {
    var sorted := SortBy(chars, Ranks);
    OrdersTotal();
    SortBySorted(chars, Ranks);
    var top := Page(sorted, limit, 0);
    forall c | c in top
      ensures c in chars
    {
      var i :| 0 <= i < |top| && top[i] == c;
      assert sorted[i] in multiset(chars);
    }
    if limit >= |chars| {
      assert top == sorted;
    }
  }

  /** `getRecentBattles`; `[]` when the query fails. */
  function RecentBattles(battles: seq<Battle>, limit: int, q: Query): seq<Battle> {
    if q == DataCards.Succeeded then Page(SortBy(battles, Newer), limit, 0) else []
  }

  /**
   * The recent battles are newest first; they are at most `limit` rows, all
   * from the table, and with a limit no smaller than the table every row.
   */
  lemma RecentBattlesOrder(battles: seq<Battle>, limit: int)
    ensures var recent := RecentBattles(battles, limit, DataCards.Succeeded);
      (limit >= 0 ==> |recent| <= limit)
      && (forall i, j :: 0 <= i < j < |recent| ==> recent[i].createdAt >= recent[j].createdAt)
      && (forall b :: b in recent ==> b in battles)
      && (limit >= |battles| ==> multiset(recent) == multiset(battles))
  {
    var sorted := SortBy(battles, Newer);
    OrdersTotal();
    SortBySorted(battles, Newer);
    var recent := Page(sorted, limit, 0);
    forall b | b in recent
      ensures b in battles
    {
      var i :| 0 <= i < |recent| && recent[i] == b;
      assert sorted[i] in multiset(battles);
    }
    if limit >= |battles| {
      assert recent == sorted;
    }
  }

  class ArenaDb {
    var characters: seq<Character>
    var battles: seq<Battle>

    predicate Valid()
      reads this
    {
      ValidTable(characters)
    }

    constructor ()
      ensures characters == [] && battles == [] && Valid()
    {
      characters := [];
      battles := [];
    }

    method GetOrCreateCharacter(name: string, isPreset: bool, select: Query, insert: Query)
      returns (r: Option<Character>)
      modifies this
      requires Valid()
      ensures Valid() && battles == old(battles)
      ensures (r, characters) == GetOrCreate(old(characters), name, isPreset, select, insert)
    {
      if select == DataCards.Thrown {
        return None;
      }
      var found := Find(characters, name);
      if select == DataCards.Succeeded && found.Some? {
        return found;
      }
      if insert == DataCards.Succeeded && !Named(characters, name) {
        characters := characters + [Fresh(name, isPreset)];
        r := Some(Fresh(name, isPreset));
      } else {
        r := None;
      }
    }

    /** `INSERT … ON CONFLICT(name) DO NOTHING` on the characters table. */
    method InsertOrIgnore(name: string, isPreset: bool)
      modifies this
      requires Valid()
      ensures Valid() && battles == old(battles)
      ensures characters == InsertIgnore(old(characters), name, isPreset)
    {
      InsertIgnoreValid(characters, name, isPreset);
      characters := InsertIgnore(characters, name, isPreset);
    }

    /**
     * `updateCharacterStats`: the statement's effect, the matching counter
     * increments on the named row (the SQL text itself is not modelled).
     */
    method UpdateCharacterStats(name: string, won: bool, participated: bool, q: Query) returns (ok: bool)
      modifies this
      requires Valid()
      ensures Valid() && battles == old(battles)
      ensures (ok, characters) == StatsUpdate(old(characters), name, won, participated, q)
    {
      if q != DataCards.Succeeded {
        return false;
      }
      UpdateStatsValid(characters, name, won, participated);
      ok := CountWhere(characters, (c: Character) => c.name == name) > 0;
      characters := UpdateStats(characters, name, won, participated);
    }

    /** `recordBattle`: one row appended; its id is the new row count. */
    method RecordBattle(winnerName: string, participants: seq<string>, now: int, q: Query) returns (id: Option<nat>)
      modifies this
      ensures characters == old(characters)
      ensures q == DataCards.Succeeded ==>
        battles == old(battles) + [Battle(|old(battles)| + 1, winnerName, participants, now)]
        && id == Some(|old(battles)| + 1)
      ensures q != DataCards.Succeeded ==> battles == old(battles) && id.None?
    {
      if q != DataCards.Succeeded {
        return None;
      }
      var rowId := |battles| + 1;
      battles := battles + [Battle(rowId, winnerName, participants, now)];
      id := Some(rowId);
    }

    method GetCharacterLeaderboard(limit: int, q: Query) returns (top: seq<Character>)
      ensures top == Leaderboard(characters, limit, q)
      ensures forall c :: c in top ==> c in characters
    {
      top := Leaderboard(characters, limit, q);
      if q == DataCards.Succeeded {
        LeaderboardOrder(characters, limit);
      }
    }

    method GetRecentBattles(limit: int, q: Query) returns (recent: seq<Battle>)
      ensures recent == RecentBattles(battles, limit, q)
    {
      recent := RecentBattles(battles, limit, q);
    }
  }
}
