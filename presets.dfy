/**
 * The preset list (pages/get-presets.ts): the files of the presets
 * directory whose names end in `.json` and read
 * `魔法少女_<name>（<description>）.json` become the preset entries, in
 * directory order. The directory listing is an input.
 *
 * The name is read with the pattern
 * `^魔法少女_([^(]+)(?:（([^）]+)）)?\.json$`, whose first group stops only
 * at an ASCII `(`; the search below is the one a backtracking matcher makes.
 */
module Presets {
  import opened Wrappers
  import opened JsText

  datatype Preset = Preset(name: string, description: string, filename: string)

  const Prefix := "魔法少女_"
  const Extension := ".json"
  const DefaultDescription := "无特殊描述"

  /** `name.endsWith('.json')`. */
  predicate IsJsonFile(name: string) {
    EndsWith(name, Extension)
  }

  /** The text between `魔法少女_` and `.json`, when the name has both around at least one character. */
  function Middle(name: string): (m: Option<string>)
    ensures m.Some? ==> name == Prefix + m.value + Extension && |m.value| > 0
  {
    if |name| > |Prefix| + |Extension| && StartsWith(name, Prefix) && EndsWith(name, Extension) then
      var m := name[|Prefix|..|name| - |Extension|];
      assert name == name[..|Prefix|] + m + name[|name| - |Extension|..];
      Some(m)
    else None
  }

  /** How far group 1 can reach at most: up to the first ASCII `(`, or the end. */
  function FirstParen(m: string): (k: nat)
    ensures k <= |m|
    ensures forall i :: 0 <= i < k ==> m[i] != '('
    ensures k < |m| ==> m[k] == '('
  {
    if |m| == 0 || m[0] == '(' then 0
    else 1 + FirstParen(m[1..])
  }

  /**
   * What follows group 1 inside the middle: nothing (the optional group
   * is skipped, no description), or `（description）` with a non-empty
   * description free of `）`.
   */
  function Tail(t: string): (r: Option<Option<string>>)
    ensures r == Some(None) <==> t == ""
    ensures r.Some? && r.value.Some? ==>
      t == "（" + r.value.value + "）" && |r.value.value| > 0 && !ContainsChar(r.value.value, '）')
  {
    if t == "" then Some(None)
    else if |t| >= 3 && t[0] == '（' && t[|t| - 1] == '）' && !ContainsChar(t[1..|t| - 1], '）') then
      assert t == "（" + t[1..|t| - 1] + "）";
      Some(Some(t[1..|t| - 1]))
    else None
  }

  /**
   * Backtracking over the end of group 1, from position `k` down: the first
   * (that is, longest) group 1 after which the rest of the middle matches.
   * The result is where group 1 ends, 0 when no choice matches.
   */
  function GroupEnd(m: string, k: nat): (j: nat)
    requires k <= |m|
    ensures j <= k
    ensures j > 0 ==> Tail(m[j..]).Some?
    ensures forall j' :: j < j' <= k ==> Tail(m[j'..]).None?
  {
    if k == 0 || Tail(m[k..]).Some? then k
    else GroupEnd(m, k - 1)
  }

  /** The regular-expression match on a file name: groups 1 and 2, or `None` when it does not match. */
  function Match(name: string): (g: Option<(string, Option<string>)>)
    ensures g.Some? ==> Middle(name).Some?
  {
    var m := Middle(name);
    if m.None? then None
    else
      var j := GroupEnd(m.value, FirstParen(m.value));
      if j == 0 then None else Some((m.value[..j], Tail(m.value[j..]).value))
  }

  /** The entry a file name gives, or `None` when the pattern does not match. */
  function ParsePreset(name: string): (r: Option<Preset>)
    ensures r.Some? ==> r.value.filename == name && IsJsonFile(name)
    ensures r.Some? ==> |r.value.name| > 0 && !ContainsChar(r.value.name, '(') && r.value.description != ""
  {
    var g := Match(name);
    if g.None? then None
    else
      MatchGroup(name);
      Some(Preset(g.value.0, if g.value.1.Some? then g.value.1.value else DefaultDescription, name))
  }

  lemma MatchGroup(name: string)
    requires Match(name).Some?
    ensures IsJsonFile(name)
    ensures |Match(name).value.0| > 0 && !ContainsChar(Match(name).value.0, '(')
    ensures Match(name).value.1.Some? ==> |Match(name).value.1.value| > 0
  {
    var m := Middle(name).value;
    var j := GroupEnd(m, FirstParen(m));
    assert forall i :: 0 <= i < j ==> m[..j][i] == m[i];
    assert name[|name| - |Extension|..] == Extension;
  }

  /** The `filter`/`map`/`filter` chain over the directory listing. */
  function Presets(filenames: seq<string>): (r: seq<Preset>)
    ensures |r| <= |filenames|
    ensures forall p :: p in r ==> p.filename in filenames && IsJsonFile(p.filename) && ParsePreset(p.filename) == Some(p)
  {
    if |filenames| == 0 then []
    else
      var rest := Presets(filenames[1..]);
      var head := if IsJsonFile(filenames[0]) then ParsePreset(filenames[0]) else None;
      (if head.Some? then [head.value] else []) + rest
  }

  /**
   * The list keeps directory order: the entries of a listing are those of
   * its first part followed by those of the rest.
   */
  lemma {:induction false} PresetsAppend(a: seq<string>, b: seq<string>)
    ensures Presets(a + b) == Presets(a) + Presets(b)
  {
    if |a| == 0 {
      assert a + b == b;
    } else {
      assert (a + b)[0] == a[0];
      assert (a + b)[1..] == a[1..] + b;
      PresetsAppend(a[1..], b);
    }
  }

  /** A file is listed exactly when its name ends in `.json` and matches the pattern. */
  lemma {:induction false} PresetsOne(name: string)
    ensures Presets([name]) == (if ParsePreset(name).Some? then [ParsePreset(name).value] else [])
  {
    assert Presets([name][1..]) == [];
  }

  lemma MiddleOf(m: string)
    requires |m| > 0
    ensures Middle(Prefix + m + Extension) == Some(m)
  {
    var name := Prefix + m + Extension;
    assert StartsWith(name, Prefix) by {
      assert name[..|Prefix|] == Prefix;
    }
    assert EndsWith(name, Extension) by {
      assert name[|name| - |Extension|..] == Extension;
    }
    assert name[|Prefix|..|name| - |Extension|] == m;
  }

  /**
   * The group 1 match is greedy: a middle without an ASCII `(` is taken
   * whole as the name, full-width brackets included (so `名字（描述）`
   * stays one name), and the description is the default.
   */
  lemma GreedyName(m: string)
    requires |m| > 0 && !ContainsChar(m, '(')
    ensures ParsePreset(Prefix + m + Extension) == Some(Preset(m, DefaultDescription, Prefix + m + Extension))
  {
    MiddleOf(m);
    assert FirstParen(m) == |m|;
    assert m[|m|..] == "";
    assert m[..|m|] == m;
  }

  lemma BracketedSearch(n: string, d: string)
    requires |n| > 0 && !ContainsChar(n, '(')
    requires |d| > 0 && !ContainsChar(d, '）') && !ContainsChar(d, '（') && ContainsChar(d, '(')
    ensures var m := n + "（" + d + "）";
      GroupEnd(m, FirstParen(m)) == |n| && m[..|n|] == n && Tail(m[|n|..]) == Some(Some(d))
  {
    var m := n + "（" + d + "）";
    var p := FirstParen(m);
    var i :| 0 <= i < |d| && d[i] == '(';
    assert m[|n| + 1 + i] == '(';
    assert forall k :: 0 <= k < |n| ==> m[k] == n[k];
    assert |n| <= p <= |n| + 1 + i;
    BracketTail(n, d);
    forall j' | |n| < j' <= p
      ensures Tail(m[j'..]).None?
    {
      NoTailInside(n, d, j');
    }
    GroupEndIs(m, p, |n|);
  }

  /** Cut right after the name, the middle reads as the bracketed description. */
  lemma BracketTail(n: string, d: string)
    requires |d| > 0 && !ContainsChar(d, '）')
    ensures var m := n + "（" + d + "）";
      m[..|n|] == n && m[|n|..] == "（" + d + "）" && Tail(m[|n|..]) == Some(Some(d))
  {
    var m := n + "（" + d + "）";
    var t := m[|n|..];
    assert t == "（" + d + "）";
    assert t[1..|t| - 1] == d;
    assert m[..|n|] == n;
  }

  /** Cut inside the description, the rest does not open with `（`. */
  lemma NoTailInside(n: string, d: string, j: nat)
    requires !ContainsChar(d, '（') && |n| < j <= |n| + |d|
    ensures Tail((n + "（" + d + "）")[j..]).None?
  {
    var m := n + "（" + d + "）";
    assert m[j..][0] == m[j] == d[j - |n| - 1];
  }

  /** Group 1 ends at `j` when the rest matches from `j` and from no later end up to `k`. */
  lemma GroupEndIs(m: string, k: nat, j: nat)
    requires 0 < j <= k <= |m| && Tail(m[j..]).Some?
    requires forall j' :: j < j' <= k ==> Tail(m[j'..]).None?
    ensures GroupEnd(m, k) == j
  {
  }

  /**
   * With an ASCII `(` in the middle, group 1 stops before it, and the
   * rest must be a full-width bracketed description, which is then read.
   */
  lemma AsciiParenDescription(n: string, d: string)
    requires |n| > 0 && !ContainsChar(n, '(')
    requires |d| > 0 && !ContainsChar(d, '）') && !ContainsChar(d, '（') && ContainsChar(d, '(')
    ensures ParsePreset(Prefix + n + "（" + d + "）" + Extension)
      == Some(Preset(n, d, Prefix + n + "（" + d + "）" + Extension))
  {
    var m := n + "（" + d + "）";
    assert Prefix + m + Extension == Prefix + n + "（" + d + "）" + Extension;
    MiddleOf(m);
    BracketedSearch(n, d);
  }

  /** The as-written reading of an ordinary preset file name, `魔法少女_A（B）.json`. */
  lemma GreedyNameExample()
    ensures ParsePreset("魔法少女_A（B）.json") == Some(Preset("A（B）", DefaultDescription, "魔法少女_A（B）.json"))
  {
    assert "魔法少女_A（B）.json" == Prefix + "A（B）" + Extension;
    GreedyName("A（B）");
  }

  // ---------------------------------------------------------------------
  // The pattern as intended: group 1 also stops at a full-width `（`

  /** Where group 1 of `[^(（]+` can reach at most: the first `(` or `（`, or the end. */
  function FirstStop(m: string): (k: nat)
    ensures k <= |m|
    ensures forall i :: 0 <= i < k ==> m[i] != '(' && m[i] != '（'
    ensures k < |m| ==> m[k] == '(' || m[k] == '（'
  {
    if |m| == 0 || m[0] == '(' || m[0] == '（' then 0
    else 1 + FirstStop(m[1..])
  }

  /** The entry a file name gives with group 1 written `[^(（]+`. */
  function ParsePresetIntended(name: string): (r: Option<Preset>)
    ensures r.Some? ==> r.value.filename == name && IsJsonFile(name) && r.value.description != ""
  {
    var m := Middle(name);
    if m.None? then None
    else
      var j := GroupEnd(m.value, FirstStop(m.value));
      if j == 0 then None
      else
        assert name[|name| - |Extension|..] == Extension;
        var d := Tail(m.value[j..]).value;
        Some(Preset(m.value[..j], if d.Some? then d.value else DefaultDescription, name))
  }

  /** Group 1 as intended stops at the first bracket after a bracket-free start. */
  lemma {:induction false} FirstStopAfter(n: string, rest: string)
    requires !ContainsChar(n, '(') && !ContainsChar(n, '（')
    requires |rest| > 0 && rest[0] == '（'
    ensures FirstStop(n + rest) == |n|
    decreases |n|
  {
    if |n| > 0 {
      assert (n + rest)[1..] == n[1..] + rest;
      assert n[0] != '(' && n[0] != '（';
      FirstStopAfter(n[1..], rest);
    } else {
      assert n + rest == rest;
    }
  }

  lemma IntendedSearch(n: string, d: string)
    requires |n| > 0 && !ContainsChar(n, '(') && !ContainsChar(n, '（')
    requires |d| > 0 && !ContainsChar(d, '）')
    ensures var m := n + "（" + d + "）";
      GroupEnd(m, FirstStop(m)) == |n| && m[..|n|] == n && Tail(m[|n|..]) == Some(Some(d))
  {
    var m := n + "（" + d + "）";
    assert m == n + ("（" + d + "）");
    FirstStopAfter(n, "（" + d + "）");
    var t := m[|n|..];
    assert t == "（" + d + "）";
    assert t[1..|t| - 1] == d;
    assert m[..|n|] == n;
  }

  /**
   * As intended, `魔法少女_<name>（<description>）.json` yields the name and
   * the description, for a name free of brackets and a description free
   * of `）`.
   */
  lemma IntendedDescription(n: string, d: string)
    requires |n| > 0 && !ContainsChar(n, '(') && !ContainsChar(n, '（')
    requires |d| > 0 && !ContainsChar(d, '）')
    ensures ParsePresetIntended(Prefix + n + "（" + d + "）" + Extension)
      == Some(Preset(n, d, Prefix + n + "（" + d + "）" + Extension))
  {
    var m := n + "（" + d + "）";
    assert Prefix + m + Extension == Prefix + n + "（" + d + "）" + Extension;
    MiddleOf(m);
    IntendedSearch(n, d);
  }

  /** As intended, a name without brackets still gets the default description. */
  lemma IntendedPlainName(n: string)
    requires |n| > 0 && !ContainsChar(n, '(') && !ContainsChar(n, '（')
    ensures ParsePresetIntended(Prefix + n + Extension) == Some(Preset(n, DefaultDescription, Prefix + n + Extension))
  {
    MiddleOf(n);
    assert FirstStop(n) == |n|;
    assert n[|n|..] == "";
    assert n[..|n|] == n;
  }

  datatype Reply = Listed(presets: seq<Preset>) | Failed(status: int, error: string)

  /**
   * The handler: only GET is served (405 otherwise); `listing` is the
   * directory read, `None` when it throws (500).
   */
  function Handle(verb: string, listing: Option<seq<string>>): (r: Reply)
    ensures verb != "GET" ==> r == Failed(405, "Method Not Allowed")
    ensures verb == "GET" && listing.None? ==> r == Failed(500, "无法加载预设角色列表")
    ensures verb == "GET" && listing.Some? ==> r.Listed? && |r.presets| <= |listing.value|
  {
    if verb != "GET" then Failed(405, "Method Not Allowed")
    else if listing.None? then Failed(500, "无法加载预设角色列表")
    else Listed(Presets(listing.value))
  }
}
