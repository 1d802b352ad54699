/**
 * Random flower picks for the prompts (lib/random-choose-hana-name.ts). The
 * flower list comes from an asset file and is a parameter here; the
 * shuffle's draws are inputs (see module Shuffle).
 */
module HanaNames {
  import opened Wrappers
  import opened JsText
  import opened Shuffle

  datatype Flower = Flower(name: string, meaning: string)

  /**
   * The end index of `list.slice(0, count)` on a list of length `n`: a
   * negative count counts back from the end.
   */
  function SliceEnd(n: nat, count: int): (e: nat)
    ensures e <= n
    ensures count >= 0 ==> e == Min(count, n)
    ensures count < 0 ==> e == if n + count < 0 then 0 else n + count
  {
    if count < 0 then (if n + count < 0 then 0 else n + count)
    else if count < n then count else n
  }

  /** Line `k` (counting from 0) of the list: `${k + 1}. ${name} - ${meaning}`. */
  function FormatLine(k: nat, f: Flower): string {
    NatToString(k + 1) + ". " + f.name + " - " + f.meaning
  }

  function FormatLines(fs: seq<Flower>): (lines: seq<string>)
    ensures |lines| == |fs|
  {
    seq(|fs|, k requires 0 <= k < |fs| => FormatLine(k, fs[k]))
  }

  /** The numbered list joined by newlines, without a trailing newline. */
  function Format(fs: seq<Flower>): string {
    Join(FormatLines(fs), '\n')
  }

  predicate SingleLine(f: Flower) {
    !ContainsChar(f.name, '\n') && !ContainsChar(f.meaning, '\n')
  }

  lemma LineHasNoNewline(k: nat, f: Flower)
    requires SingleLine(f)
    ensures !ContainsChar(FormatLine(k, f), '\n')
  {
    var d := NatToString(k + 1);
    var line := FormatLine(k, f);
    forall i | 0 <= i < |line|
      ensures line[i] != '\n'
    {
      if i < |d| {
        assert line[i] == d[i];
      } else if i < |d| + 2 {
      } else if i < |d| + 2 + |f.name| {
        assert line[i] == f.name[i - |d| - 2];
      } else if i < |d| + 5 + |f.name| {
      } else {
        assert line[i] == f.meaning[i - |d| - 5 - |f.name|];
      }
    }
  }

  /**
   * The formatted text splits back on newlines into exactly the numbered
   * lines, one per flower in order, when no name or meaning holds a
   * newline.
   */
  lemma FormatSplitsIntoLines(fs: seq<Flower>)
    requires |fs| > 0
    requires forall k :: 0 <= k < |fs| ==> SingleLine(fs[k])
    ensures Split(Format(fs), '\n') == FormatLines(fs)
    ensures forall k :: 0 <= k < |fs| ==> Split(Format(fs), '\n')[k] == FormatLine(k, fs[k])
  {
    var lines := FormatLines(fs);
    forall k | 0 <= k < |lines|
      ensures !ContainsChar(lines[k], '\n')
    {
      LineHasNoNewline(k, fs[k]);
    }
    SplitJoin(lines, '\n');
  }

  /**
   * `getRandomFlowersArray`: shuffle a copy of the list and keep the first
   * `count` flowers (the default count is 10).
   */
  method GetRandomFlowersArray(flowers: seq<Flower>, count: int, js: seq<nat>)
    returns (selected: seq<Flower>)
    requires Draws(|flowers|, js)
    ensures selected == FisherYates(flowers, js)[..SliceEnd(|flowers|, count)]
    ensures count >= 0 ==> |selected| == Min(count, |flowers|)
    ensures multiset(selected) <= multiset(flowers)
  {
    var shuffled := ShuffleArray(flowers, js);
    var e := SliceEnd(|shuffled|, count);
    selected := shuffled[..e];
    assert shuffled == shuffled[..e] + shuffled[e..];
  }

  /** `getRandomFlowers`: the same selection, formatted as a numbered list. */
  method GetRandomFlowers(flowers: seq<Flower>, count: int, js: seq<nat>)
    returns (text: string)
    requires Draws(|flowers|, js)
    ensures text == Format(FisherYates(flowers, js)[..SliceEnd(|flowers|, count)])
  {
    var shuffled := ShuffleArray(flowers, js);
    var selected := shuffled[..SliceEnd(|shuffled|, count)];
    text := Format(selected);
  }

  /**
   * `randomChooseHanaName`: the name list holds only the empty string, so
   * any draw picks it.
   */
  function RandomChooseHanaName(r: real): (name: string)
    requires 0.0 <= r < 1.0
    ensures name == ""
  {
    var hanaNames := [""];
    hanaNames[DrawIndex(r, |hanaNames| - 1)]
  }

  /**
   * `randomChooseOneHanaName`: the name of the first flower of a one-flower
   * selection. With no flowers the source reads `name` of `undefined` and
   * throws, which is `None` here.
   */
  method RandomChooseOneHanaName(flowers: seq<Flower>, js: seq<nat>) returns (name: Option<string>)
    requires Draws(|flowers|, js)
    ensures name.Some? <==> |flowers| > 0
    ensures name.Some? ==> exists f :: f in flowers && f.name == name.value
  {
    var selected := GetRandomFlowersArray(flowers, 1, js);
    if |selected| == 0 {
      name := None;
    } else {
      assert selected[0] in multiset(flowers);
      name := Some(selected[0].name);
    }
  }
}
