/**
 * The content filter (lib/sensitive-word-filter.ts). A filter loads its word
 * list once, then reports which listed words occur in a text and masks them.
 * A word holding `[`, `(` or `|` is a regular expression; any other word is
 * detected by a case-insensitive substring test. Every replacement goes
 * through a case-insensitive global regular expression, whose engine is an
 * input here: it says whether a pattern compiles and how it cuts a text into
 * unmatched and matched pieces.
 */
module SensitiveFilter {
  import opened Wrappers
  import opened JsText

  /** The shape of `sensitiveWordsConfig`. */
  datatype Config = Config(mask: string, maskWord: string, words: Option<seq<string>>, encoding: Option<string>)

  /** One piece of a text as a global regular expression cuts it. */
  datatype Piece = Piece(text: string, matched: bool)

  /** `new RegExp(p, 'gi')`: whether it compiles, and how it cuts a text. */
  datatype RegexEngine = RegexEngine(compiles: string -> bool, pieces: (string, string) -> seq<Piece>)

  /** What `checkText` returns. */
  datatype FilterResult = FilterResult(
    hasSensitiveWords: bool,
    detectedWords: seq<string>,
    filteredText: string,
    originalText: string,
    shouldRedirectToArrested: bool)

  /** Why `checkText` throws. */
  datatype FilterError = NotInitialised | BadPattern(word: string)

  const NotInitialisedMessage := "过滤器未初始化，请先调用 initialize() 方法"

  /** The shipped settings: each character masked by `*`, no whole-word replacement. */
  predicate ShippedMask(cfg: Config) {
    cfg.mask == "*" && cfg.maskWord == ""
  }

  // ---------------------------------------------------------------------
  // The regular-expression engine

  function Concat(ps: seq<Piece>): string {
    if |ps| == 0 then "" else ps[0].text + Concat(ps[1..])
  }

  /** The engine cuts every text into pieces that spell it. */
  ghost predicate Faithful(eng: RegexEngine) {
    forall p, t :: eng.compiles(p) ==> Concat(eng.pieces(p, t)) == t
  }

  /** `text.match(regex)` with the global flag: the matched pieces, in order. */
  function Matches(ps: seq<Piece>): seq<string> {
    if |ps| == 0 then []
    else (if ps[0].matched then [ps[0].text] else []) + Matches(ps[1..])
  }

  /** `text.replace(regex, f)` with the global flag: every matched piece becomes `mask(piece)`. */
  function Replace(ps: seq<Piece>, cfg: Config): string {
    if |ps| == 0 then ""
    else (if ps[0].matched then MaskFor(cfg, ps[0].text) else ps[0].text) + Replace(ps[1..], cfg)
  }

  function Repeat(s: string, n: nat): (r: string)
    ensures |r| == n * |s|
  {
    if n == 0 then "" else s + Repeat(s, n - 1)
  }

  /**
   * `getMaskString()` and the replacement of `replaceSensitiveWord`: the whole
   * replacement word when one is set, else the mask (or `*`) once per character.
   */
  function MaskFor(cfg: Config, matched: string): string {
    if Trim(cfg.maskWord) != "" then cfg.maskWord
    else Repeat(if cfg.mask != "" then cfg.mask else "*", |matched|)
  }

  /** With the shipped settings a match becomes as many `*` as it has characters. */
  lemma ShippedMaskStars(cfg: Config, matched: string)
    requires ShippedMask(cfg)
    ensures |MaskFor(cfg, matched)| == |matched|
    ensures forall i :: 0 <= i < |matched| ==> MaskFor(cfg, matched)[i] == '*'
  {
    StarsAt(|matched|);
  }

  lemma {:induction false} StarsAt(n: nat)
    ensures forall i :: 0 <= i < n ==> Repeat("*", n)[i] == '*'
  {
    if n > 0 {
      StarsAt(n - 1);
      assert Repeat("*", n) == "*" + Repeat("*", n - 1);
    }
  }

  /** Masking with the shipped settings keeps the length and only writes `*`. */
  lemma {:induction false} ReplaceMasks(ps: seq<Piece>, cfg: Config)
    requires ShippedMask(cfg)
    ensures |Replace(ps, cfg)| == |Concat(ps)|
    ensures forall i :: 0 <= i < |Concat(ps)| ==> Replace(ps, cfg)[i] == Concat(ps)[i] || Replace(ps, cfg)[i] == '*'
  {
    if |ps| > 0 {
      ReplaceMasks(ps[1..], cfg);
      ShippedMaskStars(cfg, ps[0].text);
      var head := if ps[0].matched then MaskFor(cfg, ps[0].text) else ps[0].text;
      assert Replace(ps, cfg) == head + Replace(ps[1..], cfg);
      assert Concat(ps) == ps[0].text + Concat(ps[1..]);
      forall i | 0 <= i < |Concat(ps)|
        ensures Replace(ps, cfg)[i] == Concat(ps)[i] || Replace(ps, cfg)[i] == '*'
      {
        if i >= |head| {
          assert Replace(ps, cfg)[i] == Replace(ps[1..], cfg)[i - |head|];
          assert Concat(ps)[i] == Concat(ps[1..])[i - |head|];
        }
      }
    }
  }

  // ---------------------------------------------------------------------
  // One word of the scan

  /** A word is a regular expression exactly when it holds `[`, `(` or `|`. */
  predicate IsPattern(word: string) {
    ContainsChar(word, '[') || ContainsChar(word, '(') || ContainsChar(word, '|')
  }

  /** The plain test: `text.toLowerCase().includes(word.toLowerCase())`. */
  predicate Mentions(text: string, word: string) {
    Contains(ToLower(text), ToLower(word))
  }

  /** `matches.forEach(m => { if (!detected.includes(m)) detected.push(m) })`. */
  function AddNew(detected: seq<string>, ms: seq<string>): (r: seq<string>)
    ensures |r| >= |detected| && r[..|detected|] == detected
    ensures forall m :: m in ms ==> m in r
    ensures forall i :: |detected| <= i < |r| ==> r[i] in ms && r[i] !in detected
    ensures forall i, j :: |detected| <= i < j < |r| ==> r[i] != r[j]
    decreases |ms|
  {
    if |ms| == 0 then detected
    else if ms[0] in detected then AddNew(detected, ms[1..])
    else
      var d := detected + [ms[0]];
      var r := AddNew(d, ms[1..]);
      assert r[..|d|] == d;
      assert r[..|detected|] == d[..|detected|];
      assert r[|detected|] == ms[0];
      assert forall i :: |d| <= i < |r| ==> r[i] in ms && r[i] != ms[0];
      r
  }

  /** The state the loop of `checkText` carries. */
  datatype Scan = Scan(detected: seq<string>, filtered: string)

  /** One iteration of the loop of `checkText`, for `word`. */
  function Step(cfg: Config, eng: RegexEngine, text: string, word: string, acc: Scan): Result<Scan, FilterError> {
    if IsPattern(word) then
      if eng.compiles(word) then
        var ms := Matches(eng.pieces(word, text));
        if |ms| > 0 then Success(Scan(AddNew(acc.detected, ms), Replace(eng.pieces(word, acc.filtered), cfg)))
        else Success(acc)
      // The fallback for a pattern that does not compile calls `replaceSensitiveWord`,
      // which compiles the same pattern again, outside any `try`.
      else if Mentions(text, word) then Failure(BadPattern(word))
      else Success(acc)
    else if Mentions(text, word) then
      if eng.compiles(word) then Success(Scan(acc.detected + [word], Replace(eng.pieces(word, acc.filtered), cfg)))
      else Failure(BadPattern(word))
    else Success(acc)
  }

  /** The loop of `checkText` over `words`, from state `acc`. */
  function ScanFrom(cfg: Config, eng: RegexEngine, text: string, words: seq<string>, acc: Scan): Result<Scan, FilterError>
    decreases |words|
  {
    if |words| == 0 then Success(acc)
    else
      match Step(cfg, eng, text, words[0], acc)
      case Failure(e) => Failure(e)
      case Success(next) => ScanFrom(cfg, eng, text, words[1..], next)
  }

  function Finish(text: string, s: Scan): FilterResult {
    var found := |s.detected| > 0;
    FilterResult(found, s.detected, s.filtered, text, found)
  }

  /** What `checkText(text)` returns, or why it throws, for an initialised filter. */
  function CheckSpec(cfg: Config, eng: RegexEngine, words: seq<string>, text: string): (r: Result<FilterResult, FilterError>)
    ensures r.Success? ==> r.value.originalText == text
    ensures r.Success? ==> (r.value.hasSensitiveWords <==> r.value.detectedWords != [])
    ensures r.Success? ==> r.value.shouldRedirectToArrested == r.value.hasSensitiveWords
  {
    match ScanFrom(cfg, eng, text, words, Scan([], text))
    case Failure(e) => Failure(e)
    case Success(s) => Success(Finish(text, s))
  }

  // ---------------------------------------------------------------------
  // What the scan promises

  /** The words kept by the plain test, in list order, repeats included. */
  function Mentioned(text: string, words: seq<string>): (r: seq<string>)
    ensures forall w :: w in r ==> w in words && Mentions(text, w)
    ensures forall w :: w in words && Mentions(text, w) ==> w in r
  {
    if |words| == 0 then []
    else (if Mentions(text, words[0]) then [words[0]] else []) + Mentioned(text, words[1..])
  }

  /**
   * For plain words whose expressions compile, the detected words are exactly
   * the mentioned ones in list order, a word listed twice being reported twice.
   */
  lemma {:induction false} PlainWordsDetected(cfg: Config, eng: RegexEngine, text: string, words: seq<string>, acc: Scan)
    requires forall i :: 0 <= i < |words| ==> !IsPattern(words[i]) && eng.compiles(words[i])
    ensures ScanFrom(cfg, eng, text, words, acc).Success?
    ensures ScanFrom(cfg, eng, text, words, acc).value.detected == acc.detected + Mentioned(text, words)
    decreases |words|
  {
    if |words| > 0 {
      var next := Step(cfg, eng, text, words[0], acc).value;
      PlainWordsDetected(cfg, eng, text, words[1..], next);
    }
  }

  /** Without any detection nothing was replaced: the filtered text is the input. */
  lemma {:induction false} NothingFoundNothingMasked(cfg: Config, eng: RegexEngine, text: string, words: seq<string>, acc: Scan)
    requires ScanFrom(cfg, eng, text, words, acc).Success?
    requires ScanFrom(cfg, eng, text, words, acc).value.detected == []
    ensures acc.detected == [] && ScanFrom(cfg, eng, text, words, acc).value.filtered == acc.filtered
    decreases |words|
  {
    if |words| > 0 {
      var next := Step(cfg, eng, text, words[0], acc).value;
      NothingFoundNothingMasked(cfg, eng, text, words[1..], next);
      assert |next.detected| >= |acc.detected|;
    }
  }

  /** Positions of the filtered text either keep the input's character or hold `*`. */
  ghost predicate MaskedCopy(filtered: string, text: string) {
    |filtered| == |text| && forall i :: 0 <= i < |text| ==> filtered[i] == text[i] || filtered[i] == '*'
  }

  lemma {:induction false} ScanMasks(cfg: Config, eng: RegexEngine, text: string, words: seq<string>, acc: Scan)
    requires ShippedMask(cfg) && Faithful(eng) && MaskedCopy(acc.filtered, text)
    requires ScanFrom(cfg, eng, text, words, acc).Success?
    ensures MaskedCopy(ScanFrom(cfg, eng, text, words, acc).value.filtered, text)
    decreases |words|
  {
    if |words| > 0 {
      var next := Step(cfg, eng, text, words[0], acc).value;
      if next.filtered != acc.filtered {
        var ps := eng.pieces(words[0], acc.filtered);
        assert eng.compiles(words[0]);
        assert Concat(ps) == acc.filtered;
        ReplaceMasks(ps, cfg);
      }
      ScanMasks(cfg, eng, text, words[1..], next);
    }
  }

  /**
   * With the shipped settings the filtered text has the input's length, and
   * each character is the input's or a `*`.
   */
  lemma FilteredKeepsLength(cfg: Config, eng: RegexEngine, words: seq<string>, text: string)
    requires ShippedMask(cfg) && Faithful(eng)
    requires CheckSpec(cfg, eng, words, text).Success?
    ensures |CheckSpec(cfg, eng, words, text).value.filteredText| == |text|
    ensures forall i :: 0 <= i < |text| ==>
      CheckSpec(cfg, eng, words, text).value.filteredText[i] in {text[i], '*'}
  {
    ScanMasks(cfg, eng, text, words, Scan([], text));
  }

  /** A check that detects nothing leaves the text as it was. */
  lemma NoDetectionUnchanged(cfg: Config, eng: RegexEngine, words: seq<string>, text: string)
    requires CheckSpec(cfg, eng, words, text).Success?
    requires !CheckSpec(cfg, eng, words, text).value.hasSensitiveWords
    ensures CheckSpec(cfg, eng, words, text).value.filteredText == text
  {
    NothingFoundNothingMasked(cfg, eng, text, words, Scan([], text));
  }

  /** A pattern adds each of its distinct new matches once, after what was found before. */
  lemma PatternAddsDistinct(cfg: Config, eng: RegexEngine, text: string, word: string, acc: Scan)
    requires IsPattern(word) && eng.compiles(word)
    ensures Step(cfg, eng, text, word, acc).Success?
    ensures var d := Step(cfg, eng, text, word, acc).value.detected;
      d[..|acc.detected|] == acc.detected
      && (forall m :: m in Matches(eng.pieces(word, text)) ==> m in d)
      && (forall i :: |acc.detected| <= i < |d| ==> d[i] in Matches(eng.pieces(word, text)) && d[i] !in acc.detected)
      && (forall i, j :: |acc.detected| <= i < j < |d| ==> d[i] != d[j])
  {
  }

  /** Decoding of the stored words, when the list is marked as Base64. */
  function LoadedWords(cfg: Config, decode: string -> string): (r: seq<string>)
    requires cfg.words.Some?
    ensures |r| == |cfg.words.value|
    ensures cfg.encoding == Some("base64") ==> forall i :: 0 <= i < |r| ==> r[i] == decode(cfg.words.value[i])
    ensures cfg.encoding != Some("base64") ==> r == cfg.words.value
  {
    var ws := cfg.words.value;
    if cfg.encoding == Some("base64") then seq(|ws|, i requires 0 <= i < |ws| => decode(ws[i])) else ws
  }

  // ---------------------------------------------------------------------
  // The filter object

  class Filter {
    const config: Option<Config>
    var sensitiveWords: seq<string>
    var initialized: bool

    /** `new SensitiveWordFilter()` with the given settings, which runs `initialize`. */
    constructor(cfg: Option<Config>, decode: string -> string)
      ensures config == cfg
      ensures initialized <==> cfg.Some? && cfg.value.words.Some?
      ensures initialized ==> sensitiveWords == LoadedWords(cfg.value, decode)
      ensures !initialized ==> sensitiveWords == []
    {
      config := cfg;
      sensitiveWords := [];
      initialized := false;
      new;
      var _ := Initialize(decode);
    }

    /** `initialize()`: a configuration without a word list leaves the filter as it was. */
    method Initialize(decode: string -> string) returns (ok: bool)
      modifies this
      ensures ok <==> config.Some? && config.value.words.Some?
      ensures ok ==> initialized && sensitiveWords == LoadedWords(config.value, decode)
      ensures !ok ==> initialized == old(initialized) && sensitiveWords == old(sensitiveWords)
    {
      if config.None? || config.value.words.None? {
        return false;
      }
      sensitiveWords := LoadedWords(config.value, decode);
      initialized := true;
      return true;
    }

    /** `checkText(text)`: throws before initialisation, else scans every word in turn. */
    method CheckText(eng: RegexEngine, text: string) returns (r: Result<FilterResult, FilterError>)
      requires initialized ==> config.Some?
      ensures !initialized ==> r == Failure(NotInitialised)
      ensures initialized ==> r == CheckSpec(config.value, eng, sensitiveWords, text)
    {
      if !initialized {
        return Failure(NotInitialised);
      }
      var cfg := config.value;
      var acc := Scan([], text);
      var i := 0;
      while i < |sensitiveWords|
        invariant 0 <= i <= |sensitiveWords|
        invariant ScanFrom(cfg, eng, text, sensitiveWords, Scan([], text))
          == ScanFrom(cfg, eng, text, sensitiveWords[i..], acc)
      {
        assert sensitiveWords[i..][1..] == sensitiveWords[i + 1..];
        var step := Step(cfg, eng, text, sensitiveWords[i], acc);
        if step.Failure? {
          return Failure(step.error);
        }
        acc := step.value;
        i := i + 1;
      }
      return Success(Finish(text, acc));
    }

    /**
     * `checkTextArray(texts)`: `checkText` on each text in order; the first
     * text that throws makes the whole call throw. An empty array never calls
     * `checkText`, so it succeeds even before initialisation.
     */
    method CheckTextArray(eng: RegexEngine, texts: seq<string>) returns (r: Result<seq<FilterResult>, FilterError>)
      requires initialized ==> config.Some?
      ensures texts == [] ==> r == Success([])
      ensures texts != [] && !initialized ==> r == Failure(NotInitialised)
      ensures r.Success? ==> initialized || texts == []
      ensures r.Success? ==> |r.value| == |texts|
      ensures r.Success? ==>
        forall i :: 0 <= i < |texts| ==> Success(r.value[i]) == CheckSpec(config.value, eng, sensitiveWords, texts[i])
      ensures r.Failure? && initialized ==> exists i ::
        (0 <= i < |texts| && CheckSpec(config.value, eng, sensitiveWords, texts[i]) == Failure(r.error)
         && forall j :: 0 <= j < i ==> CheckSpec(config.value, eng, sensitiveWords, texts[j]).Success?)
    {
      var out: seq<FilterResult> := [];
      for i := 0 to |texts|
        invariant |out| == i
        invariant i > 0 ==> initialized
        invariant forall j :: 0 <= j < i ==> Success(out[j]) == CheckSpec(config.value, eng, sensitiveWords, texts[j])
      {
        var one := CheckText(eng, texts[i]);
        if one.Failure? {
          r := Failure(one.error);
          assert forall j :: 0 <= j < i ==> CheckSpec(config.value, eng, sensitiveWords, texts[j]).Success?;
          return;
        }
        out := out + [one.value];
      }
      return Success(out);
    }
  }
}
