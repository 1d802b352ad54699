/**
 * Provider configuration (lib/config.ts). The process environment is a map
 * from variable names to strings, and `JSON.parse` is a parameter that
 * yields `None` where it would throw. Configured providers stay JSON
 * values, since the source spreads whatever properties they carry.
 */
module AiConfig {
  import opened Wrappers
  import opened Json
  import JsText

  type Env = map<string, string>

  /** `process.env[name]` used as a condition: set and non-empty. */
  predicate EnvSet(env: Env, name: string) {
    name in env && env[name] != ""
  }

  /** `process.env[name] || fallback`. */
  function EnvOr(env: Env, name: string, fallback: string): (v: string)
    ensures EnvSet(env, name) ==> v == env[name]
    ensures !EnvSet(env, name) ==> v == fallback
  {
    if EnvSet(env, name) then env[name] else fallback
  }

  const DefaultBaseUrl: string := "https://api.openai.com/v1"
  const FallbackModel: string := "gemini-2.0-flash"
  const DefaultModelName: string := "gemini-2.5-flash"
  const DefaultStrategy: string := "random"

  /** `p.apiKey && p.baseUrl && p.model && p.type`. */
  predicate Complete(p: Json) {
    TruthyOpt(Member(Some(p), "apiKey")) && TruthyOpt(Member(Some(p), "baseUrl")) &&
    TruthyOpt(Member(Some(p), "model")) && TruthyOpt(Member(Some(p), "type"))
  }

  /** `value ?? fallback`: JSON has no `undefined`, so absent or `null`. */
  function OrDefault(value: Option<Json>, fallback: Json): (v: Json)
    ensures value.Some? && !value.value.JNull? ==> v == value.value
    ensures value.None? || value.value.JNull? ==> v == fallback
  {
    if value.Some? && !value.value.JNull? then value.value else fallback
  }

  /** `{...p, retryCount: p.retryCount ?? 1, skipProbability: p.skipProbability ?? 0}` for an object `p`. */
  function WithDefaults(fields: seq<Field>): Json {
    var withRetry := Set(fields, "retryCount", OrDefault(Get(fields, "retryCount"), JNum(1)));
    JObj(Set(withRetry, "skipProbability", OrDefault(Get(fields, "skipProbability"), JNum(0))))
  }

  /**
   * The two counters read 1 and 0 only where the entry had none (or
   * `null`): an explicit value, 0 included, is kept. Every other property
   * reads as in the entry.
   */
  lemma WithDefaultsReads(fields: seq<Field>, k: string)
    ensures k != "retryCount" && k != "skipProbability" ==> Get(WithDefaults(fields).fields, k) == Get(fields, k)
    ensures Get(WithDefaults(fields).fields, "retryCount") == Some(OrDefault(Get(fields, "retryCount"), JNum(1)))
    ensures Get(WithDefaults(fields).fields, "skipProbability") == Some(OrDefault(Get(fields, "skipProbability"), JNum(0)))
  {
  }

  /** Reading `.apiKey` of a `null` entry throws. */
  predicate HasNullEntry(items: seq<Json>) {
    exists i :: 0 <= i < |items| && items[i].JNull?
  }

  /** The map step: an entry with its defaults filled in. */
  function Fill(p: Json): Json {
    if p.JObj? then WithDefaults(p.fields) else p
  }

  /** `items.filter(keep).map(fill)`. */
  function FilterMap(items: seq<Json>, keep: Json -> bool, fill: Json -> Json): (r: seq<Json>)
    ensures |r| <= |items|
    decreases |items|
  {
    if |items| == 0 then []
    else
      var rest := FilterMap(items[1..], keep, fill);
      if keep(items[0]) then [fill(items[0])] + rest else rest
  }

  /** The filter and map over a parsed array with no `null` entry. */
  function KeepComplete(items: seq<Json>): seq<Json> {
    FilterMap(items, Complete, Fill)
  }

  /**
   * The JSON path of `parseAIProviders`: `None` where it throws (not valid
   * JSON, not an array, or a `null` entry), which the source catches.
   */
  function ParseConfigured(text: string, parse: string -> Option<Json>): Option<seq<Json>> {
    var parsed := parse(text);
    if parsed.Some? && parsed.value.JArr? && !HasNullEntry(parsed.value.items)
    then Some(KeepComplete(parsed.value.items))
    else None
  }

  /** The single provider built from `AI_API_KEY`, `AI_BASE_URL` and `AI_MODEL`. */
  function FallbackProvider(env: Env): Json
    requires EnvSet(env, "AI_API_KEY")
  {
    var url := EnvOr(env, "AI_BASE_URL", DefaultBaseUrl);
    JObj([
      Field("name", JStr("default_provider")),
      Field("apiKey", JStr(env["AI_API_KEY"])),
      Field("baseUrl", JStr(url)),
      Field("model", JStr(EnvOr(env, "AI_MODEL", FallbackModel))),
      Field("type", JStr(if JsText.Contains(url, "googleapis.com") then "google" else "openai")),
      Field("retryCount", JNum(1)),
      Field("skipProbability", JNum(0))])
  }

  /** The fallback provider reads back the values it was built from. */
  lemma FallbackFields(env: Env)
    requires EnvSet(env, "AI_API_KEY")
    ensures var p := FallbackProvider(env);
      var url := EnvOr(env, "AI_BASE_URL", DefaultBaseUrl);
      p.JObj? &&
      Get(p.fields, "apiKey") == Some(JStr(env["AI_API_KEY"])) &&
      Get(p.fields, "baseUrl") == Some(JStr(url)) &&
      Get(p.fields, "model") == Some(JStr(EnvOr(env, "AI_MODEL", FallbackModel))) &&
      Get(p.fields, "type") == Some(JStr(if JsText.Contains(url, "googleapis.com") then "google" else "openai"))
  {
    var fields := FallbackProvider(env).fields;
    assert UniqueKeys(fields);
    GetAt(fields, 1);
    GetAt(fields, 2);
    GetAt(fields, 3);
    GetAt(fields, 4);
  }

  /** `parseAIProviders`. */
  function ParseAIProviders(env: Env, parse: string -> Option<Json>): seq<Json> {
    var configured :=
      if EnvSet(env, "AI_PROVIDERS_CONFIG") then ParseConfigured(env["AI_PROVIDERS_CONFIG"], parse)
      else None;
    if configured.Some? then configured.value
    else if EnvSet(env, "AI_API_KEY") then [FallbackProvider(env)]
    else []
  }

  /** `q` is the image under `fill` of an entry of `items` that `keep` accepts. */
  predicate KeptFrom(items: seq<Json>, keep: Json -> bool, fill: Json -> Json, q: Json) {
    exists j :: 0 <= j < |items| && keep(items[j]) && q == fill(items[j])
  }

  lemma {:induction false} FilterMapFrom(items: seq<Json>, keep: Json -> bool, fill: Json -> Json)
    ensures forall i :: 0 <= i < |FilterMap(items, keep, fill)| ==>
      KeptFrom(items, keep, fill, FilterMap(items, keep, fill)[i])
    decreases |items|
  {
    if |items| > 0 {
      FilterMapFrom(items[1..], keep, fill);
      var r := FilterMap(items, keep, fill);
      var rest := FilterMap(items[1..], keep, fill);
      forall i | 0 <= i < |r|
        ensures KeptFrom(items, keep, fill, r[i])
      {
        if keep(items[0]) && i == 0 {
          assert r[0] == fill(items[0]);
        } else {
          var i' := if keep(items[0]) then i - 1 else i;
          assert r[i] == rest[i'];
          assert KeptFrom(items[1..], keep, fill, rest[i']);
          var j' :| 0 <= j' < |items[1..]| && keep(items[1..][j']) && rest[i'] == fill(items[1..][j']);
          assert items[j' + 1] == items[1..][j'];
        }
      }
    }
  }

  lemma {:induction false} FilterMapAll(items: seq<Json>, keep: Json -> bool, fill: Json -> Json)
    requires forall j :: 0 <= j < |items| ==> keep(items[j])
    ensures FilterMap(items, keep, fill) == seq(|items|, i requires 0 <= i < |items| => fill(items[i]))
    decreases |items|
  {
    if |items| > 0 {
      FilterMapAll(items[1..], keep, fill);
    }
  }

  /**
   * Every kept entry is a complete object of the parsed list with its
   * defaults filled in.
   */
  lemma KeptAreComplete(items: seq<Json>)
    ensures forall i :: 0 <= i < |KeepComplete(items)| ==>
      KeptFrom(items, Complete, Fill, KeepComplete(items)[i])
  {
    FilterMapFrom(items, Complete, Fill);
  }

  /** When every entry is complete, all are kept, in order, with defaults filled in. */
  lemma AllCompleteKept(items: seq<Json>)
    requires forall j :: 0 <= j < |items| ==> Complete(items[j])
    ensures |KeepComplete(items)| == |items|
    ensures forall i :: 0 <= i < |items| ==> KeepComplete(items)[i] == Fill(items[i])
  {
    FilterMapAll(items, Complete, Fill);
  }

  /** Filtering and mapping a concatenation handles each part in turn. */
  lemma {:induction false} FilterMapAppend(a: seq<Json>, b: seq<Json>, keep: Json -> bool, fill: Json -> Json)
    ensures FilterMap(a + b, keep, fill) == FilterMap(a, keep, fill) + FilterMap(b, keep, fill)
    decreases |a|
  {
    if |a| > 0 {
      assert (a + b)[0] == a[0] && (a + b)[1..] == a[1..] + b;
      FilterMapAppend(a[1..], b, keep, fill);
    } else {
      assert a + b == b;
    }
  }

  /**
   * An entry the filter keeps lands, mapped, at the position given by the
   * number of kept entries before it.
   */
  lemma FilterMapKeepsAt(items: seq<Json>, keep: Json -> bool, fill: Json -> Json, i: int, j: int)
    requires 0 <= i < j <= |items| && keep(items[i])
    ensures var before := |FilterMap(items[..i], keep, fill)|;
      before < |FilterMap(items[..j], keep, fill)| && before < |FilterMap(items, keep, fill)|
      && FilterMap(items, keep, fill)[before] == fill(items[i])
  {
    var front := items[..i + 1];
    assert front == items[..i] + [items[i]];
    assert FilterMap(front, keep, fill) == FilterMap(items[..i], keep, fill) + [fill(items[i])] by {
      FilterMapAppend(items[..i], [items[i]], keep, fill);
      assert FilterMap([items[i]], keep, fill) == [fill(items[i])];
    }
    assert items[..j] == front + items[i + 1..j];
    FilterMapAppend(front, items[i + 1..j], keep, fill);
    assert items == front + items[i + 1..];
    FilterMapAppend(front, items[i + 1..], keep, fill);
  }

  /**
   * In a mixed list every complete entry is kept, filled in, at the position
   * given by the number of complete entries before it; so kept entries stay
   * in list order.
   */
  lemma CompleteEntriesKept(items: seq<Json>, i: int, j: int)
    requires 0 <= i < j <= |items| && Complete(items[i])
    ensures var before := |KeepComplete(items[..i])|;
      before < |KeepComplete(items[..j])| && before < |KeepComplete(items)|
      && KeepComplete(items)[before] == Fill(items[i])
  {
    FilterMapKeepsAt(items, Complete, Fill, i, j);
  }

  /** Filling in the defaults keeps the four required properties as they were. */
  lemma FillComplete(p: Json)
    requires Complete(p)
    ensures Complete(Fill(p))
  {
    WithDefaultsReads(p.fields, "apiKey");
    WithDefaultsReads(p.fields, "baseUrl");
    WithDefaultsReads(p.fields, "model");
    WithDefaultsReads(p.fields, "type");
  }

  /**
   * An array that parses and has no `null` entry wins over the single-key
   * variables, even when the filter keeps none of its entries.
   */
  lemma ParsedConfigWins(env: Env, parse: string -> Option<Json>)
    requires EnvSet(env, "AI_PROVIDERS_CONFIG")
    requires parse(env["AI_PROVIDERS_CONFIG"]).Some?
    requires parse(env["AI_PROVIDERS_CONFIG"]).value.JArr?
    requires !HasNullEntry(parse(env["AI_PROVIDERS_CONFIG"]).value.items)
    ensures ParseAIProviders(env, parse) == KeepComplete(parse(env["AI_PROVIDERS_CONFIG"]).value.items)
  {
  }

  /**
   * Without a usable JSON config the single key decides: one provider with
   * the default URL and model filled in, typed `google` exactly when the
   * URL mentions `googleapis.com`; no key gives no providers.
   */
  lemma FallbackWhenNoConfig(env: Env, parse: string -> Option<Json>)
    requires !EnvSet(env, "AI_PROVIDERS_CONFIG") || ParseConfigured(env["AI_PROVIDERS_CONFIG"], parse).None?
    ensures !EnvSet(env, "AI_API_KEY") ==> ParseAIProviders(env, parse) == []
    ensures EnvSet(env, "AI_API_KEY") ==>
      var ps := ParseAIProviders(env, parse);
      var url := EnvOr(env, "AI_BASE_URL", DefaultBaseUrl);
      |ps| == 1 && ps[0].JObj? &&
      Get(ps[0].fields, "apiKey") == Some(JStr(env["AI_API_KEY"])) &&
      Get(ps[0].fields, "baseUrl") == Some(JStr(url)) &&
      Get(ps[0].fields, "model") == Some(JStr(EnvOr(env, "AI_MODEL", FallbackModel))) &&
      (Get(ps[0].fields, "type") == Some(JStr("google")) <==> JsText.Contains(url, "googleapis.com"))
  {
    if EnvSet(env, "AI_API_KEY") {
      FallbackFields(env);
    }
  }

  /** `getDefaultModel`: the first provider's model, else `gemini-2.5-flash`. */
  function GetDefaultModel(providers: seq<Json>): (m: Json)
    ensures |providers| == 0 ==> m == JStr(DefaultModelName)
    ensures |providers| > 0 ==> Member(Some(providers[0]), "model") == Some(m) || (Member(Some(providers[0]), "model").None? && m == JNull)
  {
    if |providers| == 0 then JStr(DefaultModelName)
    else
      var model := Member(Some(providers[0]), "model");
      if model.Some? then model.value else JNull
  }

  /** Every provider the configuration yields has a truthy model, so the default model is one of them. */
  lemma ProvidersHaveModels(env: Env, parse: string -> Option<Json>)
    ensures forall p :: p in ParseAIProviders(env, parse) ==> TruthyOpt(Member(Some(p), "model"))
  {
    var configured :=
      if EnvSet(env, "AI_PROVIDERS_CONFIG") then ParseConfigured(env["AI_PROVIDERS_CONFIG"], parse)
      else None;
    if configured.Some? {
      var items := parse(env["AI_PROVIDERS_CONFIG"]).value.items;
      assert configured.value == KeepComplete(items);
      KeptHaveModels(items);
    } else if EnvSet(env, "AI_API_KEY") {
      assert ParseAIProviders(env, parse) == [FallbackProvider(env)];
      FallbackHasModel(env);
    }
  }

  /** The provider built from the single key has a truthy model. */
  lemma FallbackHasModel(env: Env)
    requires EnvSet(env, "AI_API_KEY")
    ensures TruthyOpt(Member(Some(FallbackProvider(env)), "model"))
  {
    var p := FallbackProvider(env);
    var model := EnvOr(env, "AI_MODEL", FallbackModel);
    assert p.JObj? && Get(p.fields, "model") == Some(JStr(model)) by {
      FallbackFields(env);
    }
    assert |FallbackModel| > 0;
  }

  /** Every entry the filter keeps has a truthy model. */
  lemma KeptHaveModels(items: seq<Json>)
    ensures forall p :: p in KeepComplete(items) ==> TruthyOpt(Member(Some(p), "model"))
  {
    var kept := KeepComplete(items);
    KeptAreComplete(items);
    forall p | p in kept
      ensures TruthyOpt(Member(Some(p), "model"))
    {
      var i :| 0 <= i < |kept| && kept[i] == p;
      var j :| 0 <= j < |items| && Complete(items[j]) && kept[i] == Fill(items[j]);
      FillComplete(items[j]);
    }
  }

  /** `getLoadBalanceStrategy`: the variable when set, else `random`. */
  function GetLoadBalanceStrategy(env: Env): (s: string)
    ensures EnvSet(env, "AI_LOAD_BALANCE_STRATEGY") ==> s == env["AI_LOAD_BALANCE_STRATEGY"]
    ensures !EnvSet(env, "AI_LOAD_BALANCE_STRATEGY") ==> s == DefaultStrategy
  {
    EnvOr(env, "AI_LOAD_BALANCE_STRATEGY", DefaultStrategy)
  }
}
