/**
 * Provider selection and the retry loop of `generateWithAI` (lib/ai.ts).
 * The model call is a parameter `call(position, attempt)` giving the object
 * or the error text of attempt `attempt` on the provider at `position` of
 * the try order; `Math.random()` values are inputs, one stream per use.
 * Providers have the declared `AIProvider` shape; logging and the waits
 * between attempts are not modelled.
 */
module AiProviders {
  import opened Wrappers
  import JsText
  import Shuffle

  /** `model: string | string[]`. */
  datatype Model = One(name: string) | Many(names: seq<string>)

  datatype Provider = Provider(
    name: string,
    model: Model,
    weight: Option<real>,
    retryCount: Option<int>,
    skipProbability: Option<real>)

  /** `item.weight` used as a condition. */
  predicate HasWeight(p: Provider) {
    p.weight.Some? && p.weight.value != 0.0
  }

  /** A list of index pairs, each naming two positions of a list of length `n`. */
  predicate SwapsWithin(n: nat, swaps: seq<(nat, nat)>) {
    forall k :: 0 <= k < |swaps| ==> swaps[k].0 < n && swaps[k].1 < n
  }

  /** The reordering a comparison sort performs, written as the exchanges it makes. */
  function ApplySwaps<T>(s: seq<T>, swaps: seq<(nat, nat)>): (r: seq<T>)
    requires SwapsWithin(|s|, swaps)
    ensures |r| == |s|
    ensures multiset(r) == multiset(s)
    decreases |swaps|
  {
    if |swaps| == 0 then s
    else ApplySwaps(Shuffle.Swap(s, swaps[0].0, swaps[0].1), swaps[1..])
  }

  /**
   * `weightedRandomSelect`. Without any weight the list is shuffled; with
   * weights it is sorted under a comparator that adds fresh random noise on
   * every comparison, so its order is the engine's: it is given as the
   * exchanges the sort makes.
   */
  method WeightedRandomSelect(items: seq<Provider>, js: seq<nat>, swaps: seq<(nat, nat)>)
    returns (r: seq<Provider>)
    requires Shuffle.Draws(|items|, js) && SwapsWithin(|items|, swaps)
    ensures |items| == 0 ==> r == []
    ensures multiset(r) == multiset(items)
    ensures (forall i :: 0 <= i < |items| ==> !HasWeight(items[i])) ==> r == Shuffle.FisherYates(items, js)
  {
    if |items| == 0 {
      return [];
    }
    if !exists i :: 0 <= i < |items| && HasWeight(items[i]) {
      r := Shuffle.ShuffleArray(items, js);
      return;
    }
    r := ApplySwaps(items, swaps);
  }

  /** `selectRandomModel`: a string model as it is, else a drawn element of a non-empty array. */
  function SelectRandomModel(model: Model, r: real): (m: Result<string, string>)
    requires 0.0 <= r < 1.0
    ensures model.One? ==> m == Success(model.name)
    ensures model.Many? && |model.names| > 0 ==> m.Success? && m.value in model.names
    ensures model.Many? && |model.names| == 0 ==> m == Failure("无效的模型配置")
  {
    match model
    case One(name) => Success(name)
    case Many(names) =>
      if |names| > 0 then Success(names[Shuffle.DrawIndex(r, |names| - 1)])
      else Failure("无效的模型配置")
  }

  /** The providers one configured provider expands to. */
  function ExpandOne(p: Provider): (r: seq<Provider>)
    ensures p.model.One? ==> r == [p]
    ensures p.model.Many? ==> |r| == |p.model.names|
  {
    match p.model
    case One(_) => [p]
    case Many(names) =>
      seq(|names|, i requires 0 <= i < |names| =>
        p.(name := p.name + "_model_" + JsText.NatToString(i + 1),
           model := One(names[i]),
           weight := Some(if HasWeight(p) then p.weight.value else 1.0)))
  }

  function Expand(ps: seq<Provider>): seq<Provider>
    decreases |ps|
  {
    if |ps| == 0 then [] else Expand(ps[..|ps| - 1]) + ExpandOne(ps[|ps| - 1])
  }

  /** How many providers one configured provider becomes. */
  function Width(p: Provider): nat {
    match p.model
    case One(_) => 1
    case Many(names) => |names|
  }

  function TotalWidth(ps: seq<Provider>): nat
    decreases |ps|
  {
    if |ps| == 0 then 0 else TotalWidth(ps[..|ps| - 1]) + Width(ps[|ps| - 1])
  }

  /** `expandProviders`: the `forEach` that pushes onto the result list. */
  method ExpandProviders(providers: seq<Provider>) returns (expanded: seq<Provider>)
    ensures expanded == Expand(providers)
  {
    expanded := [];
    var k := 0;
    while k < |providers|
      invariant 0 <= k <= |providers|
      invariant expanded == Expand(providers[..k])
    {
      var p := providers[k];
      assert providers[..k + 1][..k] == providers[..k];
      match p.model {
        case One(_) =>
          expanded := expanded + [p];
        case Many(names) =>
          var i := 0;
          ghost var before := expanded;
          while i < |names|
            invariant 0 <= i <= |names|
            invariant expanded == before + ExpandOne(p)[..i]
          {
            assert ExpandOne(p)[..i + 1] == ExpandOne(p)[..i] + [ExpandOne(p)[i]];
            expanded := expanded + [p.(name := p.name + "_model_" + JsText.NatToString(i + 1),
                                       model := One(names[i]),
                                       weight := Some(if HasWeight(p) then p.weight.value else 1.0))];
            i := i + 1;
          }
          assert ExpandOne(p)[..i] == ExpandOne(p);
      }
      k := k + 1;
    }
    assert providers[..k] == providers;
  }

  /** The expansion has one entry per string model and one per element of each model array. */
  lemma {:induction false} ExpandLength(ps: seq<Provider>)
    ensures |Expand(ps)| == TotalWidth(ps)
    decreases |ps|
  {
    if |ps| > 0 {
      ExpandLength(ps[..|ps| - 1]);
    }
  }

  /** Every expanded provider has a single model. */
  lemma {:induction false} ExpandedAreSingle(ps: seq<Provider>)
    ensures forall i :: 0 <= i < |Expand(ps)| ==> Expand(ps)[i].model.One?
    decreases |ps|
  {
    if |ps| > 0 {
      ExpandedAreSingle(ps[..|ps| - 1]);
    }
  }

  /**
   * Model `i` of an array-model provider becomes a provider named
   * `${name}_model_${i+1}` with that model, weight defaulting to 1, and
   * every other setting copied.
   */
  lemma ExpandOneEntry(p: Provider, i: nat)
    requires p.model.Many? && i < |p.model.names|
    ensures ExpandOne(p)[i].name == p.name + "_model_" + JsText.NatToString(i + 1)
    ensures ExpandOne(p)[i].model == One(p.model.names[i])
    ensures ExpandOne(p)[i].weight == Some(if HasWeight(p) then p.weight.value else 1.0)
    ensures ExpandOne(p)[i].retryCount == p.retryCount
    ensures ExpandOne(p)[i].skipProbability == p.skipProbability
  {
  }

  /** `[...list.slice(start), ...list.slice(0, start)]`. */
  function Rotate<T>(list: seq<T>, start: nat): (r: seq<T>)
    requires start <= |list|
    ensures |r| == |list|
    ensures forall i :: 0 <= i < |list| - start ==> r[i] == list[start + i]
    ensures forall i :: |list| - start <= i < |list| ==> r[i] == list[i - (|list| - start)]
    ensures multiset(r) == multiset(list)
  {
    assert list == list[..start] + list[start..];
    list[start..] + list[..start]
  }

  /** The load-balancing strategies by their configured names. */
  const Random: string := "random"
  const RoundRobin: string := "round_robin"

  /** `loadBalanceStrategy || config.LOAD_BALANCE_STRATEGY || 'random'`. */
  function Strategy(requested: Option<string>, configured: string): (s: string)
    ensures s != ""
  {
    if requested.Some? && requested.value != "" then requested.value
    else if configured != "" then configured
    else Random
  }

  /** `provider.retryCount ?? 1`. */
  function Attempts(p: Provider): int {
    if p.retryCount.Some? then p.retryCount.value else 1
  }

  /** Whether the provider at `position` is skipped: never the first one. */
  predicate Skipped(order: seq<Provider>, position: nat, skipDraws: seq<real>)
    requires position < |order| && |order| <= |skipDraws|
  {
    position > 0 &&
    skipDraws[position] < (if order[position].skipProbability.Some? then order[position].skipProbability.value else 0.0)
  }

  /**
   * The attempts from `attempt` on at one provider: the first object
   * returned, or the last error text (`last` when no attempt is left).
   */
  function TryProvider<T>(position: nat, attempt: nat, count: int, call: (nat, nat) -> Result<T, string>,
                          last: Option<string>): Result<T, Option<string>>
    decreases count - attempt
  {
    if attempt >= count then Failure(last)
    else
      var outcome := call(position, attempt);
      if outcome.Success? then Success(outcome.value)
      else TryProvider(position, attempt + 1, count, call, Some(outcome.error))
  }

  /** The providers from `position` on, in order. */
  function TryFrom<T>(order: seq<Provider>, position: nat, skipDraws: seq<real>,
                      call: (nat, nat) -> Result<T, string>, last: Option<string>): Result<T, Option<string>>
    requires position <= |order| <= |skipDraws|
    decreases |order| - position
  {
    if position == |order| then Failure(last)
    else if Skipped(order, position, skipDraws) then TryFrom(order, position + 1, skipDraws, call, last)
    else
      var tried := TryProvider(position, 0, Attempts(order[position]), call, last);
      if tried.Success? then tried
      else TryFrom(order, position + 1, skipDraws, call, tried.error)
  }

  /** `${taskName}失败: ${lastError}`, where a missing error prints as `null`. */
  function FailureMessage(taskName: string, last: Option<string>): string {
    taskName + "失败: " + (if last.Some? then last.value else "null")
  }

  /** The module-level round-robin counter and the calls that use it. */
  class Balancer {
    var counter: nat

    constructor ()
      ensures counter == 0
    {
      counter := 0;
    }

    /** The round-robin order: rotated left by the counter, which then moves on by one. */
    method RoundRobinOrder(expanded: seq<Provider>) returns (order: seq<Provider>)
      modifies this
      ensures counter == old(counter) + 1
      ensures |expanded| > 0 ==> order == Rotate(expanded, old(counter) % |expanded|)
      ensures |expanded| == 0 ==> order == []
    {
      if |expanded| == 0 {
        order := [];
      } else {
        var start := counter % |expanded|;
        order := expanded[start..] + expanded[..start];
      }
      counter := counter + 1;
    }

    /** The try order for a strategy: weighted random, round robin, or as configured. */
    method ProvidersToTry(expanded: seq<Provider>, strategy: string, js: seq<nat>, swaps: seq<(nat, nat)>)
      returns (order: seq<Provider>)
      requires Shuffle.Draws(|expanded|, js) && SwapsWithin(|expanded|, swaps)
      modifies this
      ensures multiset(order) == multiset(expanded)
      ensures strategy == RoundRobin ==>
        (counter == old(counter) + 1 && (|expanded| > 0 ==> order == Rotate(expanded, old(counter) % |expanded|)))
      ensures strategy != RoundRobin ==> counter == old(counter)
      ensures strategy != RoundRobin && strategy != Random ==> order == expanded
    {
      if strategy == Random {
        order := WeightedRandomSelect(expanded, js, swaps);
      } else if strategy == RoundRobin {
        order := RoundRobinOrder(expanded);
      } else {
        order := expanded;
      }
    }

    /**
     * `generateWithAI`. The order comes from the strategy; then each
     * provider that is not skipped gets up to `retryCount` attempts, and the
     * first object returned is the result.
     */
    method GenerateWithAI<T>(providers: seq<Provider>, requested: Option<string>, configured: string,
                             taskName: string, js: seq<nat>, swaps: seq<(nat, nat)>,
                             skipDraws: seq<real>, modelDraws: seq<real>,
                             call: (nat, nat) -> Result<T, string>)
      returns (r: Result<T, string>, order: seq<Provider>)
      requires Shuffle.Draws(TotalWidth(providers), js) && SwapsWithin(TotalWidth(providers), swaps)
      requires TotalWidth(providers) <= |skipDraws| && TotalWidth(providers) <= |modelDraws|
      requires forall k :: 0 <= k < |modelDraws| ==> 0.0 <= modelDraws[k] < 1.0
      modifies this
      ensures |providers| == 0 ==> r == Failure("没有配置 API Key") && counter == old(counter)
      ensures |providers| > 0 ==> multiset(order) == multiset(Expand(providers))
      ensures |providers| > 0 ==> |order| == |Expand(providers)| == TotalWidth(providers)
      ensures |providers| > 0 && Strategy(requested, configured) == RoundRobin ==>
        (counter == old(counter) + 1 &&
         (|order| > 0 ==> order == Rotate(Expand(providers), old(counter) % |Expand(providers)|)))
      ensures |providers| > 0 && Strategy(requested, configured) != RoundRobin ==> counter == old(counter)
      ensures |providers| > 0 && Strategy(requested, configured) != RoundRobin && Strategy(requested, configured) != Random ==>
        order == Expand(providers)
      ensures |providers| > 0 ==> r == Report(TryFrom(order, 0, skipDraws, call, None), taskName)
    {
      order := [];
      if |providers| == 0 {
        return Failure("没有配置 API Key"), order;
      }
      var expanded := ExpandProviders(providers);
      ExpandLength(providers);
      ExpandedAreSingle(providers);
      order := ProvidersToTry(expanded, Strategy(requested, configured), js, swaps);
      assert |order| == |expanded| by {
        assert |multiset(order)| == |multiset(expanded)|;
      }
      forall i | 0 <= i < |order|
        ensures order[i].model.One?
      {
        assert order[i] in multiset(expanded);
      }
      r := TryInOrder(order, skipDraws, modelDraws, taskName, call);
    }
  }

  /** The outcome of the loops: the object, or the error message naming the task. */
  function Report<T>(tried: Result<T, Option<string>>, taskName: string): Result<T, string> {
    if tried.Success? then Success(tried.value) else Failure(FailureMessage(taskName, tried.error))
  }

  /** The nested `for` loops over the try order and each provider's attempts. */
  method TryInOrder<T>(order: seq<Provider>, skipDraws: seq<real>, modelDraws: seq<real>, taskName: string,
                       call: (nat, nat) -> Result<T, string>)
    returns (r: Result<T, string>)
    requires |order| <= |skipDraws| && |order| <= |modelDraws|
    requires forall k :: 0 <= k < |modelDraws| ==> 0.0 <= modelDraws[k] < 1.0
    requires forall i :: 0 <= i < |order| ==> order[i].model.One?
    ensures r == Report(TryFrom(order, 0, skipDraws, call, None), taskName)
  {
    var last: Option<string> := None;
    var position := 0;
    while position < |order|
      invariant 0 <= position <= |order|
      invariant TryFrom(order, 0, skipDraws, call, None) == TryFrom(order, position, skipDraws, call, last)
    {
      var provider := order[position];
      if Skipped(order, position, skipDraws) {
        position := position + 1;
        continue;
      }
      var retryCount := Attempts(provider);
      var selected := SelectRandomModel(provider.model, modelDraws[position]);
      assert selected.Success?;
      var attempt := 0;
      ghost var entry := last;
      while attempt < retryCount
        invariant 0 <= attempt
        invariant TryProvider(position, 0, retryCount, call, entry) == TryProvider(position, attempt, retryCount, call, last)
      {
        var outcome := call(position, attempt);
        if outcome.Success? {
          return Success(outcome.value);
        }
        last := Some(outcome.error);
        attempt := attempt + 1;
      }
      position := position + 1;
    }
    return Failure(FailureMessage(taskName, last));
  }

  /** The provider first in the order is always tried: it is never skipped. */
  lemma FirstNeverSkipped(order: seq<Provider>, skipDraws: seq<real>)
    requires 0 < |order| <= |skipDraws|
    ensures !Skipped(order, 0, skipDraws)
  {
  }

  /**
   * A provider gets at most `retryCount` attempts: when its first
   * `retryCount` calls all fail, it fails with the last error, and when one
   * succeeds, the result is that call's object.
   */
  lemma {:induction false} TryProviderOutcome<T>(position: nat, attempt: nat, count: int,
                                               call: (nat, nat) -> Result<T, string>, last: Option<string>)
    ensures var r := TryProvider(position, attempt, count, call, last);
      (r.Success? <==> exists a :: attempt <= a < count && call(position, a).Success?) &&
      (r.Success? ==> (exists a :: (attempt <= a < count && call(position, a) == Success(r.value) &&
                                    forall b :: attempt <= b < a ==> call(position, b).Failure?))) &&
      (r.Failure? && attempt < count ==> r.error == Some(call(position, count - 1).error))
    decreases count - attempt
  {
    if attempt < count && call(position, attempt).Failure? {
      TryProviderOutcome(position, attempt + 1, count, call, Some(call(position, attempt).error));
    }
  }

  /**
   * The overall error names the task: the message starts with `taskName`
   * followed by `失败: `.
   */
  lemma FailureNamesTask(taskName: string, last: Option<string>)
    ensures JsText.StartsWith(FailureMessage(taskName, last), taskName + "失败: ")
  {
  }
}
