/**
 * The by-line of a battle report (lib/random-choose-journalist.ts): a
 * journalist drawn from an asset list, with a publication taken from the
 * journalist's own `source` or drawn from a separate list. Both lists are
 * parameters, either of which may be missing, and the two `Math.random()`
 * values are inputs.
 */
module Journalist {
  import opened Wrappers
  import Shuffle

  datatype Entry = Entry(name: string, source: Option<string>)

  datatype Info = Info(name: string, publication: string)

  const DefaultName: string := "佚名记者"
  const DefaultPublication: string := "魔法国度时报"

  /** JavaScript truthiness of an optional string. */
  predicate Truthy(s: Option<string>) {
    s.Some? && s.value != ""
  }

  predicate Listed<T>(list: Option<seq<T>>) {
    list.Some? && |list.value| > 0
  }

  /** `Math.floor(r * n)` for a draw `r` in [0, 1) and n > 0. */
  function Pick<T>(items: seq<T>, r: real): (x: T)
    requires |items| > 0 && 0.0 <= r < 1.0
    ensures x in items
  {
    items[Shuffle.DrawIndex(r, |items| - 1)]
  }

  /** `getRandomJournalist`. */
  function GetRandomJournalist(journalists: Option<seq<Entry>>, sources: Option<seq<string>>,
                               r1: real, r2: real): (info: Info)
    requires 0.0 <= r1 < 1.0 && 0.0 <= r2 < 1.0
    ensures !Listed(journalists) ==> info == Info(DefaultName, DefaultPublication)
    ensures Listed(journalists) ==>
      exists e :: e in journalists.value && info.name == e.name &&
        (Truthy(e.source) ==> info.publication == e.source.value) &&
        (!Truthy(e.source) && Listed(sources) ==> info.publication in sources.value) &&
        (!Truthy(e.source) && !Listed(sources) ==> info.publication == DefaultPublication)
  {
    if !Listed(journalists) then Info(DefaultName, DefaultPublication)
    else
      var selected := Pick(journalists.value, r1);
      var publication :=
        if Truthy(selected.source) then selected.source.value
        else if Listed(sources) then Pick(sources.value, r2)
        else DefaultPublication;
      Info(selected.name, publication)
  }
}
