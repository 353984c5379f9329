/**
 * `buildMatrices` (lib/pricing.ts): drains a queue of item names and fills
 * a map from each name to its price matrix. `buildMatrices` runs three
 * workers over the shared queue with a pause after each item; one worker draining
 * the queue in order fills the same map.
 */
module Batch {
  import opened Common
  import opened Quotes
  import opened Matrix

  /** The names as a set: the keys `buildMatrices` produces. */
  ghost function NameSet(names: seq<string>): set<string> {
    set n | n in names
  }

  /**
   * `buildMatrices`: `feedsFor(n)` is what the four venues answer for `n`.
   * Every name gets exactly one entry, its own matrix; a repeated name is
   * simply built again and stored under the same key.
   */
  method BuildMatrices(names: seq<string>, feedsFor: string -> VenueFeeds,
                       csfloatKey: Option<string>, fees: Option<FeeModel>)
    returns (out: map<string, PriceMatrix>)
    ensures out.Keys == NameSet(names)
    ensures forall n :: n in out ==> out[n] == BuildPriceMatrix(n, feedsFor(n), csfloatKey, fees)
  {
    out := map[];
    var queue := names;
    ghost var taken := 0;
    while queue != []
      invariant taken <= |names| && queue == names[taken..]
      invariant out.Keys == NameSet(names[..taken])
      invariant forall n :: n in out ==> out[n] == BuildPriceMatrix(n, feedsFor(n), csfloatKey, fees)
      decreases |queue|
    {
      var n := queue[0];
      queue := queue[1..];
      NameSetStep(names, taken);
      taken := taken + 1;
      var m := BuildPriceMatrix(n, feedsFor(n), csfloatKey, fees);
      out := out[n := m];
    }
    assert names[..taken] == names;
  }

  lemma NameSetStep(names: seq<string>, k: nat)
    requires k < |names|
    ensures names[k..][1..] == names[k + 1..]
    ensures NameSet(names[..k + 1]) == NameSet(names[..k]) + {names[k]}
  {
    assert names[..k + 1] == names[..k] + [names[k]];
    NameSetAppend(names[..k], names[k]);
  }

  lemma NameSetAppend(names: seq<string>, n: string)
    ensures NameSet(names + [n]) == NameSet(names) + {n}
  {
  }

  /** Names without repeats give as many entries as names. */
  lemma {:induction false} DistinctNamesCount(names: seq<string>)
    requires forall i, j :: 0 <= i < j < |names| ==> names[i] != names[j]
    ensures |NameSet(names)| == |names|
  {
    if names != [] {
      var last := names[|names| - 1];
      var init := names[..|names| - 1];
      DistinctNamesCount(init);
      assert NameSet(names) == NameSet(init) + {last};
      assert last !in NameSet(init);
    }
  }

  /** A repeated name adds no entry: the map has fewer keys than names. */
  lemma RepeatedNameCollapses(names: seq<string>, i: int, j: int)
    requires 0 <= i < j < |names| && names[i] == names[j]
    ensures |NameSet(names)| < |names|
  {
    CardinalityAtMostLength(names[..j]);
    CardinalityAtMostLength(names[j + 1..]);
    assert names == names[..j] + [names[j]] + names[j + 1..];
    assert NameSet(names) == NameSet(names[..j]) + NameSet(names[j + 1..]);
    assert |NameSet(names[..j]) + NameSet(names[j + 1..])|
        <= |NameSet(names[..j])| + |NameSet(names[j + 1..])|;
  }

  lemma {:induction false} CardinalityAtMostLength(names: seq<string>)
    ensures |NameSet(names)| <= |names|
  {
    if names != [] {
      var init := names[..|names| - 1];
      CardinalityAtMostLength(init);
      assert NameSet(names) == NameSet(init) + {names[|names| - 1]};
    }
  }
}
