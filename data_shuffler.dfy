/**
 * `DataShuffler.shuffle_data` of services.py: copy both lists of the item
 * bank and shuffle each copy in place, as `random.shuffle` does.
 *
 * The random source is supplied by the caller: `draws[i]` is the value that
 * `random.shuffle` draws, below `i + 1`, when it reaches position `i`. The
 * timestamp seeding is therefore not modelled; any sequence of draws is
 * allowed, one per list, so the two lists are shuffled independently.
 */
module DataShuffler {
  import opened Models

  /** Draws that `random.shuffle` could take for a list of `n` elements. */
  predicate ValidDraws(draws: seq<nat>, n: nat) {
    |draws| == n && forall i :: 0 <= i < n ==> draws[i] <= i
  }

  /** `x[i], x[j] = x[j], x[i]` on a sequence. */
  function Swapped<T>(s: seq<T>, i: nat, j: nat): seq<T>
    requires i < |s| && j < |s|
  {
    s[i := s[j]][j := s[i]]
  }

  /** The steps of `random.shuffle` that remain at positions `i - 1` down to 1. */
  function ShuffleSteps<T>(s: seq<T>, draws: seq<nat>, i: nat): seq<T>
    requires i <= |s| && ValidDraws(draws, |s|)
    decreases i
  {
    if i <= 1 then s else ShuffleSteps(Swapped(s, i - 1, draws[i - 1]), draws, i - 1)
  }

  /** The list `random.shuffle` leaves behind. */
  function Shuffled<T>(s: seq<T>, draws: seq<nat>): seq<T>
    requires ValidDraws(draws, |s|)
  {
    ShuffleSteps(s, draws, |s|)
  }

  lemma SwapPermutes<T>(s: seq<T>, i: nat, j: nat)
    requires i < |s| && j < |s|
    ensures |Swapped(s, i, j)| == |s|
    ensures multiset(Swapped(s, i, j)) == multiset(s)
  {
  }

  /** Every step swaps two elements, so the whole shuffle is a permutation. */
  lemma {:induction false} ShuffleStepsPermutes<T>(s: seq<T>, draws: seq<nat>, i: nat)
    requires i <= |s| && ValidDraws(draws, |s|)
    ensures |ShuffleSteps(s, draws, i)| == |s|
    ensures multiset(ShuffleSteps(s, draws, i)) == multiset(s)
    decreases i
  {
    if i > 1 {
      SwapPermutes(s, i - 1, draws[i - 1]);
      ShuffleStepsPermutes(Swapped(s, i - 1, draws[i - 1]), draws, i - 1);
    }
  }

  lemma ShuffledPermutes<T>(s: seq<T>, draws: seq<nat>)
    requires ValidDraws(draws, |s|)
    ensures |Shuffled(s, draws)| == |s|
    ensures multiset(Shuffled(s, draws)) == multiset(s)
  {
    ShuffleStepsPermutes(s, draws, |s|);
  }

  /** `random.shuffle(x)`: for `i` from `len(x) - 1` down to 1, swap `x[i]` with `x[draws[i]]`. */
  method ShuffleInPlace<T>(a: array<T>, draws: seq<nat>)
    requires ValidDraws(draws, a.Length)
    modifies a
    ensures a[..] == Shuffled(old(a[..]), draws)
  {
    var i := a.Length;
    while i > 1
      invariant 0 <= i <= a.Length
      invariant ShuffleSteps(a[..], draws, i) == Shuffled(old(a[..]), draws)
    {
      i := i - 1;
      var j := draws[i];
      ghost var before := a[..];
      a[i], a[j] := a[j], a[i];
      assert a[..] == Swapped(before, i, j);
    }
  }

  /**
   * `shuffle_data`: a new bank whose lists are shuffled copies of the
   * originals; the input bank is a value and stays as it was.
   */
  method ShuffleData(data: TestData, explainDraws: seq<nat>, statementDraws: seq<nat>) returns (r: TestData)
    requires ValidDraws(explainDraws, |data.explainItems|)
    requires ValidDraws(statementDraws, |data.statementItems|)
    ensures r.explainItems == Shuffled(data.explainItems, explainDraws)
    ensures r.statementItems == Shuffled(data.statementItems, statementDraws)
    ensures |r.explainItems| == |data.explainItems| && |r.statementItems| == |data.statementItems|
    ensures multiset(r.explainItems) == multiset(data.explainItems)
    ensures multiset(r.statementItems) == multiset(data.statementItems)
    ensures r.Validate() == data.Validate()
    ensures r.GetTotalItems() == data.GetTotalItems()
  {
    var explain := new TestItem[|data.explainItems|](i requires 0 <= i < |data.explainItems| => data.explainItems[i]);
    var statement := new TestItem[|data.statementItems|](i requires 0 <= i < |data.statementItems| => data.statementItems[i]);
    assert explain[..] == data.explainItems;
    assert statement[..] == data.statementItems;
    ShuffleInPlace(explain, explainDraws);
    ShuffleInPlace(statement, statementDraws);
    r := TestData(explain[..], statement[..]);
    ShuffledPermutes(data.explainItems, explainDraws);
    ShuffledPermutes(data.statementItems, statementDraws);
    ValidateUnderPermutation(data, r);
  }
}
