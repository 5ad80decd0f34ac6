/**
 * Weighted cumulative selection, as WorldGenerator uses it three times:
 * a running-sum table is built from a weight array, and a draw `r` picks
 * the FIRST index whose running sum is at least `r` (inclusive, first match).
 */
module Selection {

  datatype Option<T> = None | Some(value: T)

  /** Sum of all weights (folded from the left, as the build loop does). */
  function Sum(w: seq<real>): real
  {
    if |w| == 0 then 0.0 else Sum(w[..|w| - 1]) + w[|w| - 1]
  }

  /** The running-sum table: entry i is the sum of weights 0..i. */
  function Cumulative(w: seq<real>): seq<real>
  {
    seq(|w|, i requires 0 <= i < |w| => Sum(w[..i + 1]))
  }

  ghost predicate NonNegative(w: seq<real>)
  {
    forall i :: 0 <= i < |w| ==> w[i] >= 0.0
  }

  /** The first index j >= from with r <= combined[j], if any. */
  function ChooseFrom(r: real, combined: seq<real>, from: nat): (o: Option<nat>)
    requires from <= |combined|
    decreases |combined| - from
    ensures o.Some? ==> from <= o.value < |combined| && r <= combined[o.value]
    ensures o.Some? ==> forall j :: from <= j < o.value ==> combined[j] < r
    ensures o.None? <==> forall j :: from <= j < |combined| ==> combined[j] < r
  {
    if from == |combined| then None
    else if r <= combined[from] then Some(from)
    else ChooseFrom(r, combined, from + 1)
  }

  /** The index a draw selects: the smallest i with r <= combined[i]. */
  function Choose(r: real, combined: seq<real>): Option<nat>
  {
    ChooseFrom(r, combined, 0)
  }

  /**
   * The build loop: fills a fresh table of running sums while keeping the
   * running total.
   */
  method BuildCombined(weights: seq<real>) returns (combined: array<real>, full: real)
    ensures fresh(combined)
    ensures combined[..] == Cumulative(weights)
    ensures full == Sum(weights)
  {
    full := 0.0;
    combined := new real[|weights|];
    var i := 0;
    while i < |weights|
      invariant 0 <= i <= |weights|
      invariant full == Sum(weights[..i])
      invariant forall j :: 0 <= j < i ==> combined[j] == Sum(weights[..j + 1])
    {
      assert weights[..i + 1][..i] == weights[..i];
      full := full + weights[i];
      combined[i] := full;
      i := i + 1;
    }
    assert weights[..i] == weights;
  }

  /** The selection loop with its `break`: the first index whose entry covers r. */
  method SelectIndex(r: real, combined: array<real>) returns (found: bool, index: nat)
    ensures found <==> Choose(r, combined[..]).Some?
    ensures found ==> index == Choose(r, combined[..]).value
    ensures found ==> index < combined.Length && r <= combined[index]
  {
    found, index := false, 0;
    var i := 0;
    while i < combined.Length
      invariant 0 <= i <= combined.Length
      invariant forall j :: 0 <= j < i ==> combined[j] < r
    {
      if r <= combined[i] {
        found, index := true, i;
        break;
      }
      i := i + 1;
    }
    ghost var o := Choose(r, combined[..]);
    if found {
      assert combined[..][index] >= r;
      assert o.Some?;
      assert combined[o.value] >= r;
    } else {
      assert o.None?;
    }
  }

  // ---------------------------------------------------------------------
  // Properties of the table

  lemma {:induction false} SumNonNegative(w: seq<real>)
    requires NonNegative(w)
    ensures Sum(w) >= 0.0
  {
    if |w| > 0 {
      SumNonNegative(w[..|w| - 1]);
    }
  }

  /** With non-negative weights a longer prefix never sums to less. */
  lemma {:induction false} PrefixSumMonotone(w: seq<real>, i: nat, j: nat)
    requires NonNegative(w)
    requires i <= j <= |w|
    ensures Sum(w[..i]) <= Sum(w[..j])
  {
    if i < j {
      assert w[..j][..j - 1] == w[..j - 1];
      PrefixSumMonotone(w, i, j - 1);
    }
  }

  /** With non-negative weights the table is non-decreasing and ends at the total. */
  lemma CumulativeShape(w: seq<real>)
    requires NonNegative(w)
    ensures |Cumulative(w)| == |w|
    ensures forall i, j :: 0 <= i <= j < |w| ==> Cumulative(w)[i] <= Cumulative(w)[j]
    ensures |w| > 0 ==> Cumulative(w)[|w| - 1] == Sum(w)
    ensures forall i :: 0 <= i < |w| ==> Cumulative(w)[i] >= 0.0
  {
    CumulativeMonotone(w);
    CumulativeNonNegative(w);
    assert |w| > 0 ==> w[..|w|] == w;
  }

  lemma CumulativeMonotone(w: seq<real>)
    requires NonNegative(w)
    ensures forall i, j :: 0 <= i <= j < |w| ==> Cumulative(w)[i] <= Cumulative(w)[j]
  {
    forall i, j | 0 <= i <= j < |w|
      ensures Cumulative(w)[i] <= Cumulative(w)[j]
    {
      PrefixSumMonotone(w, i + 1, j + 1);
    }
  }

  lemma CumulativeNonNegative(w: seq<real>)
    requires NonNegative(w)
    ensures forall i :: 0 <= i < |w| ==> Cumulative(w)[i] >= 0.0
  {
    forall i | 0 <= i < |w|
      ensures Cumulative(w)[i] >= 0.0
    {
      PrefixSumMonotone(w, 0, i + 1);
      assert w[..0] == [];
    }
  }

  lemma CumulativeStep(w: seq<real>, i: nat)
    requires 0 < i < |w|
    ensures Cumulative(w)[i] == Cumulative(w)[i - 1] + w[i]
  {
    assert w[..i + 1][..i] == w[..i];
  }

  /** An entry whose weight is not positive is never chosen, unless it is entry 0. */
  lemma SelectedHasPositiveWeight(w: seq<real>, r: real)
    requires Choose(r, Cumulative(w)).Some?
    ensures Choose(r, Cumulative(w)).value > 0 ==> w[Choose(r, Cumulative(w)).value] > 0.0
  {
    var i := Choose(r, Cumulative(w)).value;
    if i > 0 {
      CumulativeStep(w, i);
    }
  }

  /** A draw of 0 picks entry 0 when the weights are non-negative. */
  lemma DrawZeroSelectsFirst(w: seq<real>)
    requires NonNegative(w) && |w| > 0
    ensures Choose(0.0, Cumulative(w)) == Some(0)
  {
    CumulativeShape(w);
  }

  /** Every draw in [0, total] matches some entry. */
  lemma InRangeDrawMatches(w: seq<real>, r: real)
    requires NonNegative(w) && |w| > 0
    requires r <= Sum(w)
    ensures Choose(r, Cumulative(w)).Some?
  {
    CumulativeShape(w);
    assert !(Cumulative(w)[|w| - 1] < r);
  }

  lemma {:induction false} TrailingZerosKeepSum(w: seq<real>, k: nat)
    requires k < |w|
    requires forall j :: k < j < |w| ==> w[j] == 0.0
    ensures Sum(w[..k + 1]) == Sum(w)
  {
    if k + 1 < |w| {
      var v := w[..|w| - 1];
      assert v[..k + 1] == w[..k + 1];
      TrailingZerosKeepSum(v, k);
    } else {
      assert w[..k + 1] == w;
    }
  }

  /**
   * A draw just below the total picks the last entry of positive weight:
   * if entry k is positive, all later entries are 0 and the draw exceeds
   * the sum before k, entry k is chosen.
   */
  lemma LastPositiveSelected(w: seq<real>, k: nat, r: real)
    requires NonNegative(w)
    requires k < |w| && w[k] > 0.0
    requires forall j :: k < j < |w| ==> w[j] == 0.0
    requires Sum(w[..k]) < r <= Sum(w)
    ensures Choose(r, Cumulative(w)) == Some(k)
  {
    TrailingZerosKeepSum(w, k);
    EarlierEntriesBelow(w, k, r);
    var c := Cumulative(w);
    assert c[k] == Sum(w) >= r;
    var o := Choose(r, c);
    assert o.Some? && c[o.value] >= r;
  }

  /** Every table entry before k is at most the sum before k. */
  lemma EarlierEntriesBelow(w: seq<real>, k: nat, r: real)
    requires NonNegative(w) && k < |w|
    requires Sum(w[..k]) < r
    ensures forall j :: 0 <= j < k ==> Cumulative(w)[j] < r
  {
    forall j | 0 <= j < k
      ensures Cumulative(w)[j] < r
    {
      PrefixSumMonotone(w, j + 1, k);
    }
  }

  /** Entries after the first covering one never change the choice. */
  lemma ChoosePrefix(r: real, c1: seq<real>, c2: seq<real>)
    requires Choose(r, c1).Some?
    ensures Choose(r, c1 + c2) == Choose(r, c1)
  {
    var i := Choose(r, c1).value;
    assert (c1 + c2)[i] == c1[i];
    var o := Choose(r, c1 + c2);
    assert o.Some?;
    assert forall j :: 0 <= j < i ==> (c1 + c2)[j] == c1[j];
  }

  /** The table of a two-entry weight array. */
  lemma PairTable(a: real, b: real)
    ensures Sum([a, b]) == a + b
    ensures Cumulative([a, b]) == [a, a + b]
  {
    var w := [a, b];
    assert Sum([a]) == a by {
      assert [a][..0] == [];
    }
    assert w[..1] == [a] && w[..2] == w;
  }
}
