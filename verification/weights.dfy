/** The arithmetic `random.choices(population, weights=ws)` does with its
    weights: the running sums `itertools.accumulate(ws)`, their last entry as
    the total, and `bisect.bisect_right` of a scaled draw among them. */
module Weights {

  /** `sum(ws)`. */
  function Sum(ws: seq<real>): real
    decreases |ws|
  {
    if ws == [] then 0.0 else ws[0] + Sum(ws[1..])
  }

  lemma {:induction false} SumAppend(a: seq<real>, b: seq<real>)
    ensures Sum(a + b) == Sum(a) + Sum(b)
    decreases |a|
  {
    if a == [] {
      assert a + b == b;
    } else {
      assert (a + b)[1..] == a[1..] + b;
      SumAppend(a[1..], b);
    }
  }

  predicate NonNegative(ws: seq<real>) {
    forall i :: 0 <= i < |ws| ==> ws[i] >= 0.0
  }

  lemma {:induction false} SumNonNegative(ws: seq<real>)
    requires NonNegative(ws)
    ensures Sum(ws) >= 0.0
    decreases |ws|
  {
    if ws != [] {
      SumNonNegative(ws[1..]);
    }
  }

  /** `list(itertools.accumulate(ws))`. */
  function CumSum(ws: seq<real>): (cum: seq<real>)
    ensures |cum| == |ws|
  {
    seq(|ws|, i requires 0 <= i < |ws| => Sum(ws[..i + 1]))
  }

  lemma SumSingle(w: real)
    ensures Sum([w]) == w
  {
    assert [w][1..] == [];
  }

  /** Each running sum adds the next weight to the one before. */
  lemma CumSumStep(ws: seq<real>, i: nat)
    requires 0 < i < |ws|
    ensures CumSum(ws)[i] == CumSum(ws)[i - 1] + ws[i]
  {
    var a := ws[..i];
    assert ws[..i + 1] == a + [ws[i]];
    SumAppend(a, [ws[i]]);
    SumSingle(ws[i]);
  }

  /** `total = cum_weights[-1]`. */
  function CumTotal(ws: seq<real>): real
    requires |ws| > 0
  {
    CumSum(ws)[|ws| - 1]
  }

  /** The running sums start at the first weight and end at the sum of all. */
  lemma CumSumEnds(ws: seq<real>)
    requires |ws| > 0
    ensures CumSum(ws)[0] == ws[0] && CumTotal(ws) == Sum(ws)
  {
    assert ws[..|ws|] == ws;
    assert ws[..1] == [ws[0]];
    SumSingle(ws[0]);
  }

  predicate Sorted(a: seq<real>) {
    forall i, j :: 0 <= i <= j < |a| ==> a[i] <= a[j]
  }

  /** Non-negative weights have non-decreasing running sums. */
  lemma CumSumSorted(ws: seq<real>)
    requires NonNegative(ws)
    ensures Sorted(CumSum(ws))
  {
    var cum := CumSum(ws);
    forall i, j | 0 <= i <= j < |ws|
      ensures cum[i] <= cum[j]
    {
      assert ws[..j + 1] == ws[..i + 1] + ws[i + 1..j + 1];
      SumAppend(ws[..i + 1], ws[i + 1..j + 1]);
      SumNonNegative(ws[i + 1..j + 1]);
    }
  }

  /** `bisect.bisect_right(a, x, lo, hi)`: the binary search that halves
      `[lo, hi)`, going right of `mid` when `a[mid] <= x`. */
  function BisectRight(a: seq<real>, x: real, lo: nat, hi: nat): (r: nat)
    requires lo <= hi <= |a|
    ensures lo <= r <= hi
    decreases hi - lo
  {
    if lo < hi then
      var mid := (lo + hi) / 2;
      if x < a[mid] then BisectRight(a, x, lo, mid) else BisectRight(a, x, mid + 1, hi)
    else lo
  }

  /** On sorted entries, `bisect_right` returns the point that has every entry
      at most `x` to its left and every entry above `x` to its right. */
  lemma {:induction false} BisectRightSplits(a: seq<real>, x: real, lo: nat, hi: nat)
    requires lo <= hi <= |a| && Sorted(a)
    ensures var r := BisectRight(a, x, lo, hi);
      lo <= r <= hi
      && (forall i :: lo <= i < r ==> a[i] <= x)
      && (forall i :: r <= i < hi ==> x < a[i])
    decreases hi - lo
  {
    if lo < hi {
      var mid := (lo + hi) / 2;
      if x < a[mid] {
        BisectRightSplits(a, x, lo, mid);
      } else {
        BisectRightSplits(a, x, mid + 1, hi);
      }
    }
  }

  /** On sorted entries and an `x` in `[0, a[n - 1])`, searching `[0, n - 1)`
      returns `i` exactly when `x` lies in `[a[i - 1], a[i])` (from 0 for
      the first). */
  lemma BisectRightInterval(a: seq<real>, x: real, i: nat)
    requires |a| > 0 && Sorted(a) && 0.0 <= x < a[|a| - 1]
    requires i < |a|
    ensures BisectRight(a, x, 0, |a| - 1) < |a|
    ensures BisectRight(a, x, 0, |a| - 1) == i <==> (if i == 0 then 0.0 else a[i - 1]) <= x < a[i]
  {
    var r := BisectRight(a, x, 0, |a| - 1);
    BisectRightSplits(a, x, 0, |a| - 1);
    if r != i {
      if i < r {
        assert a[i] <= a[r - 1];
      } else {
        assert a[r] <= a[i - 1];
      }
    }
  }

  /** The sum of the weights before index `i`: where weight `i`'s interval starts. */
  function CumBefore(ws: seq<real>, i: nat): real
    requires i < |ws|
  {
    if i == 0 then 0.0 else CumSum(ws)[i - 1]
  }

  /** Weights of positive sum have a positive last running sum. */
  lemma TotalPositive(ws: seq<real>)
    requires |ws| > 0 && Sum(ws) > 0.0
    ensures CumTotal(ws) > 0.0
  {
    CumSumEnds(ws);
  }

  /** A draw in `[0, 1)` scaled by a positive total lands in `[0, total)`. */
  lemma ScaledDraw(u: real, total: real)
    requires 0.0 <= u < 1.0 && total > 0.0
    ensures 0.0 <= u * total < total
  {
    assert u * total < 1.0 * total;
  }

  /** The index `bisect_right(cum, x, 0, len(ws) - 1)` that
      `random.choices(population, weights=ws)` picks once it has scaled its
      draw to `x`. */
  function Choose(ws: seq<real>, x: real): (i: nat)
    requires |ws| > 0
    ensures i < |ws|
  {
    BisectRight(CumSum(ws), x, 0, |ws| - 1)
  }

  /** With non-negative weights and `x` in `[0, cum[-1])`, index `i` is picked
      exactly when `x` lands in `[CumBefore(i), CumSum(i))`, an interval as
      wide as weight `i`; so the index picked has positive weight. */
  lemma ChooseInterval(ws: seq<real>, x: real, i: nat)
    requires |ws| > 0 && NonNegative(ws) && 0.0 <= x < CumTotal(ws)
    requires i < |ws|
    ensures Choose(ws, x) == i <==> CumBefore(ws, i) <= x < CumSum(ws)[i]
    ensures Choose(ws, x) == i ==> ws[i] > 0.0
  {
    CumSumEnds(ws);
    CumSumSorted(ws);
    BisectRightInterval(CumSum(ws), x, i);
    if i > 0 {
      CumSumStep(ws, i);
    }
  }

  /** `ChooseInterval` for the draw `u` scaled by the total. */
  lemma ScaledInterval(ws: seq<real>, x: real, u: real, i: nat)
    requires |ws| > 0 && NonNegative(ws) && CumTotal(ws) > 0.0 && 0.0 <= u < 1.0
    requires i < |ws| && x == u * CumTotal(ws)
    ensures Choose(ws, x) == i <==> CumBefore(ws, i) <= x < CumSum(ws)[i]
    ensures Choose(ws, x) == i ==> ws[i] > 0.0
  {
    ScaledDraw(u, CumTotal(ws));
    ChooseInterval(ws, x, i);
  }

  /** `random.choices` scales a draw `u` in `[0, 1)` by the total; with
      non-negative weights of positive sum, index `i` is picked exactly when
      the scaled draw lands in weight `i`'s interval, and only if that weight
      is positive. */
  lemma ChooseScaled(ws: seq<real>, u: real, i: nat)
    requires |ws| > 0 && NonNegative(ws) && Sum(ws) > 0.0 && 0.0 <= u < 1.0
    requires i < |ws|
    ensures Choose(ws, u * CumTotal(ws)) == i <==> CumBefore(ws, i) <= u * CumTotal(ws) < CumSum(ws)[i]
    ensures Choose(ws, u * CumTotal(ws)) == i ==> ws[i] > 0.0
  {
    TotalPositive(ws);
    ScaledInterval(ws, u * CumTotal(ws), u, i);
  }
}
