/** Normalising: `create_ngram_probs` divides each context's counts by that
    context's total, keeping the order of contexts and of tokens. */
module Probabilities {
  import opened Dicts
  import opened Errors
  import opened Weights
  import opened Counting

  /** One context's dict from next token to probability. */
  type ProbRow = Dict<string, real>

  type ProbTable = Dict<Context, ProbRow>

  /** Line 60's comprehension `{t: count / total for t, count in d.items()}`;
      it divides only when the dict has an item. */
  function Normalize(row: Row, total: nat): ProbRow
    requires row == [] || total > 0
    decreases |row|
  {
    if row == [] then []
    else [(row[0].0, row[0].1 as real / total as real)] + Normalize(row[1..], total)
  }

  /** The comprehension keeps the tokens, in order, and maps each count to
      count over total. */
  lemma {:induction false} NormalizeItems(row: Row, total: nat)
    requires row == [] || total > 0
    ensures |Normalize(row, total)| == |row|
    ensures Keys(Normalize(row, total)) == Keys(row)
    ensures forall i :: 0 <= i < |row| ==> Normalize(row, total)[i].1 == row[i].1 as real / total as real
    decreases |row|
  {
    if row != [] {
      NormalizeItems(row[1..], total);
      var n := Normalize(row, total);
      assert n[1..] == Normalize(row[1..], total);
      forall i | 0 < i < |row|
        ensures n[i].1 == row[i].1 as real / total as real
      {
        assert n[i] == n[1..][i - 1];
      }
    }
  }

  /** The probabilities add up to the counts' sum over `total`. */
  lemma {:induction false} NormalizeSum(row: Row, total: nat)
    requires total > 0
    ensures Sum(Values(Normalize(row, total))) == Total(row) as real / total as real
    decreases |row|
  {
    if row != [] {
      NormalizeSum(row[1..], total);
      var n := Normalize(row, total);
      assert n[1..] == Normalize(row[1..], total);
      assert Values(n)[1..] == Values(n[1..]);
      assert Sum(Values(n)) == n[0].1 + Sum(Values(n[1..]));
      AddFractions(row[0].1 as real, Total(row[1..]) as real, total as real);
    }
  }

  /** Fractions over one denominator add up their numerators. */
  lemma AddFractions(a: real, b: real, t: real)
    requires t > 0.0
    ensures a / t + b / t == (a + b) / t
  {
  }

  /** A dict on which line 60 raises ZeroDivisionError: it has an item, and
      its counts add up to 0. */
  predicate DividesByZero(row: Row) {
    row != [] && Total(row) == 0
  }

  /** No dict among the first `j` items raises ZeroDivisionError. */
  predicate NoneDivideByZero(counts: CountTable, j: nat)
    requires j <= |counts|
  {
    forall i :: 0 <= i < j ==> !DividesByZero(counts[i].1)
  }

  /** The table after the first `j` iterations of lines 58-60. */
  function ProbsUpTo(counts: CountTable, j: nat): ProbTable
    requires j <= |counts| && NoneDivideByZero(counts, j)
  {
    if j == 0 then []
    else
      var row := counts[j - 1].1;
      Put(ProbsUpTo(counts, j - 1), counts[j - 1].0, Normalize(row, Total(row)))
  }

  /** One unfolding of `ProbsUpTo`: iteration `j` stores the normalised dict
      of context `j` in the table of the first `j` iterations. */
  lemma ProbsNext(counts: CountTable, j: nat)
    requires j < |counts| && NoneDivideByZero(counts, j) && !DividesByZero(counts[j].1)
    ensures NoneDivideByZero(counts, j + 1)
    ensures ProbsUpTo(counts, j + 1)
         == Put(ProbsUpTo(counts, j), counts[j].0, Normalize(counts[j].1, Total(counts[j].1)))
  {
  }

  /** `create_ngram_probs`. It raises ZeroDivisionError exactly when some
      context's dict has items whose counts add up to 0; otherwise it returns
      every context's dict normalised. */
  method CreateNgramProbs(counts: CountTable) returns (r: Result<ProbTable>)
    ensures r == if NoneDivideByZero(counts, |counts|) then Success(ProbsUpTo(counts, |counts|))
                 else Failure(ZeroDivisionError)
  {
    var probs: ProbTable := [];
    var i := 0;
    while i < |counts|
      invariant i <= |counts| && NoneDivideByZero(counts, i)
      invariant probs == ProbsUpTo(counts, i)
    {
      var (ngram, nextTokenCounts) := counts[i];
      var totalCount := Total(nextTokenCounts);
      if nextTokenCounts != [] && totalCount == 0 {
        return Failure(ZeroDivisionError);
      }
      ProbsNext(counts, i);
      probs := Put(probs, ngram, Normalize(nextTokenCounts, totalCount));
      i := i + 1;
    }
    assert i == |counts|;
    return Success(probs);
  }

  /** With each context listed once, the contexts come out in the same order. */
  lemma {:induction false} ProbsKeys(counts: CountTable, j: nat)
    requires j <= |counts| && NoneDivideByZero(counts, j) && Distinct(Keys(counts))
    ensures Keys(ProbsUpTo(counts, j)) == Keys(counts)[..j]
  {
    if j > 0 {
      ProbsKeys(counts, j - 1);
      ItemAt(counts, j - 1);
      var last := counts[j - 1];
      PutKeys(ProbsUpTo(counts, j - 1), last.0, Normalize(last.1, Total(last.1)));
      assert Keys(counts)[..j] == Keys(counts)[..j - 1] + [counts[j - 1].0];
    }
  }

  /** With each context listed once, the dict of context `i` comes out
      normalised by its own total. */
  lemma {:induction false} ProbsRow(counts: CountTable, j: nat, i: nat)
    requires j <= |counts| && NoneDivideByZero(counts, j) && Distinct(Keys(counts))
    requires i < j
    ensures counts[i].0 in Keys(ProbsUpTo(counts, j))
    ensures Get(ProbsUpTo(counts, j), counts[i].0) == Normalize(counts[i].1, Total(counts[i].1))
  {
    var c := counts[i].0;
    var last := counts[j - 1];
    PutKeys(ProbsUpTo(counts, j - 1), last.0, Normalize(last.1, Total(last.1)));
    if i < j - 1 {
      ProbsRow(counts, j - 1, i);
      ItemAt(counts, i);
      ItemAt(counts, j - 1);
      GetPutOther(ProbsUpTo(counts, j - 1), last.0, Normalize(last.1, Total(last.1)), c);
    }
  }

  /** A context's counts, all at least 1, become probabilities in (0, 1]
      that add up to 1, on the same tokens. */
  lemma RowDistribution(row: Row)
    requires row != [] && PositiveRow(row)
    ensures Total(row) > 0
    ensures var p := Normalize(row, Total(row));
      Keys(p) == Keys(row)
      && (forall k :: 0 <= k < |p| ==> 0.0 < p[k].1 <= 1.0)
      && Sum(Values(p)) == 1.0
  {
    ItemAtMostTotal(row, 0);
    var total := Total(row);
    var p := Normalize(row, total);
    NormalizeItems(row, total);
    NormalizeSum(row, total);
    assert Sum(Values(p)) == total as real / total as real == 1.0;
    forall k | 0 <= k < |p|
      ensures 0.0 < p[k].1 <= 1.0
    {
      ItemAtMostTotal(row, k);
      Fraction(row[k].1 as real, total as real);
    }
  }

  /** A positive count over a total at least as large is a probability in
      `(0, 1]`. */
  lemma Fraction(a: real, t: real)
    requires 0.0 < a <= t
    ensures 0.0 < a / t <= 1.0
  {
    assert a / t * t == a;
  }
}
