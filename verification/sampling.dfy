/** Sampling: `sample_next_token` looks a context up and lets
    `random.choices` pick one of its next tokens, weighted by probability. */
module Sampling {
  import opened Dicts
  import opened Errors
  import opened Weights
  import opened Counting
  import opened Probabilities

  /** `random.choices(population, weights=ws)[0]` when `random.random()`
      returns `u`. It rejects a weight list of another length than the
      population (ValueError), reads `cum_weights[-1]` (IndexError for no
      weights), rejects a total that is not positive (ValueError), and
      returns the member at `bisect_right(cum_weights, u * total, 0, n - 1)`. */
  function Choices(population: seq<string>, ws: seq<real>, u: real): Result<string> {
    if |ws| != |population| then Failure(ValueError)
    else if |ws| == 0 then Failure(IndexError)
    else if CumTotal(ws) <= 0.0 then Failure(ValueError)
    else Success(population[Choose(ws, u * CumTotal(ws))])
  }

  /** `sample_next_token(ngram, probs)` when `random.random()` returns `u`:
      `random.choices(list(d.keys()), weights=list(d.values()))[0]` for the
      context's dict `d`. */
  function SampleNextToken(ngram: Context, probs: ProbTable, u: real): Result<string> {
    if ngram !in Keys(probs) then Failure(KeyError)
    else Choices(Keys(Get(probs, ngram)), Values(Get(probs, ngram)), u)
  }

  /** `random.choices` raises ValueError for a length mismatch, IndexError
      exactly for no weights and an empty population, and ValueError for
      weights whose sum is not positive; otherwise it returns a member of the
      population. */
  lemma ChoicesOutcomes(population: seq<string>, ws: seq<real>, u: real)
    ensures Choices(population, ws, u) == Failure(IndexError) <==> |population| == |ws| == 0
    ensures Choices(population, ws, u) == Failure(ValueError)
        <==> |ws| != |population| || (ws != [] && Sum(ws) <= 0.0)
    ensures Choices(population, ws, u).Success? <==> |ws| == |population| && ws != [] && Sum(ws) > 0.0
    ensures Choices(population, ws, u).Success? ==> Choices(population, ws, u).value in population
  {
    if ws != [] {
      CumSumEnds(ws);
    }
  }

  /** With non-negative weights of positive sum and a draw in `[0, 1)`, member
      `i` is returned when `u * total` falls in its interval of the running
      sums, an interval as wide as its weight; and the member at the index
      picked has positive weight. */
  lemma ChoicesByWeight(population: seq<string>, ws: seq<real>, u: real, i: nat)
    requires |ws| == |population| && i < |ws|
    requires 0.0 <= u < 1.0 && NonNegative(ws) && Sum(ws) > 0.0
    ensures CumBefore(ws, i) <= u * CumTotal(ws) < CumSum(ws)[i] ==> Choices(population, ws, u) == Success(population[i])
    ensures Choose(ws, u * CumTotal(ws)) == i ==> Choices(population, ws, u) == Success(population[i]) && ws[i] > 0.0
  {
    TotalPositive(ws);
    ChooseScaled(ws, u, i);
  }

  /** With non-negative weights and a draw in `[0, 1)`, a member that comes
      back has positive weight. */
  lemma ChoicesPositive(population: seq<string>, ws: seq<real>, u: real)
    requires 0.0 <= u < 1.0 && NonNegative(ws)
    ensures Choices(population, ws, u).Success? ==>
      exists i :: 0 <= i < |ws| && population[i] == Choices(population, ws, u).value && ws[i] > 0.0
  {
    if |ws| == |population| && ws != [] {
      ChoicesOutcomes(population, ws, u);
      if Choices(population, ws, u).Success? {
        ChoicesByWeight(population, ws, u, Choose(ws, u * CumTotal(ws)));
      }
    }
  }

  /** `sample_next_token` raises KeyError exactly for a context missing from
      the table; for a present context, IndexError exactly when it has no next
      tokens and ValueError exactly when their probabilities do not add up to a
      positive number; otherwise it returns one of the context's next tokens. */
  lemma SampleOutcomes(ngram: Context, probs: ProbTable, u: real)
    ensures SampleNextToken(ngram, probs, u) == Failure(KeyError) <==> ngram !in Keys(probs)
    ensures ngram in Keys(probs) ==>
      var row := Get(probs, ngram);
      var r := SampleNextToken(ngram, probs, u);
      (r == Failure(IndexError) <==> row == [])
      && (r == Failure(ValueError) <==> row != [] && Sum(Values(row)) <= 0.0)
      && (r.Success? ==> r.value in Keys(row))
  {
    if ngram in Keys(probs) {
      var row := Get(probs, ngram);
      ChoicesOutcomes(Keys(row), Values(row), u);
    }
  }

  /** For a present context with non-negative probabilities and a draw in
      `[0, 1)`, a token that comes back has positive probability. */
  lemma SamplePositive(ngram: Context, probs: ProbTable, u: real)
    requires 0.0 <= u < 1.0 && ngram in Keys(probs)
    requires NonNegative(Values(Get(probs, ngram)))
    ensures SampleNextToken(ngram, probs, u).Success? ==>
      exists i :: 0 <= i < |Get(probs, ngram)|
        && Get(probs, ngram)[i].0 == SampleNextToken(ngram, probs, u).value
        && Get(probs, ngram)[i].1 > 0.0
  {
    var row := Get(probs, ngram);
    ChoicesPositive(Keys(row), Values(row), u);
    if SampleNextToken(ngram, probs, u).Success? {
      var i :| 0 <= i < |Values(row)| && Keys(row)[i] == SampleNextToken(ngram, probs, u).value && Values(row)[i] > 0.0;
      ItemAt(row, i);
    }
  }
}
