/** The stages chained as the program's main pipeline chains them: tokens to
    grams (`create_grams`), grams to counts (`create_ngram_counts`), counts to
    probabilities (`create_ngram_probs`), probabilities to generated text
    (`generate_text_from_ngram`). */
module Pipeline {
  import opened Dicts
  import opened Errors
  import opened Words
  import opened Weights
  import opened Windowing
  import opened Counting
  import opened Probabilities
  import opened Sampling
  import opened Generation

  // ---------------------------------------------------------------------------
  // Grams to counts.

  /** The number of positions `i < j` of the token stream where the `k` tokens
      from `i` are `c` and the token right after them is `t`. */
  function StreamCount(tokens: seq<string>, k: nat, j: nat, c: Context, t: string): nat
    requires j == 0 || j + k <= |tokens|
  {
    if j == 0 then 0
    else StreamCount(tokens, k, j - 1, c, t) + (if tokens[j - 1..j - 1 + k] == c && tokens[j - 1 + k] == t then 1 else 0)
  }

  /** The gram list of a stream of `n` tokens has `n - k` adjacent pairs once
      `n >= k`, and none otherwise. */
  lemma GramPairs(tokens: seq<string>, k: nat)
    ensures PairTotal(Grams(tokens, k)) == if k <= |tokens| then |tokens| - k else 0
  {
  }

  /** Word tokens and a gram size of at least 1 give grams that all split into
      `k` words, so counting never raises IndexError. */
  lemma GramsCountable(tokens: seq<string>, k: nat)
    requires AllWords(tokens) && k >= 1
    ensures NextsNonEmpty(Grams(tokens, k), PairTotal(Grams(tokens, k)))
  {
    var ngrams := Grams(tokens, k);
    forall i | 0 < i <= PairTotal(ngrams)
      ensures |Split(ngrams[i])| > 0
    {
      GramSplitsToWindow(tokens, k, i);
    }
  }

  /** With a gram size of 0 every gram is the empty string, which splits into
      no words; a stream of at least one token gives two grams, so counting
      raises IndexError. */
  lemma ZeroGramSizeFails(tokens: seq<string>)
    requires |tokens| >= 1
    ensures !NextsNonEmpty(Grams(tokens, 0), PairTotal(Grams(tokens, 0)))
  {
    var ngrams := Grams(tokens, 0);
    assert ngrams[1] == Join(tokens[1..1]) == "";
    assert Split("") == [];
  }

  /** Over word tokens, pair `i` of the gram list has context `tokens[i..i+k]`
      and next token `tokens[i+k]`, so the pairs counted up to `j` are the
      stream positions counted up to `j`. */
  lemma {:induction false} PairCountIsStreamCount(tokens: seq<string>, k: nat, j: nat, c: Context, t: string)
    requires AllWords(tokens) && k >= 1 && j <= PairTotal(Grams(tokens, k))
    ensures j == 0 || j + k <= |tokens|
    ensures PairCount(Grams(tokens, k), j, c, t) == StreamCount(tokens, k, j, c, t)
  {
    GramPairs(tokens, k);
    if j > 0 {
      PairCountIsStreamCount(tokens, k, j - 1, c, t);
      var ngrams := Grams(tokens, k);
      GramSplitsToWindow(tokens, k, j - 1);
      AdjacentGramsOverlap(tokens, k, j - 1);
      assert Follows(ngrams, j - 1, t) <==> tokens[j - 1 + k] == t;
    }
  }

  /** The count table built from the grams of word tokens holds, under
      context `c` and token `t`, how often `t` came right after the `k` tokens
      `c` in the stream. */
  lemma CountsAreStreamCounts(tokens: seq<string>, k: nat, c: Context, t: string)
    requires AllWords(tokens) && k >= 1
    ensures NextsNonEmpty(Grams(tokens, k), PairTotal(Grams(tokens, k)))
    ensures var ngrams := Grams(tokens, k);
      PairTotal(ngrams) == 0 || PairTotal(ngrams) + k <= |tokens|
    ensures var ngrams := Grams(tokens, k);
      CountIn(Tally(ngrams, PairTotal(ngrams)), c, t) == StreamCount(tokens, k, PairTotal(ngrams), c, t)
  {
    var ngrams := Grams(tokens, k);
    GramsCountable(tokens, k);
    PairCountIsStreamCount(tokens, k, PairTotal(ngrams), c, t);
    TallyCounts(ngrams, PairTotal(ngrams), c, t);
  }

  // ---------------------------------------------------------------------------
  // Counts to probabilities.

  /** Every dict of a count table is non-empty with counts of at least 1, so
      its sum is positive and line 60 never divides by zero. */
  lemma TallyDividesSafely(ngrams: seq<string>)
    requires NextsNonEmpty(ngrams, PairTotal(ngrams))
    ensures NoneDivideByZero(Tally(ngrams, PairTotal(ngrams)), |Tally(ngrams, PairTotal(ngrams))|)
  {
    var counts := Tally(ngrams, PairTotal(ngrams));
    TallyPositive(ngrams, PairTotal(ngrams));
    forall i | 0 <= i < |counts|
      ensures !DividesByZero(counts[i].1)
    {
      RowDistribution(counts[i].1);
    }
  }

  /** Every next token recorded after a context is the last word of a gram,
      so a word. */
  lemma {:induction false} NextsAreWords(ngrams: seq<string>, j: nat, c: Context)
    requires j <= PairTotal(ngrams) && NextsNonEmpty(ngrams, j)
    ensures AllWords(NextsAfter(ngrams, j, c))
  {
    if j > 0 {
      NextsAreWords(ngrams, j - 1, c);
    }
  }

  /** The probability table of the counts of `ngrams`. */
  function TrainedProbs(ngrams: seq<string>): ProbTable
    requires NextsNonEmpty(ngrams, PairTotal(ngrams))
  {
    TallyDividesSafely(ngrams);
    var counts := Tally(ngrams, PairTotal(ngrams));
    ProbsUpTo(counts, |counts|)
  }

  /** Each context of the trained table holds the normalised dict of the
      same context in the count table. */
  lemma TrainedRow(ngrams: seq<string>, c: Context)
    requires NextsNonEmpty(ngrams, PairTotal(ngrams))
    requires c in Keys(TrainedProbs(ngrams))
    ensures var row := RowOf(Tally(ngrams, PairTotal(ngrams)), c);
      row != [] && PositiveRow(row) && Get(TrainedProbs(ngrams), c) == Normalize(row, Total(row))
  {
    var counts := Tally(ngrams, PairTotal(ngrams));
    TallyDividesSafely(ngrams);
    TallyContextOrder(ngrams, PairTotal(ngrams));
    TallyPositive(ngrams, PairTotal(ngrams));
    ProbsKeys(counts, |counts|);
    assert Keys(counts)[..|counts|] == Keys(counts);
    var i :| 0 <= i < |counts| && Keys(counts)[i] == c;
    ItemAt(counts, i);
    GetAt(counts, i);
    ProbsRow(counts, |counts|, i);
  }

  /** Every context of the trained table holds a probability distribution
      over tokens that are words. */
  lemma TrainedDistributions(ngrams: seq<string>)
    requires NextsNonEmpty(ngrams, PairTotal(ngrams))
    ensures Distributions(TrainedProbs(ngrams)) && WordTokens(TrainedProbs(ngrams))
  {
    var probs := TrainedProbs(ngrams);
    var counts := Tally(ngrams, PairTotal(ngrams));
    forall c | c in Keys(probs)
      ensures Get(probs, c) != [] && NonNegative(Values(Get(probs, c))) && Sum(Values(Get(probs, c))) > 0.0
      ensures AllWords(Keys(Get(probs, c)))
    {
      TrainedRow(ngrams, c);
      var row := RowOf(counts, c);
      var p := Normalize(row, Total(row));
      RowDistribution(row);
      NormalizeItems(row, Total(row));
      forall m | 0 <= m < |p|
        ensures Values(p)[m] >= 0.0
      {
        ItemAt(p, m);
      }
      TallyTokenOrder(ngrams, PairTotal(ngrams), c);
      NextsAreWords(ngrams, PairTotal(ngrams), c);
      DedupDistinct(NextsAfter(ngrams, PairTotal(ngrams), c));
      forall m | 0 <= m < |Keys(row)|
        ensures IsWord(Keys(row)[m])
      {
        var nexts := NextsAfter(ngrams, PairTotal(ngrams), c);
        assert Keys(row)[m] in nexts;
      }
    }
  }

  /** A context counted among the first `j` pairs of the grams of word
      tokens is a window of the stream, so it holds exactly `k` words. */
  lemma {:induction false} CountedContextsAreWindows(tokens: seq<string>, k: nat, j: nat, c: Context)
    requires AllWords(tokens) && j <= PairTotal(Grams(tokens, k))
    ensures ContextCount(Grams(tokens, k), j, c) > 0 ==> |c| == k
  {
    if j > 0 {
      CountedContextsAreWindows(tokens, k, j - 1, c);
      GramSplitsToWindow(tokens, k, j - 1);
    }
  }

  /** Every context of the table trained on word tokens with gram size `k`
      holds `k` words, so sampling after a context of any other length
      raises KeyError. */
  lemma TrainedContextLength(tokens: seq<string>, k: nat, c: Context, u: real)
    requires AllWords(tokens) && k >= 1
    ensures NextsNonEmpty(Grams(tokens, k), PairTotal(Grams(tokens, k)))
    ensures c in Keys(TrainedProbs(Grams(tokens, k))) ==> |c| == k
    ensures |c| != k ==> SampleNextToken(c, TrainedProbs(Grams(tokens, k)), u) == Failure(KeyError)
  {
    var ngrams := Grams(tokens, k);
    GramsCountable(tokens, k);
    var counts := Tally(ngrams, PairTotal(ngrams));
    TallyDividesSafely(ngrams);
    TallyContextOrder(ngrams, PairTotal(ngrams));
    ProbsKeys(counts, |counts|);
    assert Keys(counts)[..|counts|] == Keys(counts);
    TallyContexts(ngrams, PairTotal(ngrams), c);
    CountedContextsAreWindows(tokens, k, PairTotal(ngrams), c);
  }

  // ---------------------------------------------------------------------------
  // Probabilities to text.

  /** Generating from the table trained on word tokens fails only with
      KeyError; a successful run from a seed of words returns a string that
      splits back into the seed followed by one word per draw. */
  lemma TrainedGeneration(tokens: seq<string>, k: nat, seed: Context, draws: seq<real>)
    requires AllWords(tokens) && k >= 1
    ensures NextsNonEmpty(Grams(tokens, k), PairTotal(Grams(tokens, k)))
    ensures var r := Generate(seed, draws, SamplerOf(TrainedProbs(Grams(tokens, k))), k);
      (r.Failure? ==> r.error == KeyError)
      && (r.Success? && AllWords(seed) ==> Split(Join(r.value)) == r.value && |r.value| == |seed| + |draws|)
  {
    GramsCountable(tokens, k);
    var probs := TrainedProbs(Grams(tokens, k));
    TrainedDistributions(Grams(tokens, k));
    GenerateOnlyKeyError(seed, draws, probs, k);
    if AllWords(seed) {
      GenerateWords(seed, draws, probs, k);
    }
  }
}
