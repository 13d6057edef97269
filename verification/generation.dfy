/** Generation: `generate_text_from_ngram` starts from a seed context and, once
    per requested word, samples a next token for the last `gram_size` tokens
    of the text so far and appends it; the result is the text joined with
    single spaces. The random draws are a parameter: draw `j` is what
    `random.random()` returns inside `random.choices` in iteration `j`. */
module Generation {
  import opened Dicts
  import opened Errors
  import opened Words
  import opened Weights
  import opened Counting
  import opened Probabilities
  import opened Sampling

  /** `text[-k:]` for `k >= 0`: the last `k` tokens, all of them when there
      are fewer, and (as `text[-0:]` is `text[0:]`) all of them for `k == 0`. */
  function LastK(text: seq<string>, k: nat): seq<string> {
    if k == 0 || |text| <= k then text else text[|text| - k..]
  }

  /** The context is a suffix of the text, exactly `k` tokens long once the
      text has that many (for positive `k`). */
  lemma LastKSuffix(text: seq<string>, k: nat)
    ensures var ctx := LastK(text, k);
      |ctx| <= |text| && ctx == text[|text| - |ctx|..]
      && (0 < k <= |text| ==> |ctx| == k)
      && (k == 0 || |text| <= k ==> ctx == text)
  {
  }

  /** Once the text holds at least `k >= 1` tokens, appending a token slides
      the context by one: its first token drops off and the new token joins
      at the end. */
  lemma LastKSlides(text: seq<string>, k: nat, t: string)
    requires 0 < k <= |text|
    ensures LastK(text + [t], k) == LastK(text, k)[1..] + [t]
  {
    assert (text + [t])[|text| + 1 - k..] == text[|text| - k..][1..] + [t];
  }

  /** What one iteration does with a draw: sample a next token for a context. */
  type Sampler = (Context, real) -> Result<string>

  /** `sample_next_token` over the table `probs`. */
  function SamplerOf(probs: ProbTable): Sampler {
    (c: Context, u: real) => SampleNextToken(c, probs, u)
  }

  /** The tokens after one iteration per draw, starting from `text`; the first
      failed sample stops the loop with its error. A successful run keeps the
      seed and appends one token per draw. */
  function Generate(text: seq<string>, draws: seq<real>, sample: Sampler, k: nat): (r: Result<seq<string>>)
    ensures r.Success? ==> |r.value| == |text| + |draws| && r.value[..|text|] == text
    decreases |draws|
  {
    if draws == [] then Success(text)
    else
      var next := sample(LastK(text, k), draws[0]);
      if next.Failure? then Failure(next.error)
      else
        var r := Generate(text + [next.value], draws[1..], sample, k);
        assert r.Success? ==> r.value[..|text|] == r.value[..|text| + 1][..|text|];
        r
  }

  /** `generate_text_from_ngram(ngram, num_words, probs, gram_size)`: a
      negative `num_words` runs no iteration. It returns the generated tokens
      joined with single spaces, or the error of the first failed sample. */
  method GenerateTextFromNgram(ngram: Context, numWords: int, probs: ProbTable, gramSize: nat, draws: seq<real>)
    returns (r: Result<string>)
    requires |draws| == if numWords > 0 then numWords else 0
    ensures r.Failure? <==> Generate(ngram, draws, SamplerOf(probs), gramSize).Failure?
    ensures r.Failure? ==> r.error == Generate(ngram, draws, SamplerOf(probs), gramSize).error
    ensures r.Success? ==> r.value == Join(Generate(ngram, draws, SamplerOf(probs), gramSize).value)
  {
    var text := ngram;
    var i := 0;
    while i < numWords
      invariant 0 <= i <= |draws|
      invariant Generate(ngram, draws, SamplerOf(probs), gramSize) == Generate(text, draws[i..], SamplerOf(probs), gramSize)
    {
      assert draws[i..][0] == draws[i] && draws[i..][1..] == draws[i + 1..];
      var nextToken := SampleNextToken(LastK(text, gramSize), probs, draws[i]);
      if nextToken.Failure? {
        return Failure(nextToken.error);
      }
      text := text + [nextToken.value];
      i := i + 1;
    }
    assert draws[i..] == [];
    return Success(Join(text));
  }

  /** In a successful run, each token after the seed is what the sampler
      returned for the context of the text before it and that token's draw. */
  lemma {:induction false} GenerateTokens(text: seq<string>, draws: seq<real>, sample: Sampler, k: nat)
    ensures Generate(text, draws, sample, k).Success? ==>
      var ws := Generate(text, draws, sample, k).value;
      forall m :: |text| <= m < |ws| ==> sample(LastK(ws[..m], k), draws[m - |text|]) == Success(ws[m])
    decreases |draws|
  {
    if draws != [] && Generate(text, draws, sample, k).Success? {
      var next := sample(LastK(text, k), draws[0]);
      var text' := text + [next.value];
      GenerateTokens(text', draws[1..], sample, k);
      var ws := Generate(text, draws, sample, k).value;
      assert ws == Generate(text', draws[1..], sample, k).value;
      forall m | |text| <= m < |ws|
        ensures sample(LastK(ws[..m], k), draws[m - |text|]) == Success(ws[m])
      {
        if m == |text| {
          assert ws[..m] == text;
          assert ws[m] == ws[..|text'|][|text|];
        } else {
          assert draws[m - |text|] == draws[1..][m - |text'|];
        }
      }
    }
  }

  /** A failed run failed on some draw: the text up to that draw extends the
      seed, and sampling its context raised the run's error. */
  lemma {:induction false} GenerateFails(text: seq<string>, draws: seq<real>, sample: Sampler, k: nat)
    ensures Generate(text, draws, sample, k).Failure? ==>
      exists p :: |text| <= |p| < |text| + |draws| && p[..|text|] == text
        && sample(LastK(p, k), draws[|p| - |text|]) == Failure(Generate(text, draws, sample, k).error)
    decreases |draws|
  {
    if draws != [] {
      var next := sample(LastK(text, k), draws[0]);
      if next.Failure? {
        assert text[..|text|] == text;
      } else {
        var text' := text + [next.value];
        GenerateFails(text', draws[1..], sample, k);
        if Generate(text, draws, sample, k).Failure? {
          var p :| |text'| <= |p| < |text'| + |draws[1..]| && p[..|text'|] == text'
            && sample(LastK(p, k), draws[1..][|p| - |text'|]) == Failure(Generate(text', draws[1..], sample, k).error);
          assert p[..|text|] == p[..|text'|][..|text|];
          assert draws[1..][|p| - |text'|] == draws[|p| - |text|];
        }
      }
    }
  }

  /** The token at position `m` after the seed was seen to follow its
      context: the context is a key of the table and the token a key of that
      context's dict. */
  lemma GenerateFollowsAt(text: seq<string>, draws: seq<real>, probs: ProbTable, k: nat, m: nat)
    requires Generate(text, draws, SamplerOf(probs), k).Success? && |text| <= m < |text| + |draws|
    ensures var ws := Generate(text, draws, SamplerOf(probs), k).value;
      LastK(ws[..m], k) in Keys(probs) && ws[m] in Keys(Get(probs, LastK(ws[..m], k)))
  {
    GenerateTokens(text, draws, SamplerOf(probs), k);
    var ws := Generate(text, draws, SamplerOf(probs), k).value;
    SampleOutcomes(LastK(ws[..m], k), probs, draws[m - |text|]);
  }

  /** Every appended token was seen to follow its context. */
  lemma GenerateFollows(text: seq<string>, draws: seq<real>, probs: ProbTable, k: nat)
    ensures Generate(text, draws, SamplerOf(probs), k).Success? ==>
      var ws := Generate(text, draws, SamplerOf(probs), k).value;
      forall m :: |text| <= m < |ws| ==>
        LastK(ws[..m], k) in Keys(probs) && ws[m] in Keys(Get(probs, LastK(ws[..m], k)))
  {
    if Generate(text, draws, SamplerOf(probs), k).Success? {
      var ws := Generate(text, draws, SamplerOf(probs), k).value;
      forall m | |text| <= m < |ws|
        ensures LastK(ws[..m], k) in Keys(probs) && ws[m] in Keys(Get(probs, LastK(ws[..m], k)))
      {
        GenerateFollowsAt(text, draws, probs, k, m);
      }
    }
  }

  /** Every context of the table holds a probability distribution: a
      non-empty dict of non-negative weights with a positive sum. */
  predicate Distributions(probs: ProbTable) {
    forall c :: c in Keys(probs) ==>
      Get(probs, c) != [] && NonNegative(Values(Get(probs, c))) && Sum(Values(Get(probs, c))) > 0.0
  }

  /** Over a table of distributions, a run can only fail with KeyError: the
      text reached a context the table does not hold. */
  lemma GenerateOnlyKeyError(text: seq<string>, draws: seq<real>, probs: ProbTable, k: nat)
    requires Distributions(probs)
    ensures Generate(text, draws, SamplerOf(probs), k).Failure? ==> Generate(text, draws, SamplerOf(probs), k).error == KeyError
  {
    GenerateFails(text, draws, SamplerOf(probs), k);
    if Generate(text, draws, SamplerOf(probs), k).Failure? {
      var p :| |text| <= |p| < |text| + |draws| && p[..|text|] == text
        && SamplerOf(probs)(LastK(p, k), draws[|p| - |text|]) == Failure(Generate(text, draws, SamplerOf(probs), k).error);
      SampleOutcomes(LastK(p, k), probs, draws[|p| - |text|]);
    }
  }

  /** Over a table of distributions and draws in `[0, 1)`, every appended
      token has positive probability after its context. */
  lemma GeneratePositive(text: seq<string>, draws: seq<real>, probs: ProbTable, k: nat, m: nat)
    requires Distributions(probs)
    requires forall d :: 0 <= d < |draws| ==> 0.0 <= draws[d] < 1.0
    requires Generate(text, draws, SamplerOf(probs), k).Success? && |text| <= m < |text| + |draws|
    ensures var ws := Generate(text, draws, SamplerOf(probs), k).value;
      var ctx := LastK(ws[..m], k);
      ctx in Keys(probs)
      && exists i :: 0 <= i < |Get(probs, ctx)| && Get(probs, ctx)[i].0 == ws[m] && Get(probs, ctx)[i].1 > 0.0
  {
    GenerateTokens(text, draws, SamplerOf(probs), k);
    var ws := Generate(text, draws, SamplerOf(probs), k).value;
    var ctx := LastK(ws[..m], k);
    SampleOutcomes(ctx, probs, draws[m - |text|]);
    SamplePositive(ctx, probs, draws[m - |text|]);
  }

  /** Every token of the table's dicts is a word. */
  predicate WordTokens(probs: ProbTable) {
    forall c :: c in Keys(probs) ==> AllWords(Keys(Get(probs, c)))
  }

  /** With a seed of words and a table whose tokens are words, the returned
      string splits back into the generated tokens: the seed's words followed
      by one word per draw. */
  lemma GenerateWords(text: seq<string>, draws: seq<real>, probs: ProbTable, k: nat)
    requires AllWords(text) && WordTokens(probs)
    ensures Generate(text, draws, SamplerOf(probs), k).Success? ==>
      var ws := Generate(text, draws, SamplerOf(probs), k).value;
      AllWords(ws) && Split(Join(ws)) == ws && |Split(Join(ws))| == |text| + |draws|
  {
    if Generate(text, draws, SamplerOf(probs), k).Success? {
      var ws := Generate(text, draws, SamplerOf(probs), k).value;
      forall m | 0 <= m < |ws|
        ensures IsWord(ws[m])
      {
        if m < |text| {
          assert ws[m] == ws[..|text|][m];
        } else {
          GenerateFollowsAt(text, draws, probs, k, m);
          var row := Keys(Get(probs, LastK(ws[..m], k)));
          var i :| 0 <= i < |row| && row[i] == ws[m];
        }
      }
      SplitJoin(ws);
    }
  }
}
