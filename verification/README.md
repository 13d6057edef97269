# shAIkespeare n-gram generator, modelled in Dafny

This project models the n-gram text generator of `shAIkespeare/generator.py`. The generator works in four stages over a list of word tokens:

1. **Windowing.** `create_grams` slides a frame of `gram_size` tokens over the stream and emits each window joined with single spaces.
2. **Counting.** `create_ngram_counts` walks adjacent gram pairs. The first gram, split back into words, is the context. The last word of the second gram is the token that followed it. These pairs are tallied in a nested dict.
3. **Normalising.** `create_ngram_probs` divides each context's counts by the context's total.
4. **Sampling and generating.**
   - `sample_next_token` looks a context up and lets `random.choices` draw one of its next tokens by weight.
   - `generate_text_from_ngram` starts from a seed. It repeatedly samples a token for the last `gram_size` tokens, appends it, and joins the result with spaces.

The modules follow those stages:

| file | module | what it holds |
|---|---|---|
| `errors.dfy` | `Errors` | the Python exceptions the core can raise, and a `Result` type |
| `words.dfy` | `Words` | `' '.join`, the whitespace `str.split()`, and their round trip on words |
| `windowing.dfy` | `Windowing` | `create_grams` |
| `dicts.dfy` | `Dicts` | insertion-ordered Python dicts: lookup, assignment, keys, values, sum of values |
| `counting.dfy` | `Counting` | `create_ngram_counts` and what each count means |
| `weights.dfy` | `Weights` | the arithmetic of `random.choices`: running sums, the total, `bisect_right` |
| `probabilities.dfy` | `Probabilities` | `create_ngram_probs` |
| `sampling.dfy` | `Sampling` | `random.choices` and `sample_next_token` |
| `generation.dfy` | `Generation` | `generate_text_from_ngram` |
| `pipeline.dfy` | `Pipeline` | the stages chained: counts against the token stream; trained tables and generation from them |

Modelling decisions:
- **Dicts.** A Python dict is the list of its items in insertion order (`Dicts.Dict`). `d.keys()`, `d.values()` and `d.items()` walk that order, and `random.choices` sees keys and weights in it, so the order matters. `d[k] = v` replaces the value of an existing key in place and appends a new key at the end.
- **Loops.** The three loops that build a list or a dict (`create_grams`, `create_ngram_counts`, `create_ngram_probs`) and the generation loop are methods with `while` loops. Each is proved against a specification function: `Grams`, `Tally`, `ProbsUpTo`, `Generate`. The properties are then proved about those functions. `sample_next_token` has no state and is a function.
- **Randomness.** Randomness is a parameter.
  - `sample_next_token` is `Sampling.SampleNextToken`: KeyError for a missing context, otherwise `random.choices` over the context's keys and values.
  - `random.choices(population, weights=ws)[0]` is `Sampling.Choices`, modelled as CPython 3.9+ implements it, given the value `u` that `random.random()` returns. It returns `population[bisect_right(cum_weights, u * total, 0, n - 1)]`, where `cum_weights` are the running sums and `total` is the last running sum.
  - Its errors are modelled too: ValueError for a length mismatch, IndexError for no weights, ValueError for a total that is not positive.
  - `GenerateTextFromNgram` takes one draw per requested word.
- **Generation.** `Generation.Generate` is written over a sampler function `(context, draw) -> Result<token>`. Its structural lemmas (`GenerateTokens`, `GenerateFails`) hold for any sampler. `SamplerOf(probs)` is `Sampling.SampleNextToken` over a table. The lemmas about tables instantiate it.
- **Errors.** Errors are `Result` values: KeyError, IndexError, ZeroDivisionError, ValueError, raised exactly where the code raises them:
  - `create_ngram_counts` raises IndexError when a gram after the first splits into no words (line 44).
  - `create_ngram_probs` raises ZeroDivisionError when a non-empty dict of counts sums to 0 (line 60).
  - `sample_next_token` raises KeyError when the context is absent (line 69), plus the errors of `random.choices`.
  - A failed sample aborts generation with no partial result.
- **Edge cases.** The model keeps the code's behaviour at the edges:
  - `create_grams` with `gram_size` larger than the stream returns an empty list without raising.
  - `create_ngram_counts` never builds an empty inner dict (`Counting.TallyPositive`), so normalising a built table never divides by zero (`Pipeline.TallyDividesSafely`). The only division failure is ZeroDivisionError, for a hand-built table.
  - In a table trained with the same `gram_size` from word tokens, every context holds `gram_size` words, so a context of another length is a missing key and raises KeyError (`Pipeline.TrainedContextLength`).
  - `gram_size = 0` is accepted by the code. Every gram is then `""`, and counting raises IndexError as soon as there are two grams (`Pipeline.ZeroGramSizeFails`). In generation, `text[-0:]` is the whole text (`Generation.LastK`).

## Model

| member | source | states |
|---|---|---|
| Words.Split | shAIkespeare/generator.py:43-44 | `s.split()` returns only words: non-empty, whitespace-free strings |
| Words.SplitJoin | shAIkespeare/generator.py:35 | splitting the space-join of a list of words gives back exactly that list, so the join of `k` words splits into `k` words |
| Windowing.CreateGrams | shAIkespeare/generator.py:27-38 | returns `max(0, len(tokens) - gram_size + 1)` grams, the empty list when `gram_size` exceeds the number of tokens, and gram `i` is the join of `tokens[i:i+gram_size]` |
| Windowing.GramSplitsToWindow | shAIkespeare/generator.py:34-35 | splitting gram `i` of word tokens gives back exactly the `k` tokens of window `i` |
| Windowing.AdjacentGramsOverlap | shAIkespeare/generator.py:34-35 | adjacent grams overlap in `k - 1` words, and the last word of gram `i + 1` is `tokens[i + k]` |
| Dicts.ItemAt | shAIkespeare/generator.py:58 | key `i` and value `i` of a dict are the two halves of item `i` |
| Dicts.GetAt | shAIkespeare/generator.py:69 | in a dict listing each key once, looking up the key of item `i` finds its value |
| Dicts.PutKeys | shAIkespeare/generator.py:46 | assignment appends a new key at the end, keeps an existing key in place, and stores the value |
| Dicts.GetPutOther | shAIkespeare/generator.py:46 | assignment leaves the value of every other key unchanged |
| Dicts.PutDistinct | shAIkespeare/generator.py:46 | assignment keeps each key listed once |
| Dicts.ItemAtMostTotal | shAIkespeare/generator.py:59 | no count exceeds the sum of the dict's values |
| Counting.DedupDistinct | shAIkespeare/generator.py:45-46 | first-occurrence order keeps each element once and loses none |
| Counting.AddOneAsWritten | shAIkespeare/generator.py:47-49 | the one-step update is line 49's `+= 1` on an existing token, or line 48's `= 0` followed by `+= 1` on a new one |
| Counting.AddOneKeys | shAIkespeare/generator.py:47-49 | the update appends a new token at the end and keeps the order otherwise |
| Counting.AddOneCount | shAIkespeare/generator.py:49 | the update raises the count of `t` by one and leaves every other count as it was |
| Counting.AddOneTotal | shAIkespeare/generator.py:49 | the update raises the dict's sum by exactly one |
| Counting.AddOnePositive | shAIkespeare/generator.py:47-49 | the update keeps every count at least 1 and the dict non-empty |
| Counting.BumpAsWritten | shAIkespeare/generator.py:45-49 | one iteration is line 46's `= {}` for a new context, then the dict update under that context |
| Counting.BumpKeys | shAIkespeare/generator.py:45-46 | an iteration appends a new context at the end and keeps the order otherwise |
| Counting.BumpRow | shAIkespeare/generator.py:45-49 | an iteration updates only the dict of its own context |
| Counting.BumpCountIn | shAIkespeare/generator.py:49 | an iteration adds exactly 1 to exactly one (context, token) entry |
| Counting.BumpGrandTotal | shAIkespeare/generator.py:49 | an iteration raises the sum of all counts by exactly one |
| Counting.BumpPositive | shAIkespeare/generator.py:45-49 | an iteration keeps every dict non-empty with counts of at least 1 |
| Counting.CreateNgramCounts | shAIkespeare/generator.py:40-51 | returns the table of all adjacent pairs, and the empty table for fewer than two grams; raises IndexError exactly when a gram after the first splits into no words |
| Counting.TallyCounts | shAIkespeare/generator.py:42-49 | the count under context `c` and token `t` is the number of pairs `i` whose first gram splits to `c` and whose second gram ends in `t` |
| Counting.TallyContexts | shAIkespeare/generator.py:43-46 | a context is a key exactly when some pair has it as first gram |
| Counting.TallyTotals | shAIkespeare/generator.py:42-49 | a context's counts sum to the number of pairs with that context |
| Counting.TallyGrandTotal | shAIkespeare/generator.py:42-49 | all counts together sum to the number of pairs, `len(ngrams) - 1` |
| Counting.TallyContextOrder | shAIkespeare/generator.py:45-46 | the contexts are listed once each, in the order the loop first meets them |
| Counting.TallyTokenOrder | shAIkespeare/generator.py:47-48 | a context's tokens are listed once each, in the order they first followed it |
| Counting.TallyPositive | shAIkespeare/generator.py:45-49 | every dict in the table is non-empty and every count is at least 1 |
| Weights.SumNonNegative | shAIkespeare/generator.py:72 | non-negative weights have a non-negative sum |
| Weights.CumSumStep | shAIkespeare/generator.py:72 | each running sum of the weights is the one before plus the next weight |
| Weights.CumSumEnds | shAIkespeare/generator.py:72 | the running sums start at the first weight and end at the sum of all weights |
| Weights.CumSumSorted | shAIkespeare/generator.py:72 | non-negative weights have non-decreasing running sums |
| Weights.BisectRightSplits | shAIkespeare/generator.py:72 | on sorted entries, `bisect_right` returns the point with every entry at most `x` to its left and every entry above `x` to its right |
| Weights.BisectRightInterval | shAIkespeare/generator.py:72 | on sorted entries and `x` below the last, `bisect_right` over all but the last slot returns `i` exactly when `x` lies in `[a[i-1], a[i])` |
| Weights.TotalPositive | shAIkespeare/generator.py:72 | weights with a positive sum have a positive last running sum |
| Weights.ChooseInterval | shAIkespeare/generator.py:72 | index `i` is picked exactly when the scaled draw lies in weight `i`'s interval of the running sums; a picked index has positive weight |
| Weights.ChooseScaled | shAIkespeare/generator.py:72 | the same for the draw `u` scaled by the total |
| Probabilities.NormalizeItems | shAIkespeare/generator.py:60 | the comprehension keeps the tokens in order and maps each count to `count / total` |
| Probabilities.NormalizeSum | shAIkespeare/generator.py:59-60 | the normalised values sum to the counts' sum over `total` |
| Probabilities.CreateNgramProbs | shAIkespeare/generator.py:53-62 | returns every context's dict normalised by its own total; raises ZeroDivisionError exactly when some non-empty dict of counts sums to 0 |
| Probabilities.ProbsKeys | shAIkespeare/generator.py:58-60 | the probability table has the same contexts, in the same order, as the count table |
| Probabilities.ProbsRow | shAIkespeare/generator.py:58-60 | the dict of each context is that context's counts divided by their own sum |
| Probabilities.RowDistribution | shAIkespeare/generator.py:59-60 | counts of at least 1 become probabilities in `(0, 1]` on the same tokens, summing to 1 |
| Sampling.ChoicesOutcomes | shAIkespeare/generator.py:72 | `random.choices` raises ValueError for a length mismatch, IndexError exactly for no weights and an empty population, and ValueError for a sum that is not positive; otherwise it returns a member of the population |
| Sampling.ChoicesByWeight | shAIkespeare/generator.py:72 | member `i` is returned when the scaled draw falls in its interval, an interval as wide as its weight; the member at the picked index has positive weight |
| Sampling.ChoicesPositive | shAIkespeare/generator.py:72 | with non-negative weights, a returned member has positive weight |
| Sampling.SampleOutcomes | shAIkespeare/generator.py:64-72 | KeyError exactly for an absent context; for a present one, IndexError exactly for no next tokens, ValueError exactly for a non-positive sum, otherwise one of the context's next tokens |
| Sampling.SamplePositive | shAIkespeare/generator.py:69-72 | a sampled token has positive probability in its context's dict |
| Generation.LastKSuffix | shAIkespeare/generator.py:80 | `text[-k:]` is a suffix of the text, `k` tokens long once the text has that many, and the whole text for `k == 0` or a shorter text |
| Generation.LastKSlides | shAIkespeare/generator.py:80-81 | once the text holds `k` tokens, appending one slides the context by one token |
| Generation.Generate | shAIkespeare/generator.py:78-81 | a successful run keeps the seed as its prefix and appends exactly one token per iteration |
| Generation.GenerateTextFromNgram | shAIkespeare/generator.py:74-82 | the loop returns the joined tokens of the run, or the error of its first failed sample; a negative `num_words` runs no iteration |
| Generation.GenerateTokens | shAIkespeare/generator.py:79-81 | each appended token is what sampling returned for the context of the text before it and that iteration's draw |
| Generation.GenerateFails | shAIkespeare/generator.py:79-81 | a failed run failed on some iteration whose context sampling raised the run's error |
| Generation.GenerateFollowsAt | shAIkespeare/generator.py:80-81 | the token at a given position is a key of the dict under the context of the `gram_size` tokens before it |
| Generation.GenerateFollows | shAIkespeare/generator.py:80-81 | every appended token is a key of the dict under the context formed by the `gram_size` tokens before it |
| Generation.GenerateOnlyKeyError | shAIkespeare/generator.py:79-81 | over a table of distributions, a run can only fail with KeyError |
| Generation.GeneratePositive | shAIkespeare/generator.py:80-81 | over a table of distributions and draws in `[0, 1)`, each appended token has positive probability after its context |
| Generation.GenerateWords | shAIkespeare/generator.py:82 | with a seed of words and word tokens in the table, the returned string splits back into the seed followed by one word per iteration |
| Pipeline.GramPairs | shAIkespeare/generator.py:42 | the grams of `n` tokens form `n - k` adjacent pairs once `n >= k`, and none otherwise (for `gram_size = 0`, `n` pairs) |
| Pipeline.GramsCountable | shAIkespeare/generator.py:33-44 | grams of word tokens with `gram_size >= 1` never make counting raise IndexError |
| Pipeline.ZeroGramSizeFails | shAIkespeare/generator.py:33-44 | with `gram_size = 0` and at least one token, counting raises IndexError |
| Pipeline.PairCountIsStreamCount | shAIkespeare/generator.py:42-49 | over the grams of word tokens, pairs counted up to `j` are the stream positions where context `c` is followed by token `t` |
| Pipeline.CountsAreStreamCounts | shAIkespeare/generator.py:27-51 | the count table of the grams of word tokens holds how often `t` came right after the `k` tokens `c` in the stream |
| Pipeline.TallyDividesSafely | shAIkespeare/generator.py:58-60 | normalising a count table built by `create_ngram_counts` never divides by zero |
| Pipeline.NextsAreWords | shAIkespeare/generator.py:44 | every recorded next token is a word |
| Pipeline.TrainedRow | shAIkespeare/generator.py:53-62 | each context of the trained probability table holds the normalised dict of that context's counts |
| Pipeline.CountedContextsAreWindows | shAIkespeare/generator.py:42-43 | every context counted from the grams of word tokens is a window of the stream, so it holds exactly `gram_size` words |
| Pipeline.TrainedContextLength | shAIkespeare/generator.py:66-69 | every context of the table trained with `gram_size` `k` holds `k` words, and sampling after a context of any other length raises KeyError |
| Pipeline.TrainedDistributions | shAIkespeare/generator.py:40-62 | every context of the trained table holds a probability distribution over word tokens |
| Pipeline.TrainedGeneration | shAIkespeare/generator.py:74-82 | generating from the table trained on word tokens fails only with KeyError; from a seed of words it yields `len(seed) + max(num_words, 0)` words, one per draw |

## Left out

- `load_data` and `main` (shAIkespeare/generator.py:16-25, 84-169): corpus download, file reading, regex tokenisation and printing are I/O and foreign library calls. Their token list is modelled as any list of strings; several properties assume words.
- The module defaults `GRAM_SIZE` and `PHRASE`: `gram_size` is an explicit parameter.
- A negative `gram_size`: it is a `nat`. Python's `text[-g:]` for negative `g` is not modelled.
- `random.random()` itself is a parameter. The model states where each draw leads, not how likely each token is; the distribution of outcomes is not modelled.
- Floating point: probabilities and weights are exact reals. Line 60's rounding, the float conversion `cum_weights[-1] + 0.0` and the finiteness check in `random.choices` are not modelled. Counts are unbounded naturals.
- `Words.IsSpace` lists the whitespace characters `str.isspace()` accepts. Unicode handling beyond that list is not modelled.
- The seed is modelled as a tuple of words (`Context`). A string seed, which `list(ngram)` would split into characters, is not modelled.
- Sampling.ChoicesByWeight: states which token a given draw yields, not the probability of each token.
