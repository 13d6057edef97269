/** Windowing: `create_grams` slides a frame of `k` tokens over the token list
    one position at a time and emits each window joined with single spaces. */
module Windowing {
  import opened Words

  /** How many windows `range(len(tokens) - k + 1)` visits: `max(0, n - k + 1)`. */
  function WindowCount(n: nat, k: nat): nat {
    if k <= n + 1 then n + 1 - k else 0
  }

  /** The list `create_grams(tokens, k)` returns, as a value. */
  function Grams(tokens: seq<string>, k: nat): seq<string> {
    seq(WindowCount(|tokens|, k), i requires 0 <= i < WindowCount(|tokens|, k) => Join(tokens[i..i + k]))
  }

  /** `create_grams`: one gram per window position, gram `i` the join of `tokens[i:i+k]`. */
  method CreateGrams(tokens: seq<string>, gramSize: nat) returns (grams: seq<string>)
    ensures |grams| == if gramSize <= |tokens| + 1 then |tokens| + 1 - gramSize else 0
    ensures forall i :: 0 <= i < |grams| ==> grams[i] == Join(tokens[i..i + gramSize])
    ensures grams == Grams(tokens, gramSize)
  {
    grams := [];
    var i := 0;
    while i < |tokens| - gramSize + 1
      invariant i <= WindowCount(|tokens|, gramSize)
      invariant |grams| == i
      invariant forall j :: 0 <= j < i ==> grams[j] == Join(tokens[j..j + gramSize])
    {
      var gram := Join(tokens[i..i + gramSize]);
      grams := grams + [gram];
      i := i + 1;
    }
  }

  /** Splitting gram `i` gives back exactly the `k` tokens of its window. */
  lemma GramSplitsToWindow(tokens: seq<string>, k: nat, i: nat)
    requires AllWords(tokens)
    requires i < |Grams(tokens, k)|
    ensures Split(Grams(tokens, k)[i]) == tokens[i..i + k]
    ensures |Split(Grams(tokens, k)[i])| == k
  {
    SplitJoin(tokens[i..i + k]);
  }

  /** Adjacent grams overlap in `k - 1` tokens, and the last word of gram `i + 1`
      is the token that follows window `i` in the stream. */
  lemma AdjacentGramsOverlap(tokens: seq<string>, k: nat, i: nat)
    requires AllWords(tokens) && k >= 1
    requires i + 1 < |Grams(tokens, k)|
    ensures |Split(Grams(tokens, k)[i])| == |Split(Grams(tokens, k)[i + 1])| == k
    ensures Split(Grams(tokens, k)[i])[1..] == Split(Grams(tokens, k)[i + 1])[..k - 1]
    ensures Last(Split(Grams(tokens, k)[i + 1])) == tokens[i + k]
  {
    GramSplitsToWindow(tokens, k, i);
    GramSplitsToWindow(tokens, k, i + 1);
  }
}
