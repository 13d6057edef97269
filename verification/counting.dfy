/** Counting: `create_ngram_counts` walks adjacent gram pairs; the first gram of
    a pair, split back into words, is the context, and the last word of the
    second gram is the token that followed it. The table maps each context to
    a dict from next token to how often it followed. */
module Counting {
  import opened Words
  import opened Dicts
  import opened Errors

  /** A context: the words of one gram, as the tuple `tuple(gram.split())`. */
  type Context = seq<string>

  /** One context's dict from next token to count. */
  type Row = Dict<string, nat>

  type CountTable = Dict<Context, Row>

  // ---------------------------------------------------------------------------
  // What each count means: positions in the gram list.

  /** How many pairs `range(len(ngrams) - 1)` visits. */
  function PairTotal(ngrams: seq<string>): nat {
    if |ngrams| == 0 then 0 else |ngrams| - 1
  }

  /** Gram `i + 1` has at least one word, and its last word is `t`. */
  predicate Follows(ngrams: seq<string>, i: nat, t: string)
    requires i + 1 < |ngrams|
  {
    var parts := Split(ngrams[i + 1]);
    |parts| > 0 && Last(parts) == t
  }

  /** The number of pairs `i < j` whose first gram splits to `c`. */
  function ContextCount(ngrams: seq<string>, j: nat, c: Context): nat
    requires j <= PairTotal(ngrams)
  {
    if j == 0 then 0
    else ContextCount(ngrams, j - 1, c) + (if Split(ngrams[j - 1]) == c then 1 else 0)
  }

  /** The number of pairs `i < j` whose first gram splits to `c` and whose
      second gram ends in the word `t`. */
  function PairCount(ngrams: seq<string>, j: nat, c: Context, t: string): nat
    requires j <= PairTotal(ngrams)
  {
    if j == 0 then 0
    else PairCount(ngrams, j - 1, c, t) + (if Split(ngrams[j - 1]) == c && Follows(ngrams, j - 1, t) then 1 else 0)
  }

  /** No gram after the first, up to gram `j`, splits to no words, so line 44
      finds a last word in each of the first `j` iterations. */
  predicate NextsNonEmpty(ngrams: seq<string>, j: nat)
    requires j <= PairTotal(ngrams)
  {
    forall i :: 0 < i <= j ==> |Split(ngrams[i])| > 0
  }

  /** The contexts of the pairs `i < j`, in the order the loop meets them. */
  function Contexts(ngrams: seq<string>, j: nat): seq<Context>
    requires j <= PairTotal(ngrams)
  {
    if j == 0 then [] else Contexts(ngrams, j - 1) + [Split(ngrams[j - 1])]
  }

  /** The next tokens of the pairs `i < j` whose context is `c`, in loop order. */
  function NextsAfter(ngrams: seq<string>, j: nat, c: Context): seq<string>
    requires j <= PairTotal(ngrams) && NextsNonEmpty(ngrams, j)
  {
    if j == 0 then []
    else if Split(ngrams[j - 1]) == c then NextsAfter(ngrams, j - 1, c) + [Last(Split(ngrams[j]))]
    else NextsAfter(ngrams, j - 1, c)
  }

  /** `s` with every element after its first occurrence dropped. */
  function Dedup<T(==)>(s: seq<T>): seq<T> {
    if s == [] then []
    else
      var d := Dedup(s[..|s| - 1]);
      if s[|s| - 1] in d then d else d + [s[|s| - 1]]
  }

  /** `Dedup` keeps each element once and loses none. */
  lemma {:induction false} DedupDistinct<T>(s: seq<T>)
    ensures Distinct(Dedup(s))
    ensures forall x :: x in Dedup(s) <==> x in s
  {
    if s != [] {
      DedupDistinct(s[..|s| - 1]);
      assert s == s[..|s| - 1] + [s[|s| - 1]];
    }
  }

  // ---------------------------------------------------------------------------
  // Reading the table.

  /** The count stored for `t` in a row, 0 where the row has none. */
  function Count(row: Row, t: string): nat {
    if t in Keys(row) then Get(row, t) else 0
  }

  /** The dict stored under `c`, or the fresh `{}` line 46 would create. */
  function RowOf(table: CountTable, c: Context): Row {
    if c in Keys(table) then Get(table, c) else []
  }

  /** The count stored under `c` and `t`, 0 where the table has none. */
  function CountIn(table: CountTable, c: Context, t: string): nat {
    Count(RowOf(table, c), t)
  }

  /** The sum of every count in the table. */
  function GrandTotal(table: CountTable): nat
    decreases |table|
  {
    if table == [] then 0 else Total(table[0].1) + GrandTotal(table[1..])
  }

  /** Every count in the dict is at least 1. */
  predicate PositiveRow(row: Row) {
    forall k :: 0 <= k < |row| ==> row[k].1 >= 1
  }

  /** Every dict in the table is non-empty and holds only counts of at least 1. */
  predicate AllPositive(table: CountTable) {
    forall i :: 0 <= i < |table| ==> table[i].1 != [] && PositiveRow(table[i].1)
  }

  // ---------------------------------------------------------------------------
  // The update of one loop iteration.

  /** Lines 47-49 on one context's dict: the count of `t` goes up by one,
      starting from 0 when `t` is new, and a new `t` goes last. */
  function AddOne(row: Row, t: string): Row
    decreases |row|
  {
    if row == [] then [(t, 1)]
    else if row[0].0 == t then [(t, row[0].1 + 1)] + row[1..]
    else [row[0]] + AddOne(row[1..], t)
  }

  /** For a token already counted, `AddOne` is `d[t] += 1`. */
  lemma {:induction false} AddOneExisting(row: Row, t: string)
    requires t in Keys(row)
    ensures AddOne(row, t) == Put(row, t, Get(row, t) + 1)
    decreases |row|
  {
    if row[0].0 != t {
      assert Keys(row) == [row[0].0] + Keys(row[1..]);
      AddOneExisting(row[1..], t);
    }
  }

  /** For a new token, `d[t] = 0` appends it and `d[t] += 1` then makes its
      count 1, which is what `AddOne` appends. */
  lemma {:induction false} AddOneNew(row: Row, t: string)
    requires t !in Keys(row)
    ensures Put(row, t, 0) == row + [(t, 0)]
    ensures Put(row + [(t, 0)], t, 1) == row + [(t, 1)]
    ensures AddOne(row, t) == row + [(t, 1)]
    decreases |row|
  {
    if row != [] {
      assert Keys(row) == [row[0].0] + Keys(row[1..]);
      AddOneNew(row[1..], t);
      assert row + [(t, 0)] == [row[0]] + (row[1..] + [(t, 0)]);
      assert row + [(t, 1)] == [row[0]] + (row[1..] + [(t, 1)]);
    }
  }

  /** `AddOne` is lines 47-49 as written: `d[t] = 0` when `t` is missing,
      then `d[t] += 1`. */
  lemma AddOneAsWritten(row: Row, t: string)
    ensures t in Keys(row) ==> AddOne(row, t) == Put(row, t, Get(row, t) + 1)
    ensures t !in Keys(row) ==> AddOne(row, t) == Put(Put(row, t, 0), t, 0 + 1)
  {
    if t in Keys(row) {
      AddOneExisting(row, t);
    } else {
      AddOneNew(row, t);
    }
  }

  /** A new token is listed last; an existing one keeps its place. */
  lemma {:induction false} AddOneKeys(row: Row, t: string)
    ensures Keys(AddOne(row, t)) == if t in Keys(row) then Keys(row) else Keys(row) + [t]
    decreases |row|
  {
    if row != [] && row[0].0 != t {
      AddOneKeys(row[1..], t);
      assert Keys(row) == [row[0].0] + Keys(row[1..]);
      assert ([row[0]] + AddOne(row[1..], t))[1..] == AddOne(row[1..], t);
    }
  }

  /** Counting `t` adds one to its count and changes no other. */
  lemma {:induction false} AddOneCount(row: Row, t: string, t': string)
    ensures Count(AddOne(row, t), t') == Count(row, t') + (if t' == t then 1 else 0)
    decreases |row|
  {
    if row != [] && row[0].0 != t {
      AddOneCount(row[1..], t, t');
      assert Keys(row) == [row[0].0] + Keys(row[1..]);
      assert ([row[0]] + AddOne(row[1..], t))[1..] == AddOne(row[1..], t);
    }
  }

  /** Counting one token adds one to its dict's total. */
  lemma {:induction false} AddOneTotal(row: Row, t: string)
    ensures Total(AddOne(row, t)) == Total(row) + 1
    decreases |row|
  {
    if row != [] && row[0].0 != t {
      AddOneTotal(row[1..], t);
      assert ([row[0]] + AddOne(row[1..], t))[1..] == AddOne(row[1..], t);
    }
  }

  /** Counting keeps every count at least 1 and leaves the dict non-empty. */
  lemma {:induction false} AddOnePositive(row: Row, t: string)
    requires PositiveRow(row)
    ensures AddOne(row, t) != [] && PositiveRow(AddOne(row, t))
    decreases |row|
  {
    if row != [] && row[0].0 != t {
      var rest := AddOne(row[1..], t);
      AddOnePositive(row[1..], t);
      forall k | 0 <= k < |[row[0]] + rest|
        ensures ([row[0]] + rest)[k].1 >= 1
      {
        if k > 0 {
          assert ([row[0]] + rest)[k] == rest[k - 1];
        }
      }
    }
  }

  /** Lines 45-49 on the table: the dict of context `c` counts `t` once more,
      starting from `{}` when `c` is new, and a new `c` goes last. */
  function Bump(table: CountTable, c: Context, t: string): CountTable
    decreases |table|
  {
    if table == [] then [(c, AddOne([], t))]
    else if table[0].0 == c then [(c, AddOne(table[0].1, t))] + table[1..]
    else [table[0]] + Bump(table[1..], c, t)
  }

  /** `Bump` is lines 45-49 as written: `table[c] = {}` when `c` is missing,
      then lines 47-49 on `table[c]`. */
  lemma {:induction false} BumpAsWritten(table: CountTable, c: Context, t: string)
    ensures c in Keys(table) ==> Bump(table, c, t) == Put(table, c, AddOne(Get(table, c), t))
    ensures c !in Keys(table) ==> Bump(table, c, t) == Put(Put(table, c, []), c, AddOne([], t))
    decreases |table|
  {
    if table != [] && table[0].0 != c {
      BumpAsWritten(table[1..], c, t);
      var rest := table[1..];
      assert Keys(table) == [table[0].0] + Keys(rest);
      if c !in Keys(rest) {
        var p := Put(rest, c, []);
        assert Put(table, c, []) == [table[0]] + p;
        assert ([table[0]] + p)[0] == table[0];
        assert ([table[0]] + p)[1..] == p;
      }
    }
  }

  /** A new context is listed last; an existing one keeps its place. */
  lemma {:induction false} BumpKeys(table: CountTable, c: Context, t: string)
    ensures Keys(Bump(table, c, t)) == if c in Keys(table) then Keys(table) else Keys(table) + [c]
    decreases |table|
  {
    if table != [] && table[0].0 != c {
      BumpKeys(table[1..], c, t);
      assert Keys(table) == [table[0].0] + Keys(table[1..]);
      assert ([table[0]] + Bump(table[1..], c, t))[1..] == Bump(table[1..], c, t);
    }
  }

  /** Only the dict of context `c` changes, and it counts `t` once more. */
  lemma {:induction false} BumpRow(table: CountTable, c: Context, t: string, c': Context)
    ensures RowOf(Bump(table, c, t), c') == if c' == c then AddOne(RowOf(table, c), t) else RowOf(table, c')
    decreases |table|
  {
    if table != [] && table[0].0 != c {
      BumpRow(table[1..], c, t, c');
      assert Keys(table) == [table[0].0] + Keys(table[1..]);
      assert ([table[0]] + Bump(table[1..], c, t))[1..] == Bump(table[1..], c, t);
    }
  }

  /** One iteration keeps every dict non-empty and every count at least 1. */
  lemma {:induction false} BumpPositive(table: CountTable, c: Context, t: string)
    requires AllPositive(table)
    ensures AllPositive(Bump(table, c, t))
    decreases |table|
  {
    if table == [] {
      AddOnePositive([], t);
    } else if table[0].0 == c {
      AddOnePositive(table[0].1, t);
      var b := Bump(table, c, t);
      forall i | 0 <= i < |b|
        ensures b[i].1 != [] && PositiveRow(b[i].1)
      {
        if i > 0 {
          assert b[i] == table[i];
        }
      }
    } else {
      BumpPositive(table[1..], c, t);
      var rest := Bump(table[1..], c, t);
      forall i | 0 <= i < |[table[0]] + rest|
        ensures ([table[0]] + rest)[i].1 != [] && PositiveRow(([table[0]] + rest)[i].1)
      {
        if i > 0 {
          assert ([table[0]] + rest)[i] == rest[i - 1];
        }
      }
    }
  }

  /** Counting under `c0` and `t0` adds one to that count and to no other. */
  lemma BumpCountIn(table: CountTable, c0: Context, t0: string, c: Context, t: string)
    ensures CountIn(Bump(table, c0, t0), c, t) == CountIn(table, c, t) + (if c == c0 && t == t0 then 1 else 0)
  {
    BumpRow(table, c0, t0, c);
    AddOneCount(RowOf(table, c0), t0, t);
  }

  /** One iteration adds one to the grand total. */
  lemma {:induction false} BumpGrandTotal(table: CountTable, c: Context, t: string)
    ensures GrandTotal(Bump(table, c, t)) == GrandTotal(table) + 1
    decreases |table|
  {
    if table == [] {
      AddOneTotal([], t);
    } else if table[0].0 == c {
      AddOneTotal(table[0].1, t);
      assert ([(c, AddOne(table[0].1, t))] + table[1..])[1..] == table[1..];
    } else {
      BumpGrandTotal(table[1..], c, t);
      assert ([table[0]] + Bump(table[1..], c, t))[1..] == Bump(table[1..], c, t);
    }
  }

  // ---------------------------------------------------------------------------
  // The loop of lines 42-49 and the table it builds.

  /** The table after the first `j` iterations of the loop. */
  function Tally(ngrams: seq<string>, j: nat): CountTable
    requires j <= PairTotal(ngrams) && NextsNonEmpty(ngrams, j)
  {
    if j == 0 then []
    else Bump(Tally(ngrams, j - 1), Split(ngrams[j - 1]), Last(Split(ngrams[j])))
  }

  /** A loop step that splits its next gram into words extends the range of
      iterations that cannot raise IndexError by one. */
  lemma NextsNonEmptyStep(ngrams: seq<string>, j: nat)
    requires j < PairTotal(ngrams) && NextsNonEmpty(ngrams, j)
    requires |Split(ngrams[j + 1])| > 0
    ensures NextsNonEmpty(ngrams, j + 1)
  {
  }

  /** One unfolding of `Tally`: iteration `j` applies `Bump` to the table of
      the first `j` iterations. */
  lemma TallyNext(ngrams: seq<string>, j: nat)
    requires j < PairTotal(ngrams) && NextsNonEmpty(ngrams, j + 1)
    ensures NextsNonEmpty(ngrams, j)
    ensures Tally(ngrams, j + 1) == Bump(Tally(ngrams, j), Split(ngrams[j]), Last(Split(ngrams[j + 1])))
  {
  }

  /** `create_ngram_counts`. It raises IndexError exactly when some gram after
      the first splits to no words; otherwise it returns the table of every
      adjacent pair. */
  method CreateNgramCounts(ngrams: seq<string>) returns (r: Result<CountTable>)
    ensures r.Failure? <==> !NextsNonEmpty(ngrams, PairTotal(ngrams))
    ensures r.Failure? ==> r.error == IndexError
    ensures r.Success? ==> NextsNonEmpty(ngrams, PairTotal(ngrams)) && r.value == Tally(ngrams, PairTotal(ngrams))
    ensures |ngrams| < 2 ==> r == Success([])
  {
    var table: CountTable := [];
    var i := 0;
    assert table == Tally(ngrams, 0);
    while i < |ngrams| - 1
      invariant i <= PairTotal(ngrams)
      invariant NextsNonEmpty(ngrams, i)
      invariant table == Tally(ngrams, i)
    {
      var ngram := Split(ngrams[i]);
      var parts := Split(ngrams[i + 1]);
      if |parts| == 0 {
        return Failure(IndexError);
      }
      var nextToken := parts[|parts| - 1];
      NextsNonEmptyStep(ngrams, i);
      TallyNext(ngrams, i);
      assert nextToken == Last(Split(ngrams[i + 1]));
      assert Bump(table, ngram, nextToken) == Tally(ngrams, i + 1);
      table := Bump(table, ngram, nextToken);
      i := i + 1;
    }
    assert i == PairTotal(ngrams);
    return Success(table);
  }

  // ---------------------------------------------------------------------------
  // What one iteration changes: iteration `j` counts context
  // `Split(ngrams[j])` followed by token `Last(Split(ngrams[j + 1]))`.

  /** One unfolding of `PairCount`: iteration `j` adds one exactly when its
      pair is `(c, t)`. */
  lemma PairCountNext(ngrams: seq<string>, j: nat, c: Context, t: string)
    requires j < PairTotal(ngrams) && NextsNonEmpty(ngrams, j + 1)
    ensures PairCount(ngrams, j + 1, c, t)
         == PairCount(ngrams, j, c, t) + (if c == Split(ngrams[j]) && t == Last(Split(ngrams[j + 1])) then 1 else 0)
  {
  }

  /** Iteration `j` adds one to the count of its own pair and to no other. */
  lemma CountsNext(ngrams: seq<string>, j: nat, c: Context, t: string)
    requires j < PairTotal(ngrams) && NextsNonEmpty(ngrams, j + 1)
    ensures NextsNonEmpty(ngrams, j)
    ensures CountIn(Tally(ngrams, j + 1), c, t)
         == CountIn(Tally(ngrams, j), c, t) + (if c == Split(ngrams[j]) && t == Last(Split(ngrams[j + 1])) then 1 else 0)
  {
    TallyNext(ngrams, j);
    BumpCountIn(Tally(ngrams, j), Split(ngrams[j]), Last(Split(ngrams[j + 1])), c, t);
  }

  /** Iteration `j` adds its context to the table if it is new. */
  lemma ContextsNext(ngrams: seq<string>, j: nat)
    requires j < PairTotal(ngrams) && NextsNonEmpty(ngrams, j + 1)
    ensures NextsNonEmpty(ngrams, j)
    ensures Keys(Tally(ngrams, j + 1))
         == if Split(ngrams[j]) in Keys(Tally(ngrams, j)) then Keys(Tally(ngrams, j))
            else Keys(Tally(ngrams, j)) + [Split(ngrams[j])]
  {
    TallyNext(ngrams, j);
    BumpKeys(Tally(ngrams, j), Split(ngrams[j]), Last(Split(ngrams[j + 1])));
  }

  /** Iteration `j` adds one to the total of its context's dict only. */
  lemma TotalsNext(ngrams: seq<string>, j: nat, c: Context)
    requires j < PairTotal(ngrams) && NextsNonEmpty(ngrams, j + 1)
    ensures NextsNonEmpty(ngrams, j)
    ensures Total(RowOf(Tally(ngrams, j + 1), c))
         == Total(RowOf(Tally(ngrams, j), c)) + (if c == Split(ngrams[j]) then 1 else 0)
  {
    TallyNext(ngrams, j);
    var prev, c0, t0 := Tally(ngrams, j), Split(ngrams[j]), Last(Split(ngrams[j + 1]));
    BumpRow(prev, c0, t0, c);
    AddOneTotal(RowOf(prev, c0), t0);
  }

  /** Iteration `j` adds one to the grand total. */
  lemma GrandTotalNext(ngrams: seq<string>, j: nat)
    requires j < PairTotal(ngrams) && NextsNonEmpty(ngrams, j + 1)
    ensures NextsNonEmpty(ngrams, j)
    ensures GrandTotal(Tally(ngrams, j + 1)) == GrandTotal(Tally(ngrams, j)) + 1
  {
    TallyNext(ngrams, j);
    BumpGrandTotal(Tally(ngrams, j), Split(ngrams[j]), Last(Split(ngrams[j + 1])));
  }

  /** Iteration `j` adds its next token to its context's dict if it is new there. */
  lemma TokensNext(ngrams: seq<string>, j: nat, c: Context)
    requires j < PairTotal(ngrams) && NextsNonEmpty(ngrams, j + 1)
    ensures NextsNonEmpty(ngrams, j)
    ensures var before, t0 := Keys(RowOf(Tally(ngrams, j), c)), Last(Split(ngrams[j + 1]));
      Keys(RowOf(Tally(ngrams, j + 1), c))
      == if c != Split(ngrams[j]) || t0 in before then before else before + [t0]
  {
    TallyNext(ngrams, j);
    var prev, c0, t0 := Tally(ngrams, j), Split(ngrams[j]), Last(Split(ngrams[j + 1]));
    BumpRow(prev, c0, t0, c);
    AddOneKeys(RowOf(prev, c0), t0);
  }

  /** Iterations that cannot raise IndexError up to `j` cannot raise it up to
      any earlier `k` either. */
  lemma NextsNonEmptyPrefix(ngrams: seq<string>, k: nat, j: nat)
    requires k <= j <= PairTotal(ngrams) && NextsNonEmpty(ngrams, j)
    ensures NextsNonEmpty(ngrams, k)
  {
  }

  // ---------------------------------------------------------------------------
  // What the table holds.

  /** Each count is the number of adjacent pairs that saw it; a pair never
      seen has no entry. */
  lemma TallyCounts(ngrams: seq<string>, j: nat, c: Context, t: string)
    requires j <= PairTotal(ngrams) && NextsNonEmpty(ngrams, j)
    ensures CountIn(Tally(ngrams, j), c, t) == PairCount(ngrams, j, c, t)
  {
    var k := 0;
    while k < j
      invariant k <= j && NextsNonEmpty(ngrams, k)
      invariant CountIn(Tally(ngrams, k), c, t) == PairCount(ngrams, k, c, t)
    {
      NextsNonEmptyPrefix(ngrams, k + 1, j);
      CountsNext(ngrams, k, c, t);
      PairCountNext(ngrams, k, c, t);
      k := k + 1;
    }
  }

  /** The contexts of the table are exactly the first grams of the pairs. */
  lemma TallyContexts(ngrams: seq<string>, j: nat, c: Context)
    requires j <= PairTotal(ngrams) && NextsNonEmpty(ngrams, j)
    ensures c in Keys(Tally(ngrams, j)) <==> ContextCount(ngrams, j, c) > 0
  {
    var k := 0;
    while k < j
      invariant k <= j && NextsNonEmpty(ngrams, k)
      invariant c in Keys(Tally(ngrams, k)) <==> ContextCount(ngrams, k, c) > 0
    {
      NextsNonEmptyPrefix(ngrams, k + 1, j);
      ContextsNext(ngrams, k);
      k := k + 1;
    }
  }

  /** Each context's counts add up to how often it was a context. */
  lemma TallyTotals(ngrams: seq<string>, j: nat, c: Context)
    requires j <= PairTotal(ngrams) && NextsNonEmpty(ngrams, j)
    ensures Total(RowOf(Tally(ngrams, j), c)) == ContextCount(ngrams, j, c)
  {
    var k := 0;
    while k < j
      invariant k <= j && NextsNonEmpty(ngrams, k)
      invariant Total(RowOf(Tally(ngrams, k), c)) == ContextCount(ngrams, k, c)
    {
      NextsNonEmptyPrefix(ngrams, k + 1, j);
      TotalsNext(ngrams, k, c);
      k := k + 1;
    }
  }

  /** All the counts together add up to the number of pairs. */
  lemma TallyGrandTotal(ngrams: seq<string>, j: nat)
    requires j <= PairTotal(ngrams) && NextsNonEmpty(ngrams, j)
    ensures GrandTotal(Tally(ngrams, j)) == j
  {
    var k := 0;
    while k < j
      invariant k <= j && NextsNonEmpty(ngrams, k)
      invariant GrandTotal(Tally(ngrams, k)) == k
    {
      NextsNonEmptyPrefix(ngrams, k + 1, j);
      GrandTotalNext(ngrams, k);
      k := k + 1;
    }
  }

  /** The contexts are listed once each, in the order the loop first met them. */
  lemma TallyContextOrder(ngrams: seq<string>, j: nat)
    requires j <= PairTotal(ngrams) && NextsNonEmpty(ngrams, j)
    ensures Keys(Tally(ngrams, j)) == Dedup(Contexts(ngrams, j))
    ensures Distinct(Keys(Tally(ngrams, j)))
  {
    var k := 0;
    while k < j
      invariant k <= j && NextsNonEmpty(ngrams, k)
      invariant Keys(Tally(ngrams, k)) == Dedup(Contexts(ngrams, k))
    {
      NextsNonEmptyPrefix(ngrams, k + 1, j);
      ContextsNext(ngrams, k);
      var cs := Contexts(ngrams, k + 1);
      assert cs[..|cs| - 1] == Contexts(ngrams, k);
      k := k + 1;
    }
    DedupDistinct(Contexts(ngrams, j));
  }

  /** Iteration `j` keeps a context's tokens in first-seen order. */
  lemma TokenOrderNext(ngrams: seq<string>, j: nat, c: Context)
    requires j < PairTotal(ngrams) && NextsNonEmpty(ngrams, j + 1)
    requires NextsNonEmpty(ngrams, j) && Keys(RowOf(Tally(ngrams, j), c)) == Dedup(NextsAfter(ngrams, j, c))
    ensures Keys(RowOf(Tally(ngrams, j + 1), c)) == Dedup(NextsAfter(ngrams, j + 1, c))
  {
    TokensNext(ngrams, j, c);
    if c == Split(ngrams[j]) {
      var ns := NextsAfter(ngrams, j + 1, c);
      assert ns[..|ns| - 1] == NextsAfter(ngrams, j, c);
    }
  }

  /** Each context's next tokens are listed once each, in the order the loop
      first met them. */
  lemma TallyTokenOrder(ngrams: seq<string>, j: nat, c: Context)
    requires j <= PairTotal(ngrams) && NextsNonEmpty(ngrams, j)
    ensures Keys(RowOf(Tally(ngrams, j), c)) == Dedup(NextsAfter(ngrams, j, c))
    ensures Distinct(Keys(RowOf(Tally(ngrams, j), c)))
  {
    var k := 0;
    while k < j
      invariant k <= j && NextsNonEmpty(ngrams, k)
      invariant Keys(RowOf(Tally(ngrams, k), c)) == Dedup(NextsAfter(ngrams, k, c))
    {
      NextsNonEmptyPrefix(ngrams, k + 1, j);
      TokenOrderNext(ngrams, k, c);
      k := k + 1;
    }
    DedupDistinct(NextsAfter(ngrams, j, c));
  }

  /** Every context in the table has a non-empty dict, and every stored count
      is at least 1. */
  lemma TallyPositive(ngrams: seq<string>, j: nat)
    requires j <= PairTotal(ngrams) && NextsNonEmpty(ngrams, j)
    ensures AllPositive(Tally(ngrams, j))
  {
    var k := 0;
    while k < j
      invariant k <= j && NextsNonEmpty(ngrams, k)
      invariant AllPositive(Tally(ngrams, k))
    {
      NextsNonEmptyPrefix(ngrams, k + 1, j);
      TallyNext(ngrams, k);
      BumpPositive(Tally(ngrams, k), Split(ngrams[k]), Last(Split(ngrams[k + 1])));
      k := k + 1;
    }
  }
}
