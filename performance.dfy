/** The performance page: the deliberately slow search-result generator, the
    item list of the transition benchmark, and the stale flag of the
    deferred-value example. */
module Performance {
  import opened Js

  /** At most this many results are shown. */
  const Limit := 20

  function ReactEntry(i: nat, value: string): string {
    "React result " + NatToString(i) + ": " + value
  }

  function PerformanceEntry(i: nat, value: string): string {
    "Performance result " + NatToString(i) + ": " + value
  }

  predicate MentionsReact(value: string) {
    Includes(ToLower(value), "react")
  }

  predicate MentionsPerformance(value: string) {
    Includes(ToLower(value), "performance")
  }

  /** What iteration `i` appends: the React entry, then the Performance
      entry, each when the lowercased value mentions it. */
  function Row(value: string, i: nat): seq<string> {
    (if MentionsReact(value) then [ReactEntry(i, value)] else []) +
    (if MentionsPerformance(value) then [PerformanceEntry(i, value)] else [])
  }

  /** Everything the first `n` iterations append, before the cut to 20. */
  function Entries(value: string, n: nat): seq<string> {
    if n == 0 then [] else Entries(value, n - 1) + Row(value, n - 1)
  }

  /** `complexity * 1000` loop turns; none when that is not positive. */
  function Iterations(complexity: int): nat {
    if complexity * 1000 > 0 then complexity * 1000 else 0
  }

  /** `results.slice(0, 20)`. */
  function Take(s: seq<string>, n: nat): (r: seq<string>)
    ensures |r| == if |s| < n then |s| else n
    ensures forall k :: 0 <= k < |r| ==> r[k] == s[k]
  {
    if |s| <= n then s else s[..n]
  }

  /** The value `expensiveComputation` returns. */
  function ExpensiveResult(value: string, complexity: int): (r: seq<string>)
    ensures |r| <= Limit && |r| <= |Entries(value, Iterations(complexity))|
    ensures |Entries(value, Iterations(complexity))| >= Limit ==> |r| == Limit
    ensures forall k :: 0 <= k < |r| ==> r[k] == Entries(value, Iterations(complexity))[k]
  {
    Take(Entries(value, Iterations(complexity)), Limit)
  }

  /** `expensiveComputation(value, complexity)`: the loop of the source, which
      lowercases and searches the value on every turn and appends to a
      growing list, and the final cut to the first 20 entries. */
  method ExpensiveComputation(value: string, complexity: int) returns (results: seq<string>)
    ensures results == ExpensiveResult(value, complexity)
    ensures |results| <= Limit
  {
    var acc: seq<string> := [];
    var iterations := complexity * 1000;
    var i := 0;
    while i < iterations
      invariant 0 <= i
      invariant iterations > 0 ==> i <= iterations
      invariant iterations <= 0 ==> i == 0
      invariant acc == Entries(value, i)
    {
      if Includes(ToLower(value), "react") {
        acc := acc + [ReactEntry(i, value)];
      }
      if Includes(ToLower(value), "performance") {
        acc := acc + [PerformanceEntry(i, value)];
      }
      i := i + 1;
    }
    assert i == Iterations(complexity);
    results := Take(acc, Limit);
  }

  /** A value mentioning neither word gives no entries, and so does a
      complexity of zero or less. */
  lemma {:induction false} NothingToReport(value: string, n: nat)
    requires !MentionsReact(value) && !MentionsPerformance(value)
    ensures Entries(value, n) == []
  {
    if n > 0 {
      NothingToReport(value, n - 1);
    }
  }

  lemma EmptyResults(value: string, complexity: int)
    ensures !MentionsReact(value) && !MentionsPerformance(value) ==> ExpensiveResult(value, complexity) == []
    ensures complexity <= 0 ==> ExpensiveResult(value, complexity) == []
  {
    if !MentionsReact(value) && !MentionsPerformance(value) {
      NothingToReport(value, Iterations(complexity));
    }
  }

  /** With only `react` in the value, entry k of the first n iterations is
      the React entry for k. */
  lemma {:induction false} ReactOnlyEntries(value: string, n: nat)
    requires MentionsReact(value) && !MentionsPerformance(value)
    ensures |Entries(value, n)| == n
    ensures forall k :: 0 <= k < n ==> Entries(value, n)[k] == ReactEntry(k, value)
  {
    if n > 0 {
      ReactOnlyEntries(value, n - 1);
    }
  }

  /** With only `performance` in the value, entry k is the Performance entry
      for k. */
  lemma {:induction false} PerformanceOnlyEntries(value: string, n: nat)
    requires !MentionsReact(value) && MentionsPerformance(value)
    ensures |Entries(value, n)| == n
    ensures forall k :: 0 <= k < n ==> Entries(value, n)[k] == PerformanceEntry(k, value)
  {
    if n > 0 {
      PerformanceOnlyEntries(value, n - 1);
    }
  }

  /** With both words the entries alternate: React i, then Performance i. */
  lemma {:induction false} AlternatingEntries(value: string, n: nat)
    requires MentionsReact(value) && MentionsPerformance(value)
    ensures |Entries(value, n)| == 2 * n
    ensures forall i :: 0 <= i < n ==>
      Entries(value, n)[2 * i] == ReactEntry(i, value) && Entries(value, n)[2 * i + 1] == PerformanceEntry(i, value)
  {
    if n > 0 {
      AlternatingEntries(value, n - 1);
    }
  }

  /** The shown results for a value mentioning only `react`: exactly
      min(20, iterations) entries, the k-th being React result k. */
  lemma ReactOnlyResult(value: string, complexity: int)
    requires MentionsReact(value) && !MentionsPerformance(value)
    ensures var r := ExpensiveResult(value, complexity);
            var n := Iterations(complexity);
            && |r| == (if n < Limit then n else Limit)
            && forall k :: 0 <= k < |r| ==> r[k] == ReactEntry(k, value)
  {
    ReactOnlyEntries(value, Iterations(complexity));
  }

  /** The shown results for a value mentioning both words: 20 entries once
      ten iterations have run, alternating React and Performance. */
  lemma AlternatingResult(value: string, complexity: int)
    requires MentionsReact(value) && MentionsPerformance(value)
    ensures var r := ExpensiveResult(value, complexity);
            var n := Iterations(complexity);
            && |r| == (if 2 * n < Limit then 2 * n else Limit)
            && forall i :: 0 <= i && 2 * i + 1 < |r| ==>
                 r[2 * i] == ReactEntry(i, value) && r[2 * i + 1] == PerformanceEntry(i, value)
  {
    AlternatingEntries(value, Iterations(complexity));
  }

  predicate EndsWith(s: string, suffix: string) {
    |suffix| <= |s| && s[|s| - |suffix|..] == suffix
  }

  /** Every entry ends with the value as typed, not lowercased. */
  lemma {:induction false} EntriesEndWithValue(value: string, n: nat)
    ensures forall x :: x in Entries(value, n) ==> EndsWith(x, value)
  {
    if n > 0 {
      EntriesEndWithValue(value, n - 1);
      var i := n - 1;
      var react := "React result " + NatToString(i) + ": ";
      var perf := "Performance result " + NatToString(i) + ": ";
      assert ReactEntry(i, value) == react + value;
      assert PerformanceEntry(i, value) == perf + value;
      assert (react + value)[|react|..] == value;
      assert (perf + value)[|perf|..] == value;
    }
  }

  lemma ResultsEndWithValue(value: string, complexity: int)
    ensures forall x :: x in ExpensiveResult(value, complexity) ==> EndsWith(x, value)
  {
    EntriesEndWithValue(value, Iterations(complexity));
  }

  /** `Array.from({ length: count }, (_, i) => i + 1)`; a negative length
      counts as zero. */
  function GenerateItems(count: int): (r: seq<int>)
    ensures forall x :: x in r <==> 1 <= x <= count
  {
    var r := seq(if count > 0 then count else 0, (i: int) => i + 1);
    assert forall i :: 0 <= i < |r| ==> r[i] == i + 1;
    assert forall x :: 1 <= x <= count ==> r[x - 1] == x && x in r;
    r
  }

  /** The generated items are 1, 2, ..., count: as many as `count` says, in
      increasing order, each of 1..count once. */
  lemma GenerateItemsSpec(count: int)
    ensures |GenerateItems(count)| == if count > 0 then count else 0
    ensures forall i, j :: 0 <= i < j < |GenerateItems(count)| ==> GenerateItems(count)[i] < GenerateItems(count)[j]
  {
  }

  /** `isStale`: the deferred query or complexity lags behind the typed one.
      The list on the page is computed from the deferred pair; while it is
      not flagged stale, it is the list for the typed pair. */
  predicate IsStale(query: string, deferredQuery: string, complexity: int, deferredComplexity: int)
    ensures !IsStale(query, deferredQuery, complexity, deferredComplexity) ==>
      ExpensiveResult(deferredQuery, deferredComplexity) == ExpensiveResult(query, complexity)
  {
    query != deferredQuery || complexity != deferredComplexity
  }
}
