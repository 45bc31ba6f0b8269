/** The module-level promise cache of the advanced `use` examples, the
    button that clears it, and the widget toggle of the conditional example. */
module ComplexUse {
  import opened Promises
  import opened Seqs

  /** The module's `cache` map, with the history the demo's claims are
      about: the keys whose fetcher ran since the last clear, in order. */
  class FetchCache {
    var cache: map<string, Token>
    ghost var fetchLog: seq<string>

    /** Every cached key was fetched exactly once since the last clear, and
        every fetch left its entry. */
    ghost predicate Valid()
      reads this
    {
      Distinct(fetchLog) && cache.Keys == Elements(fetchLog)
    }

    constructor ()
      ensures Valid() && cache == map[] && fetchLog == []
    {
      cache := map[];
      fetchLog := [];
    }

    /** `fetchWithCache(key, fetcher)`; `fetcherResult` is the promise
        `fetcher()` returns if it is called, and `fetched` says whether it
        was. An absent key is fetched once and stored, failed promises
        included; a present key leaves the map alone. Either way the
        returned promise is the one stored under the key, and no other key's
        entry changes. */
    method FetchWithCache(key: string, fetcherResult: Token) returns (p: Token, fetched: bool)
      requires Valid()
      modifies this
      ensures Valid()
      ensures fetched <==> key !in old(cache)
      ensures cache == if fetched then old(cache)[key := fetcherResult] else old(cache)
      ensures fetchLog == if fetched then old(fetchLog) + [key] else old(fetchLog)
      ensures key in cache && p == cache[key]
      ensures old(cache).Keys <= cache.Keys
      ensures forall k :: k in old(cache) ==> cache[k] == old(cache)[k]
    {
      fetched := key !in cache;
      if fetched {
        var promise := fetcherResult;
        AppendFresh(fetchLog, key);
        cache := cache[key := promise];
        fetchLog := fetchLog + [key];
      }
      p := cache[key];
    }

    /** `clearCache`: the map is emptied, so the next request for any key
        runs its fetcher again. */
    method ClearCache()
      modifies this
      ensures Valid() && cache == map[] && fetchLog == []
    {
      cache := map[];
      fetchLog := [];
    }

    /** `cache.size`, shown on the page: the number of distinct keys
        requested since the last clear, each fetched once. */
    method Size() returns (n: nat)
      requires Valid()
      ensures n == |cache| == |Elements(fetchLog)| == |fetchLog|
    {
      DistinctCardinality(fetchLog);
      n := |cache|;
    }
  }

  /** Two requests for the same key return the same promise and fetch at
      most once, whatever the second fetcher would have returned. */
  method RepeatedRequest(c: FetchCache, key: string, first: Token, second: Token)
    returns (p1: Token, p2: Token)
    requires c.Valid()
    modifies c
    ensures p1 == p2
    ensures c.fetchLog == old(c.fetchLog) || c.fetchLog == old(c.fetchLog) + [key]
  {
    var f1, f2;
    p1, f1 := c.FetchWithCache(key, first);
    p2, f2 := c.FetchWithCache(key, second);
    assert !f2;
  }

  /** After the cache is cleared, a request for a key fetched before runs its
      fetcher again and gets the new promise. */
  method ClearThenFetch(c: FetchCache, key: string, newPromise: Token) returns (p: Token)
    requires c.Valid()
    modifies c
    ensures p == newPromise && c.cache == map[key := newPromise] && c.fetchLog == [key]
  {
    c.ClearCache();
    var fetched;
    p, fetched := c.FetchWithCache(key, newPromise);
    assert fetched;
  }

  /** `toggleWidget`: a listed widget is taken out (every occurrence of it),
      an unlisted one is appended. Either way the widget's membership flips
      and every other widget's membership stays. */
  function ToggleWidget(prev: seq<string>, widget: string): (r: seq<string>)
    ensures widget in r <==> widget !in prev
    ensures forall w :: w != widget ==> (w in r <==> w in prev)
  {
    if widget in prev then Filter(prev, (w: string) => w != widget) else prev + [widget]
  }

  /** What toggling does to the list: an absent widget is appended at the
      end; a present one is dropped everywhere, the other entries keeping
      their order and their number of copies. */
  lemma ToggleWidgetSpec(prev: seq<string>, widget: string)
    ensures widget !in prev ==> ToggleWidget(prev, widget) == prev + [widget]
    ensures widget in prev ==> IsSubsequence(ToggleWidget(prev, widget), prev)
    ensures widget in prev ==> |ToggleWidget(prev, widget)| == CountWhere(prev, (w: string) => w != widget)
  {
    if widget in prev {
      FilterFacts(prev, (w: string) => w != widget);
    }
  }

  /** Toggling twice restores a list in which the widget was absent. */
  lemma ToggleTwice(prev: seq<string>, widget: string)
    requires widget !in prev
    ensures ToggleWidget(ToggleWidget(prev, widget), widget) == prev
  {
    var once := prev + [widget];
    assert widget in once;
    FilterAppend(prev, [widget], (w: string) => w != widget);
    FilterAll(prev, (w: string) => w != widget);
  }
}
