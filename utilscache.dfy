/** The shared copy of the hand-written query cache. Its query function is
    `fetchDataWithLogger` from another module, whose counter is not part of
    this one, so a call to it is known here only by the promise it returns. */
module UtilsCache {
  import opened Promises

  const FixedKey := StringKey("fetchDataZCustomowymCachem")

  class CustomCache {
    var customCacheMemory: map<PropertyKey, Token>
    /** The keys whose query function ran, in order. */
    ghost var queryLog: seq<PropertyKey>

    /** Each cached key had its query function run exactly once. */
    ghost predicate Valid()
      reads this
    {
      Distinct(queryLog) && customCacheMemory.Keys == Elements(queryLog)
    }

    /** The state the module only ever reaches, since the cache is private
        and used by `fetchDataZCustomowymCachem` alone. */
    ghost predicate OnlyFixedKey()
      reads this
    {
      Valid() && customCacheMemory.Keys <= {FixedKey}
    }

    constructor ()
      ensures OnlyFixedKey() && customCacheMemory == map[] && queryLog == []
    {
      customCacheMemory := map[];
      queryLog := [];
    }

    /** `cosNaWzorUseQuery(queryKey, queryFn)`; `queryFnResult` is the promise
        `queryFn()` returns if it is called, and `called` says whether it was:
        exactly when the key is absent. The new promise is then stored under
        the key; other keys keep their entries and nothing is removed. The
        returned promise is the stored one. */
    method CosNaWzorUseQuery(queryKey: PropertyKey, queryFnResult: Token) returns (p: Token, called: bool)
      requires Valid()
      modifies this
      ensures Valid()
      ensures called <==> queryKey !in old(customCacheMemory)
      ensures customCacheMemory ==
        if called then old(customCacheMemory)[queryKey := queryFnResult] else old(customCacheMemory)
      ensures queryLog == if called then old(queryLog) + [queryKey] else old(queryLog)
      ensures queryKey in customCacheMemory && p == customCacheMemory[queryKey]
      ensures forall k :: k in old(customCacheMemory) ==>
        k in customCacheMemory && customCacheMemory[k] == old(customCacheMemory)[k]
    {
      called := queryKey !in customCacheMemory;
      if called {
        AppendFresh(queryLog, queryKey);
        customCacheMemory := customCacheMemory[queryKey := queryFnResult];
        queryLog := queryLog + [queryKey];
      }
      p := customCacheMemory[queryKey];
    }

    /** `fetchDataZCustomowymCachem`; `loggerResult` is the promise a call to
        `fetchDataWithLogger` would return. The map ends up holding exactly
        the fixed key; the logger is called only on the first request, and
        so at most once over the module's life. */
    method FetchDataZCustomowymCachem(loggerResult: Token) returns (p: Token, called: bool)
      requires OnlyFixedKey()
      modifies this
      ensures OnlyFixedKey()
      ensures customCacheMemory.Keys == {FixedKey} && p == customCacheMemory[FixedKey]
      ensures called <==> old(customCacheMemory) == map[]
      ensures called ==> p == loggerResult
      ensures !called ==> p == old(customCacheMemory)[FixedKey] && customCacheMemory == old(customCacheMemory)
      ensures |queryLog| == 1
    {
      p, called := CosNaWzorUseQuery(FixedKey, loggerResult);
      DistinctCardinality(queryLog);
      assert Elements(queryLog) == {FixedKey};
    }
  }
}
