/** The data helpers of the `use` examples: a fetch that counts and logs its
    calls, and a hand-written query cache in front of it. The module-level
    `counter` and `customCacheMemory` are the fields of one object. */
module UseUtils {
  import opened Promises

  /** The one key `fetchDataZCustomowymCachem` asks for. */
  const FixedKey := StringKey("fetchDataZCustomowymCachem")

  /** The query function handed to the cache: the module's own logged fetch,
      or a function from elsewhere, known by the promise it returns. */
  datatype QueryFn = FetchDataWithLoggerFn | OtherFn(result: Token)

  class UseUtilsModule {
    /** The `counter` of `fetchDataWithLogger`. */
    var counter: nat
    var customCacheMemory: map<PropertyKey, Token>
    /** The keys whose query function ran, in order. */
    ghost var queryLog: seq<PropertyKey>
    /** How many of the logged fetches the cache itself started. */
    ghost var cachedFetches: nat

    /** Each cached key had its query function run exactly once, nothing
        else ran one, and the cache started no more logged fetches than the
        counter has seen. */
    ghost predicate Valid()
      reads this
    {
      && Distinct(queryLog)
      && customCacheMemory.Keys == Elements(queryLog)
      && cachedFetches <= counter
      && cachedFetches <= |queryLog|
    }

    /** The state the module only ever reaches, since the cache is private
        and used by `fetchDataZCustomowymCachem` alone: at most the fixed
        key, and one logged fetch per cached entry. */
    ghost predicate OnlyFixedKey()
      reads this
    {
      Valid() && customCacheMemory.Keys <= {FixedKey} && cachedFetches == |queryLog|
    }

    /** The module as loaded: the counter at zero and an empty cache. */
    constructor ()
      ensures OnlyFixedKey()
      ensures counter == 0 && customCacheMemory == map[] && queryLog == [] && cachedFetches == 0
    {
      counter := 0;
      customCacheMemory := map[];
      queryLog := [];
      cachedFetches := 0;
    }

    /** `fetchDataWithLogger`: the counter rises by exactly one when the
        promise is created, and each call's promise is a new one, told apart
        by the counter value it logged. The cache is not touched. */
    method FetchDataWithLogger() returns (p: Token)
      requires Valid()
      modifies this
      ensures Valid()
      ensures counter == old(counter) + 1
      ensures p == Token(counter)
      ensures customCacheMemory == old(customCacheMemory)
      ensures queryLog == old(queryLog) && cachedFetches == old(cachedFetches)
    {
      counter := counter + 1;
      p := Token(counter);
    }

    /** `cosNaWzorUseQuery(queryKey, queryFn)`: on an absent key the query
        function runs once and its promise is stored; a present key leaves
        the cache and the counter alone. The stored entry is returned, and
        no entry is removed or replaced. */
    method CosNaWzorUseQuery(queryKey: PropertyKey, queryFn: QueryFn) returns (p: Token)
      requires Valid()
      modifies this
      ensures Valid()
      ensures queryKey in customCacheMemory && p == customCacheMemory[queryKey]
      ensures queryKey in old(customCacheMemory) ==>
        && customCacheMemory == old(customCacheMemory)
        && counter == old(counter)
        && queryLog == old(queryLog)
        && cachedFetches == old(cachedFetches)
      ensures queryKey !in old(customCacheMemory) ==>
        && queryLog == old(queryLog) + [queryKey]
        && customCacheMemory == old(customCacheMemory)[queryKey := p]
        && (queryFn.OtherFn? ==> p == queryFn.result && counter == old(counter))
        && (queryFn.FetchDataWithLoggerFn? ==> counter == old(counter) + 1 && p == Token(counter))
        && cachedFetches == old(cachedFetches) + (if queryFn.FetchDataWithLoggerFn? then 1 else 0)
      ensures old(customCacheMemory).Keys <= customCacheMemory.Keys
      ensures forall k :: k in old(customCacheMemory) ==> customCacheMemory[k] == old(customCacheMemory)[k]
    {
      if queryKey !in customCacheMemory {
        var promise;
        match queryFn {
          case FetchDataWithLoggerFn =>
            promise := FetchDataWithLogger();
            cachedFetches := cachedFetches + 1;
          case OtherFn(result) =>
            promise := result;
        }
        AppendFresh(queryLog, queryKey);
        customCacheMemory := customCacheMemory[queryKey := promise];
        queryLog := queryLog + [queryKey];
      }
      p := customCacheMemory[queryKey];
    }

    /** `fetchDataZCustomowymCachem`: always the fixed key with the logged
        fetch. The first call starts a fetch and raises the counter by one;
        every later call returns that same promise and leaves the counter. */
    method FetchDataZCustomowymCachem() returns (p: Token)
      requires OnlyFixedKey()
      modifies this
      ensures OnlyFixedKey()
      ensures customCacheMemory.Keys == {FixedKey} && p == customCacheMemory[FixedKey]
      ensures counter == old(counter) + (if FixedKey in old(customCacheMemory) then 0 else 1)
      ensures FixedKey in old(customCacheMemory) ==>
        p == old(customCacheMemory)[FixedKey] && customCacheMemory == old(customCacheMemory)
      ensures cachedFetches == 1
    {
      p := CosNaWzorUseQuery(FixedKey, FetchDataWithLoggerFn);
      DistinctCardinality(queryLog);
      assert Elements(queryLog) <= {FixedKey};
    }
  }

  /** However often the cached fetch is asked for, the logged fetch behind it
      runs at most once: two calls return one promise and raise the counter
      by at most one. */
  method RepeatedCachedFetch(m: UseUtilsModule) returns (p1: Token, p2: Token)
    requires m.OnlyFixedKey()
    modifies m
    ensures m.OnlyFixedKey()
    ensures p1 == p2
    ensures old(m.counter) <= m.counter <= old(m.counter) + 1
  {
    p1 := m.FetchDataZCustomowymCachem();
    p2 := m.FetchDataZCustomowymCachem();
  }
}
