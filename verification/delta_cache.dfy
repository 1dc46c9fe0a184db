/**
  The delta computation of the response generator and its two-map cache
  (`get_delta_text`, `clear_cache`). The cache lives in the generator object
  and survives across requests, so it is threaded through explicitly.
 */
module DeltaCache {
  import opened Decimal

  /** `_text_cache` and `_length_cache`. */
  datatype Cache = Cache(texts: map<string, string>, lengths: map<string, int>)

  /** The caches of a freshly constructed generator. */
  const EmptyCache: Cache := Cache(map[], map[])

  /** The two maps have one key set, and each cached length is the length of its cached text. */
  predicate Valid(c: Cache) {
    && c.texts.Keys == c.lengths.Keys
    && forall k :: k in c.texts ==> c.lengths[k] == |c.texts[k]|
  }

  lemma EmptyCacheValid()
    ensures Valid(EmptyCache)
  {
  }

  /** Python's `s[k:]`: a negative start counts from the end, and every start is clamped. */
  function SliceFrom(s: string, k: int): (r: string)
    ensures |r| <= |s| && r == s[|s| - |r|..]
    ensures 0 <= k <= |s| ==> |r| == |s| - k
    ensures |s| <= k ==> r == []
  {
    if k < 0 then (if -k >= |s| then s else s[|s| + k..])
    else if k >= |s| then []
    else s[k..]
  }

  /** A prefix followed by the slice after it gives back the whole text. */
  lemma PrefixThenSlice(prefix: string, s: string)
    requires prefix <= s
    ensures prefix + SliceFrom(s, |prefix|) == s
  {
    assert s == s[..|prefix|] + s[|prefix|..];
  }

  /** The key under which a choice of a request is cached: `f"{request_id}_{i}"`. */
  function CacheKey(requestId: string, index: int): string {
    requestId + "_" + IntToString(index)
  }

  /** A cache key reads back as the request id, an underscore, and the choice index in canonical decimal. */
  lemma CacheKeyParts(requestId: string, index: int)
    ensures var k := CacheKey(requestId, index);
      && |k| > |requestId| + 1
      && k[..|requestId|] == requestId && k[|requestId|] == '_'
      && IsCanonicalIntText(k[|requestId| + 1..])
      && ParseInt(k[|requestId| + 1..]) == index
  {
    var k := CacheKey(requestId, index);
    assert k[|requestId| + 1..] == IntToString(index);
    IntRoundTrip(index);
  }

  /** Two choices of one request never share a cache entry. */
  lemma CacheKeyInjective(requestId: string, i: int, j: int)
    requires CacheKey(requestId, i) == CacheKey(requestId, j)
    ensures i == j
  {
    CacheKeyParts(requestId, i);
    CacheKeyParts(requestId, j);
  }

  /**
    `get_delta_text`. On a hit (the cached text equals `previous`) the cached
    length is used and the cache is left alone; otherwise the delta is sliced at
    `len(previous)` and both maps are written. For a valid cache both paths give
    the same delta, so the cache can never change the result.
   */
  function GetDeltaText(c: Cache, output: string, previous: string, key: string): (res: (Cache, string))
    ensures Valid(c) ==> Valid(res.0) && res.1 == SliceFrom(output, |previous|)
    ensures res.0.texts.Keys == c.texts.Keys + {key}
    ensures res.0.texts[key] == previous
    ensures forall k :: k in c.texts && k != key ==> res.0.texts[k] == c.texts[k]
    ensures forall k :: k in c.lengths && k != key ==> k in res.0.lengths && res.0.lengths[k] == c.lengths[k]
  {
    if key in c.texts && c.texts[key] == previous then
      var cachedLength := if key in c.lengths then c.lengths[key] else 0;
      (c, SliceFrom(output, cachedLength))
    else
      (Cache(c.texts[key := previous], c.lengths[key := |previous|]), SliceFrom(output, |previous|))
  }

  /** When the previous text is a prefix of the output, it and the delta reassemble the output. */
  lemma DeltaCompletesPrevious(c: Cache, output: string, previous: string, key: string)
    requires Valid(c)
    requires previous <= output
    ensures previous + GetDeltaText(c, output, previous, key).1 == output
  {
    PrefixThenSlice(previous, output);
  }

  /** `clear_cache`: drops `key` from both maps and touches nothing else. */
  function ClearCache(c: Cache, key: string): (c': Cache)
    ensures c'.texts.Keys == c.texts.Keys - {key}
    ensures c'.lengths.Keys == c.lengths.Keys - {key}
    ensures forall k :: k in c'.texts ==> c'.texts[k] == c.texts[k]
    ensures forall k :: k in c'.lengths ==> c'.lengths[k] == c.lengths[k]
    ensures Valid(c) ==> Valid(c')
  {
    Cache(c.texts - {key}, c.lengths - {key})
  }
}
