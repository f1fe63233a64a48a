/**
 * The prediction cache: a bounded map from cache keys to suggestion lists
 * that evicts an oldest entry when full, and the engine's key format.
 */
module Prediction {
  import opened Common
  import opened Text
  import opened Protocol

  /** A cached list of suggestions and the time it was stored. */
  datatype CacheEntry = CacheEntry(suggestions: seq<Suggestion>, timestamp: int)

  /** `victim` is an entry of `m` with the smallest timestamp. */
  predicate IsOldest(m: map<string, CacheEntry>, victim: string)
  {
    victim in m && forall k :: k in m ==> m[victim].timestamp <= m[k].timestamp
  }

  class PredictionCache {
    var entries: map<string, CacheEntry>
    const maxSize: nat

    /** With room for at least one entry, the cache never holds more than `maxSize`. */
    predicate Valid()
      reads this
    {
      maxSize >= 1 ==> |entries| <= maxSize
    }

    /** `PredictionCache::new`: empty, with the given capacity. */
    constructor(maxSize: nat)
      ensures this.maxSize == maxSize && entries == map[]
      ensures Valid()
    {
      this.maxSize := maxSize;
      entries := map[];
    }

    /** `get`: the cached suggestions for `key`; reading changes nothing. */
    function Get(key: string): (r: Option<seq<Suggestion>>)
      reads this
      ensures r.Some? <==> key in entries
      ensures r.Some? ==> r.value == entries[key].suggestions
    {
      if key in entries then Some(entries[key].suggestions) else None
    }

    /** The key of an entry with the smallest timestamp (`min_by_key` over the entries), if any. */
    method OldestKey() returns (oldest: Option<string>)
      ensures oldest.None? <==> entries == map[]
      ensures oldest.Some? ==> IsOldest(entries, oldest.value)
    {
      oldest := None;
      var remaining := entries.Keys;
      while remaining != {}
        invariant remaining <= entries.Keys
        invariant oldest.None? <==> remaining == entries.Keys
        invariant oldest.Some? ==> oldest.value in entries
        invariant oldest.Some? ==> forall k :: k in entries && k !in remaining ==>
          entries[oldest.value].timestamp <= entries[k].timestamp
        decreases remaining
      {
        var k :| k in remaining;
        if oldest.None? || entries[k].timestamp < entries[oldest.value].timestamp {
          oldest := Some(k);
        }
        remaining := remaining - {k};
      }
    }

    /**
     * `insert`: when the cache is full, first removes one oldest entry, then
     * stores the suggestions under `key`, stamped with `now`.
     */
    method Insert(key: string, suggestions: seq<Suggestion>, now: int)
      requires Valid()
      modifies this
      ensures Valid()
      ensures Get(key) == Some(suggestions) && entries[key].timestamp == now
      ensures forall k :: k in entries && k != key ==> k in old(entries) && entries[k] == old(entries)[k]
      ensures |old(entries)| < maxSize ==> entries == old(entries)[key := CacheEntry(suggestions, now)]
      ensures |old(entries)| >= maxSize && old(entries) != map[] ==>
        exists victim :: IsOldest(old(entries), victim)
          && entries == (old(entries) - {victim})[key := CacheEntry(suggestions, now)]
    {
      if |entries| >= maxSize {
        var oldest := OldestKey();
        if oldest.Some? {
          assert |entries - {oldest.value}| == |entries| - 1 by {
            assert (entries - {oldest.value}).Keys == entries.Keys - {oldest.value};
          }
          entries := entries - {oldest.value};
        }
      }
      entries := entries[key := CacheEntry(suggestions, now)];
    }

    /** `invalidate_prefix`: drops exactly the keys that start with `prefix` and keeps the rest as they were. */
    method InvalidatePrefix(prefix: string)
      requires Valid()
      modifies this
      ensures Valid()
      ensures forall k :: k in entries <==> k in old(entries) && !StartsWith(k, prefix)
      ensures forall k :: k in entries ==> entries[k] == old(entries)[k]
    {
      var kept := map k | k in entries && !StartsWith(k, prefix) :: entries[k];
      assert kept.Keys <= entries.Keys;
      SubsetCard(kept.Keys, entries.Keys);
      entries := kept;
    }
  }

  lemma SubsetCard<T>(a: set<T>, b: set<T>)
    requires a <= b
    ensures |a| <= |b|
  {
    assert b == a + (b - a);
  }

  /** The test of eviction: a third insert into a cache of two keeps two entries, the new one among them. */
  method EvictionExample() returns (c: PredictionCache)
    ensures |c.entries| == 2 && "c" in c.entries
  {
    c := new PredictionCache(2);
    c.Insert("a", [], 1);
    c.Insert("b", [], 2);
    c.Insert("c", [], 3);
  }

  /** `PredictionEngine::cache_key`: prefix, directory and last command (empty when absent), joined by ':'. */
  function CacheKey(prefix: string, cwd: string, lastCmd: Option<string>): (k: string)
    ensures StartsWith(k, prefix + ":") && EndsWith(k, ":" + lastCmd.GetOr(""))
    ensures |k| == |prefix| + |cwd| + |lastCmd.GetOr("")| + 2
  {
    prefix + ":" + cwd + ":" + lastCmd.GetOr("")
  }

  /** When neither the prefix nor the directory contains ':', the key determines all three parts. */
  lemma CacheKeyInjective(p1: string, c1: string, l1: Option<string>, p2: string, c2: string, l2: Option<string>)
    requires ':' !in p1 && ':' !in c1 && ':' !in p2 && ':' !in c2
    requires CacheKey(p1, c1, l1) == CacheKey(p2, c2, l2)
    ensures p1 == p2 && c1 == c2 && l1.GetOr("") == l2.GetOr("")
  {
    var t1, t2 := l1.GetOr(""), l2.GetOr("");
    assert CacheKey(p1, c1, l1) == p1 + ":" + (c1 + ":" + t1);
    assert CacheKey(p2, c2, l2) == p2 + ":" + (c2 + ":" + t2);
    SplitAtColon(p1, c1 + ":" + t1, p2, c2 + ":" + t2);
    SplitAtColon(c1, t1, c2, t2);
  }

  /** Splitting at the first ':' is unique when the heads contain none. */
  lemma SplitAtColon(a1: string, b1: string, a2: string, b2: string)
    requires ':' !in a1 && ':' !in a2
    requires a1 + ":" + b1 == a2 + ":" + b2
    ensures a1 == a2 && b1 == b2
  {
    var s := a1 + ":" + b1;
    ColonAfterHead(a1, b1);
    ColonAfterHead(a2, b2);
    assert |a1| == |a2|;
    assert a1 == s[..|a1|] && a2 == s[..|a2|];
    assert b1 == s[|a1| + 1..] && b2 == s[|a2| + 1..];
  }

  /** In `a + ":" + b`, with no ':' in `a`, the first ':' is the one right after `a`. */
  lemma ColonAfterHead(a: string, b: string)
    requires ':' !in a
    ensures (a + ":" + b)[|a|] == ':'
    ensures forall i :: 0 <= i < |a| ==> (a + ":" + b)[i] != ':'
  {
    forall i | 0 <= i < |a|
      ensures (a + ":" + b)[i] != ':'
    {
      assert (a + ":" + b)[i] == a[i];
    }
  }

  /** The key does not tell an absent last command from an empty one, nor a ':' inside the directory from the separator. */
  lemma CacheKeyCollisions()
    ensures CacheKey("git", "/repo", None) == CacheKey("git", "/repo", Some(""))
    ensures CacheKey("ls", "/a:/b", None) == CacheKey("ls", "/a", Some("/b:"))
  {
  }

  /** The engine: a cache of 1000 entries shared by all requests. */
  class PredictionEngine {
    const cache: PredictionCache

    /** `PredictionEngine::new`: an empty cache of capacity 1000. */
    constructor()
      ensures fresh(cache) && cache.maxSize == 1000 && cache.entries == map[]
    {
      cache := new PredictionCache(1000);
    }

    /** `get_cached`: looks up the key built from the three parts. */
    function GetCached(prefix: string, cwd: string, lastCmd: Option<string>): (r: Option<seq<Suggestion>>)
      reads this, cache
      ensures r == cache.Get(CacheKey(prefix, cwd, lastCmd))
    {
      cache.Get(CacheKey(prefix, cwd, lastCmd))
    }

    /** `cache_predictions`: stores under the key built from the three parts; a lookup with the same parts then hits. */
    method CachePredictions(prefix: string, cwd: string, lastCmd: Option<string>, suggestions: seq<Suggestion>, now: int)
      requires cache.Valid()
      modifies cache
      ensures cache.Valid()
      ensures GetCached(prefix, cwd, lastCmd) == Some(suggestions)
      ensures cache.entries[CacheKey(prefix, cwd, lastCmd)].timestamp == now
      ensures forall k :: k in cache.entries && k != CacheKey(prefix, cwd, lastCmd) ==>
        k in old(cache.entries) && cache.entries[k] == old(cache.entries)[k]
      ensures |old(cache.entries)| < cache.maxSize ==>
        cache.entries == old(cache.entries)[CacheKey(prefix, cwd, lastCmd) := CacheEntry(suggestions, now)]
      ensures |old(cache.entries)| >= cache.maxSize && old(cache.entries) != map[] ==>
        exists victim :: IsOldest(old(cache.entries), victim)
          && cache.entries == (old(cache.entries) - {victim})[CacheKey(prefix, cwd, lastCmd) := CacheEntry(suggestions, now)]
    {
      cache.Insert(CacheKey(prefix, cwd, lastCmd), suggestions, now);
    }

    /** `invalidate_cache`: drops the keys starting with `prefix`. */
    method InvalidateCache(prefix: string)
      requires cache.Valid()
      modifies cache
      ensures cache.Valid()
      ensures forall k :: k in cache.entries <==> k in old(cache.entries) && !StartsWith(k, prefix)
      ensures forall k :: k in cache.entries ==> cache.entries[k] == old(cache.entries)[k]
    {
      cache.InvalidatePrefix(prefix);
    }
  }

  /** The engine test: a miss, a hit after storing, and a miss for another directory. */
  method EngineExample(s: seq<Suggestion>) returns (e: PredictionEngine)
    ensures e.GetCached("git", "/home/user", None) == Some(s)
    ensures e.GetCached("git", "/other/dir", None).None?
  {
    e := new PredictionEngine();
    assert e.GetCached("git", "/home/user", None).None?;
    e.CachePredictions("git", "/home/user", None, s, 0);
    assert CacheKey("git", "/other/dir", None) != CacheKey("git", "/home/user", None) by {
      assert CacheKey("git", "/other/dir", None)[5] == 'o';
      assert CacheKey("git", "/home/user", None)[5] == 'h';
    }
  }
}
