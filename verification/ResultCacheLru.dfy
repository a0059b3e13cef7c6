/** Without subset matching the result cache is least recently used: exact hits count as uses. */
module ResultCacheLru {
  import opened Text
  import opened ResultCaches
  import opened ResultCacheTheorems
  import CaptionStores
  import Recency = CaptionStoreTheorems

  /** What the elements are found by, oldest first. */
  function Keys(cfg: Config, cache: seq<Elem>): (r: seq<string>)
    ensures |r| == |cache| && forall i :: 0 <= i < |cache| ==> r[i] == Norm(cfg, cache[i].query)
  {
    seq(|cache|, i requires 0 <= i < |cache| => Norm(cfg, cache[i].query))
  }

  /** Elements as live queries with results leave them. */
  predicate AllNonEmpty(cache: seq<Elem>) {
    forall i :: 0 <= i < |cache| ==> cache[i].query != "" && Unreserved(cache[i].query) && cache[i].results != []
  }

  /** A query in unreserved characters that has results. */
  predicate Asks(cfg: Config, query: string) {
    query != "" && Unreserved(query) && LiveResults(cfg, query) != []
  }

  ghost predicate Exactly(cfg: Config) { LeavesAlone(cfg) && Total(cfg) && cfg.maxEntries > 0 && !cfg.matchSubset }

  predicate Sound(cfg: Config, s: Source) {
    s.cache.Some? && |s.cache.value| <= cfg.maxEntries && AllNonEmpty(s.cache.value)
  }

  /** The search finds the last element with the key, if there is one. */
  lemma {:induction false} SearchIsLast(cfg: Config, cache: seq<Elem>, q: string, n: nat)
    requires n <= |cache| && !cfg.matchSubset
    ensures match Search(cfg, cache, q, n)
      case Nothing => forall i :: 0 <= i < n ==> MatchKey(cfg, cache[i]) != q
      case Exact(i) => i < n && MatchKey(cfg, cache[i]) == q && forall j :: i < j < n ==> MatchKey(cfg, cache[j]) != q
      case Subset(_) => false
  {
    hide MatchKey, IsSubQuery;
    if n > 0 { SearchIsLast(cfg, cache, q, n - 1); }
  }

  lemma {:induction false} RemoveAt(s: seq<string>, i: nat, p: string)
    requires i < |s| && s[i] == p && forall j :: i < j < |s| ==> s[j] != p
    ensures CaptionStores.RemoveLast(s, p) == s[..i] + s[i + 1..]
  {
    var n := |s| - 1;
    if i == n {
      assert s[..i] + s[i + 1..] == s[..n];
    } else {
      RemoveAt(s[..n], i, p);
      assert s[..n][..i] + s[..n][i + 1..] + [s[n]] == s[..i] + s[i + 1..];
    }
  }

  lemma {:induction false} KeyIsNorm(cfg: Config, e: Elem)
    requires LeavesAlone(cfg) && Unreserved(e.query)
    ensures MatchKey(cfg, e) == Norm(cfg, e.query)
  {
    hide Unreserved;
  }

  /** A query that misses: live, and its element added. */
  lemma {:induction false} MissAdds(cfg: Config, s: Source, query: string)
    requires Exactly(cfg) && Sound(cfg, s) && Asks(cfg, query) && Norm(cfg, query) !in Keys(cfg, s.cache.value)
    ensures var s' := GetResults(cfg, s, query);
      && s'.cache == Some(Add(cfg, s.cache.value, Elem(query, LiveResults(cfg, query))))
      && s'.log == s.log + [LiveQuery(query), Answer(Some(query), LiveResults(cfg, query))]
  {
    hide Norm, Unreserved, Add, Search, MatchKey;
    var cache, q := s.cache.value, Norm(cfg, query);
    SearchIsLast(cfg, cache, q, |cache|);
    forall i | 0 <= i < |cache| ensures MatchKey(cfg, cache[i]) != q {
      KeyIsNorm(cfg, cache[i]);
      assert Keys(cfg, cache)[i] != q;
    }
  }

  /** A query that hits: its element, unchanged, is now the newest. */
  lemma {:induction false} HitMoves(cfg: Config, s: Source, query: string) returns (i: nat)
    requires Exactly(cfg) && Sound(cfg, s) && Asks(cfg, query) && Norm(cfg, query) in Keys(cfg, s.cache.value)
    ensures i < |s.cache.value| && Norm(cfg, s.cache.value[i].query) == Norm(cfg, query)
    ensures forall j :: i < j < |s.cache.value| ==> Norm(cfg, s.cache.value[j].query) != Norm(cfg, query)
    ensures var (cache, s') := (s.cache.value, GetResults(cfg, s, query));
      && s'.cache == Some(cache[..i] + cache[i + 1..] + [cache[i]])
      && s'.log == s.log + [Answer(Asked(cfg, query), cache[i].results)]
  {
    hide Norm, Unreserved, Search, MatchKey;
    var cache, q := s.cache.value, Norm(cfg, query);
    SearchIsLast(cfg, cache, q, |cache|);
    forall j | 0 <= j < |cache| ensures MatchKey(cfg, cache[j]) == Keys(cfg, cache)[j] { KeyIsNorm(cfg, cache[j]); }
    i := Search(cfg, cache, q, |cache|).at;
    var e := cache[i];
    if i == |cache| - 1 {
      assert cache == cache[..i] + cache[i + 1..] + [e];
    } else {
      assert Add(cfg, cache[..i] + cache[i + 1..], e) == cache[..i] + cache[i + 1..] + [e];
    }
  }

  lemma {:induction false} AddedKeys(cfg: Config, cache: seq<Elem>, e: Elem)
    requires |cache| <= cfg.maxEntries && cfg.maxEntries > 0 && e.query != "" && AllNonEmpty(cache)
    requires Unreserved(e.query) && e.results != []
    ensures var (added, keys) := (Add(cfg, cache, e), Keys(cfg, cache));
      && Keys(cfg, added) == (if |keys| == cfg.maxEntries && keys != [] then keys[1..] else keys) + [Norm(cfg, e.query)]
      && |added| <= cfg.maxEntries && AllNonEmpty(added)
  {
    hide Norm, Unreserved;
  }

  lemma {:induction false} MovedKeys(cfg: Config, cache: seq<Elem>, i: nat, p: string)
    requires i < |cache| && AllNonEmpty(cache) && Norm(cfg, cache[i].query) == p
    requires forall j :: i < j < |cache| ==> Norm(cfg, cache[j].query) != p
    ensures var moved := cache[..i] + cache[i + 1..] + [cache[i]];
      Keys(cfg, moved) == CaptionStores.MoveToEnd(Keys(cfg, cache), p) && AllNonEmpty(moved)
  {
    hide Norm, Unreserved, CaptionStores.RemoveLast;
    var keys, moved := Keys(cfg, cache), cache[..i] + cache[i + 1..] + [cache[i]];
    RemoveAt(keys, i, p);
    RotatedKeys(cfg, cache, i);
    assert forall e :: e in moved ==> e in cache;
    if keys[|keys| - 1] == p { assert keys[..i] + keys[i + 1..] + [p] == keys; }
  }

  lemma {:induction false} RotatedKeys(cfg: Config, cache: seq<Elem>, i: nat)
    requires i < |cache|
    ensures var keys := Keys(cfg, cache);
      Keys(cfg, cache[..i] + cache[i + 1..] + [cache[i]]) == keys[..i] + keys[i + 1..] + [keys[i]]
  {
    hide Norm;
  }

  /** One query makes its key the most recent, and drops the least recent one of a full cache. */
  lemma {:induction false} QueryIsUse(cfg: Config, s: Source, query: string)
    requires Exactly(cfg) && Sound(cfg, s) && Asks(cfg, query)
    ensures var s' := GetResults(cfg, s, query);
      && Sound(cfg, s')
      && Keys(cfg, s'.cache.value) ==
           Recency.IndexesAfter(Keys(cfg, s.cache.value), cfg.maxEntries, Norm(cfg, query), CaptionStores.Granted)
  {
    hide *;
    SoundFacts(cfg, s);
    var keys, p := Keys(cfg, s.cache.value), Norm(cfg, query);
    AskFacts(cfg, query);
    ExactFacts(cfg);
    Used(keys, cfg.maxEntries, p);
    if p in keys {
      var i := HitMoves(cfg, s, query);
      MovedKeys(cfg, s.cache.value, i, p);
    } else {
      MissAdds(cfg, s, query);
      AddedKeys(cfg, s.cache.value, Elem(query, LiveResults(cfg, query)));
    }
    SoundFacts(cfg, GetResults(cfg, s, query));
  }

  lemma {:induction false} Used(keys: seq<string>, n: int, p: string)
    ensures Recency.IndexesAfter(keys, n, p, CaptionStores.Granted) ==
      if p in keys then CaptionStores.MoveToEnd(keys, p)
      else (if |keys| == n && keys != [] then keys[1..] else keys) + [p]
  {}

  lemma {:induction false} SoundFacts(cfg: Config, s: Source)
    ensures Sound(cfg, s) <==> s.cache.Some? && |s.cache.value| <= cfg.maxEntries && AllNonEmpty(s.cache.value)
  {}

  lemma {:induction false} AskFacts(cfg: Config, query: string)
    ensures Asks(cfg, query) <==> query != "" && Unreserved(query) && LiveResults(cfg, query) != []
  {}

  lemma {:induction false} ExactFacts(cfg: Config)
    requires Exactly(cfg)
    ensures cfg.maxEntries > 0
  {}

  function Norms(cfg: Config, queries: seq<string>): seq<string> {
    if queries == [] then [] else Norms(cfg, queries[..|queries| - 1]) + [Norm(cfg, queries[|queries| - 1])]
  }

  /**
   * After any run of queries that have results, the cache holds exactly the last maxCacheEntries
   * distinct queries asked, case aside if it does not match, in the order in which they were last asked.
   */
  lemma {:induction false} CacheIsLru(cfg: Config, queries: seq<string>)
    requires Exactly(cfg) && forall i :: 0 <= i < |queries| ==> Asks(cfg, queries[i])
    ensures var s := Run(cfg, Start(cfg), queries).0;
      Sound(cfg, s) && Keys(cfg, s.cache.value) == Recency.Recent(Norms(cfg, queries), cfg.maxEntries)
  {
    hide GetResults, Norm, Asks, Recency.Recent, Recency.IndexesAfter, LeavesAlone, Total;
    if queries == [] {
      Recency.NothingRecent(cfg.maxEntries);
    } else {
      var n := |queries| - 1;
      CacheIsLru(cfg, queries[..n]);
      QueryIsUse(cfg, Run(cfg, Start(cfg), queries[..n]).0, queries[n]);
      Recency.RecentAppend(Norms(cfg, queries[..n]), cfg.maxEntries, Norm(cfg, queries[n]));
    }
  }
}
