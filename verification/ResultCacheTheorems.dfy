/**
 * The result cache for any live source: the exact calls of every query, and exactly when no callback
 * can tell that there is a cache.
 */
module ResultCacheTheorems {
  import opened Text
  import opened ResultCaches

  /** Characters that encodeURIComponent leaves alone. */
  predicate IsUnreserved(c: char) {
    'a' <= c <= 'z' || 'A' <= c <= 'Z' || '0' <= c <= '9' ||
    c == '-' || c == '_' || c == '.' || c == '!' || c == '~' || c == '*' || c == '\'' || c == '(' || c == ')'
  }

  predicate Unreserved(s: string) { forall i :: 0 <= i < |s| ==> IsUnreserved(s[i]) }

  /** What the two URI functions do to such strings. */
  ghost predicate LeavesAlone(cfg: Config) {
    forall s :: Unreserved(s) ==> cfg.encode(s) == s && cfg.decode(s) == s
  }

  function LiveResults(cfg: Config, query: string): seq<Record> {
    match cfg.live(query)
    case Some(rs) => rs
    case None => []
  }

  /** The live source answers every such query. */
  ghost predicate Total(cfg: Config) { forall q :: Unreserved(q) ==> cfg.live(q).Some? }

  // ---------- what the cache takes for granted of the live source ----------

  /** Queries alike after case normalization have the same results. */
  ghost predicate ByNorm(cfg: Config) {
    forall x, y :: Unreserved(x) && Unreserved(y) && Norm(cfg, x) == Norm(cfg, y) ==>
      LiveResults(cfg, x) == LiveResults(cfg, y)
  }

  /** The results of a query are those of any proper prefix, filtered. */
  ghost predicate Narrows(cfg: Config) {
    forall p, q :: Unreserved(p) && Unreserved(q) && p != "" && IsSubQuery(Norm(cfg, p), Norm(cfg, q)) ==>
      Filter(cfg, LiveResults(cfg, p), Norm(cfg, q)) == LiveResults(cfg, q)
  }

  ghost predicate Cacheable(cfg: Config) {
    cfg.maxEntries > 0 ==> ByNorm(cfg) && (cfg.matchSubset ==> Narrows(cfg))
  }

  lemma {:induction false} NormTwice(cfg: Config, s: string)
    ensures Norm(cfg, Norm(cfg, s)) == Norm(cfg, s) && |Norm(cfg, s)| == |s|
    ensures Unreserved(s) <==> Unreserved(Norm(cfg, s))
  {
    if !cfg.matchCase {
      forall k | 0 <= k < |s|
        ensures LowerChar(LowerChar(s[k])) == LowerChar(s[k])
        ensures IsUnreserved(s[k]) <==> IsUnreserved(Lower(s)[k])
      {
      }
    }
  }

  // ---------- the cache ----------

  /** Every cached element holds what the live source would answer. */
  ghost predicate Fresh(cfg: Config, cache: seq<Elem>) {
    && |cache| <= cfg.maxEntries
    && forall i :: 0 <= i < |cache| ==>
         && cache[i].query != "" && Unreserved(cache[i].query)
         && cache[i].results == LiveResults(cfg, cache[i].query)
  }

  lemma {:induction false} AddKeepsFresh(cfg: Config, cache: seq<Elem>, e: Elem)
    requires Fresh(cfg, cache) && cfg.maxEntries > 0
    requires Unreserved(e.query) && e.results == LiveResults(cfg, e.query)
    ensures Fresh(cfg, Add(cfg, cache, e))
  {
    hide LiveResults, Unreserved;
    var kept := if |cache| >= cfg.maxEntries && cache != [] then cache[1..] else cache;
    assert forall i :: 0 <= i < |kept| ==> kept[i] in cache;
    assert forall f :: f in cache ==> f.query != "" && Unreserved(f.query) && f.results == LiveResults(cfg, f.query);
  }

  /** Whether a cached element answers the normalized query q. */
  predicate Serves(cfg: Config, e: Elem, q: string) {
    MatchKey(cfg, e) == q || (cfg.matchSubset && IsSubQuery(MatchKey(cfg, e), q))
  }

  lemma {:induction false} SearchFinds(cfg: Config, cache: seq<Elem>, q: string, n: nat)
    requires n <= |cache|
    ensures match Search(cfg, cache, q, n)
      case Nothing => forall i :: 0 <= i < n ==> !Serves(cfg, cache[i], q)
      case Exact(i) => MatchKey(cfg, cache[i]) == q
      case Subset(i) => cfg.matchSubset && IsSubQuery(MatchKey(cfg, cache[i]), q)
  {
    hide MatchKey, IsSubQuery;
    if n > 0 { SearchFinds(cfg, cache, q, n - 1); }
  }

  /** A cached answer is the live answer, and the cache stays fresh. */
  lemma {:induction false} QueryCacheIsLive(cfg: Config, cache: seq<Elem>, query: string)
    requires LeavesAlone(cfg) && Cacheable(cfg) && Fresh(cfg, cache) && cfg.maxEntries > 0 && Unreserved(query)
    ensures var (found, left) := QueryCache(cfg, cache, query);
      Fresh(cfg, left) && (found.Some? ==> found.value == LiveResults(cfg, query))
  {
    hide LiveResults, Filter, Norm, Unreserved, Search, Add, IsSubQuery;
    var q := Norm(cfg, query);
    SearchFinds(cfg, cache, q, |cache|);
    match Search(cfg, cache, q, |cache|) {
      case Nothing =>
      case Exact(i) =>
        var rest := cache[..i] + cache[i + 1..];
        assert Fresh(cfg, rest);
        AddKeepsFresh(cfg, rest, cache[i]);
      case Subset(i) =>
        NormTwice(cfg, query);
        AddKeepsFresh(cfg, cache, Elem(q, Filter(cfg, cache[i].results, q)));
    }
  }

  ghost predicate FreshSource(cfg: Config, s: Source) {
    if s.cache.None? then cfg.maxEntries <= 0 else cfg.maxEntries > 0 && Fresh(cfg, s.cache.value)
  }

  lemma {:induction false} DoQueryIsLive(cfg: Config, s: Source, query: string)
    requires LeavesAlone(cfg) && Total(cfg) && FreshSource(cfg, s) && Unreserved(query)
    ensures FreshSource(cfg, DoQuery(cfg, s, query))
    ensures DoQuery(cfg, s, query).log == s.log + [LiveQuery(query), Answer(Some(query), LiveResults(cfg, query))]
  {
    hide Add, Fresh, Unreserved;
    if s.cache.Some? { AddKeepsFresh(cfg, s.cache.value, Elem(cfg.decode(query), LiveResults(cfg, query))); }
  }

  // ---------- the calls of a query ----------

  predicate HasAnswer(cfg: Config, s: Source, query: string) {
    s.cache.Some? && exists i :: 0 <= i < |s.cache.value| && Serves(cfg, s.cache.value[i], Norm(cfg, query))
  }

  /** The query a callback is given with a cached answer; None is undefined. */
  function Asked(cfg: Config, query: string): Option<string> { if cfg.matchCase then None else Some(query) }

  /** Live alone; cached alone; or, for an empty cached answer, both. */
  function CallsFor(cfg: Config, s: Source, query: string): seq<Call> {
    var live := LiveResults(cfg, query);
    if !HasAnswer(cfg, s, query) then [LiveQuery(query), Answer(Some(query), live)]
    else if live != [] then [Answer(Asked(cfg, query), live)]
    else [Answer(Asked(cfg, query), []), LiveQuery(query), Answer(Some(query), [])]
  }

  lemma {:induction false} CallsOfQuery(cfg: Config, s: Source, query: string)
    requires LeavesAlone(cfg) && Total(cfg) && Cacheable(cfg) && FreshSource(cfg, s) && Unreserved(query)
    ensures FreshSource(cfg, GetResults(cfg, s, query))
    ensures GetResults(cfg, s, query).log == s.log + CallsFor(cfg, s, query)
  {
    hide LiveResults, Add, Fresh, Unreserved, Search, Filter, MatchKey, IsSubQuery, Cacheable, Norm;
    if s.cache.Some? && s.cache.value != [] {
      var cache := s.cache.value;
      QueryCacheIsLive(cfg, cache, query);
      SearchFinds(cfg, cache, Norm(cfg, query), |cache|);
      var (found, left) := QueryCache(cfg, cache, query);
      DoQueryIsLive(cfg, s.(cache := Some(left)), query);
      assert found.Some? <==> HasAnswer(cfg, s, query) by { FoundIffServed(cfg, cache, query); }
      if found.Some? {
        var a := Answer(Asked(cfg, query), found.value);
        DoQueryIsLive(cfg, Source(Some(left), s.log + [a]), query);
        var l := [LiveQuery(query), Answer(Some(query), LiveResults(cfg, query))];
        assert s.log + [a] + l == s.log + ([a] + l);
      }
    } else {
      DoQueryIsLive(cfg, s, query);
    }
  }

  lemma {:induction false} FoundIffServed(cfg: Config, cache: seq<Elem>, query: string)
    ensures QueryCache(cfg, cache, query).0.Some? <==>
      exists i :: 0 <= i < |cache| && Serves(cfg, cache[i], Norm(cfg, query))
  {
    hide Search, Filter, MatchKey, IsSubQuery, Norm, Add;
    SearchFinds(cfg, cache, Norm(cfg, query), |cache|);
    match Search(cfg, cache, Norm(cfg, query), |cache|) {
      case Nothing =>
      case Exact(i) => assert Serves(cfg, cache[i], Norm(cfg, query));
      case Subset(i) => assert Serves(cfg, cache[i], Norm(cfg, query));
    }
  }

  /** The callback is handed an undefined query exactly with a cached answer under queryMatchCase. */
  lemma {:induction false} UndefinedIffCached(cfg: Config, s: Source, query: string, i: nat)
    requires i < |CallsFor(cfg, s, query)| && CallsFor(cfg, s, query)[i].Answer?
    ensures CallsFor(cfg, s, query)[i].asked.None? <==> cfg.matchCase && HasAnswer(cfg, s, query) && i == 0
    ensures CallsFor(cfg, s, query)[i].results == LiveResults(cfg, query)
  {
    hide LiveResults, HasAnswer;
  }

  // ---------- runs ----------

  /** The state and, query by query, the calls made. */
  ghost function Run(cfg: Config, s: Source, queries: seq<string>): (r: (Source, seq<seq<Call>>))
    ensures |r.1| == |queries|
    decreases |queries|
  {
    if queries == [] then (s, [])
    else
      var n := |queries| - 1;
      var (s1, calls) := Run(cfg, s, queries[..n]);
      var s2 := GetResults(cfg, s1, queries[n]);
      (s2, calls + [if |s1.log| <= |s2.log| then s2.log[|s1.log|..] else []])
  }

  predicate AllUnreserved(queries: seq<string>) { forall i :: 0 <= i < |queries| ==> Unreserved(queries[i]) }

  /** Over any run each query makes exactly these calls, and the cache never exceeds maxCacheEntries. */
  lemma {:induction false} CallsOfRun(cfg: Config, queries: seq<string>)
    requires LeavesAlone(cfg) && Total(cfg) && Cacheable(cfg) && AllUnreserved(queries)
    ensures var (s, calls) := Run(cfg, Start(cfg), queries);
      && FreshSource(cfg, s) && (s.cache.Some? ==> |s.cache.value| <= cfg.maxEntries)
      && forall i :: 0 <= i < |queries| ==>
           calls[i] == CallsFor(cfg, Run(cfg, Start(cfg), queries[..i]).0, queries[i])
    decreases |queries|
  {
    hide GetResults, CallsFor, Unreserved, LeavesAlone, Total, Cacheable;
    if queries != [] {
      var n := |queries| - 1;
      CallsOfRun(cfg, queries[..n]);
      var (s1, calls1) := Run(cfg, Start(cfg), queries[..n]);
      CallsOfQuery(cfg, s1, queries[n]);
      var s2 := GetResults(cfg, s1, queries[n]);
      assert s2.log[|s1.log|..] == CallsFor(cfg, s1, queries[n]);
      var calls := Run(cfg, Start(cfg), queries).1;
      forall i | 0 <= i < |queries|
        ensures calls[i] == CallsFor(cfg, Run(cfg, Start(cfg), queries[..i]).0, queries[i])
      {
        if i < n { assert queries[..n][..i] == queries[..i] && calls[i] == calls1[i]; }
      }
    }
  }

  /** So over any run an undefined query means a cached answer under queryMatchCase, and the first call. */
  lemma {:induction false} UndefinedInRun(cfg: Config, queries: seq<string>, i: nat, j: nat)
    requires LeavesAlone(cfg) && Total(cfg) && Cacheable(cfg) && AllUnreserved(queries) && i < |queries|
    requires j < |Run(cfg, Start(cfg), queries).1[i]| && Run(cfg, Start(cfg), queries).1[i][j].Answer?
    ensures Run(cfg, Start(cfg), queries).1[i][j].asked.None? <==>
      cfg.matchCase && HasAnswer(cfg, Run(cfg, Start(cfg), queries[..i]).0, queries[i]) && j == 0
  {
    hide LeavesAlone, Total, Cacheable, AllUnreserved, Run, CallsFor, HasAnswer;
    CallsOfRun(cfg, queries);
    UndefinedIffCached(cfg, Run(cfg, Start(cfg), queries[..i]).0, queries[i], j);
  }

  // ---------- transparency ----------

  /** The answers among some calls all carry these results. */
  predicate AllAnswer(calls: seq<Call>, results: seq<Record>) {
    forall i :: 0 <= i < |calls| && calls[i].Answer? ==> calls[i].results == results
  }

  ghost predicate LiveAnswers(cfg: Config, queries: seq<string>) {
    forall i :: 0 <= i < |queries| ==>
      AllAnswer(Run(cfg, Start(cfg), queries).1[i], LiveResults(cfg, queries[i]))
  }

  /** Over every run of queries in unreserved characters, callbacks get what the live source returns. */
  ghost predicate Transparent(cfg: Config) {
    forall queries :: AllUnreserved(queries) ==> LiveAnswers(cfg, queries)
  }

  lemma {:induction false} CacheIsTransparent(cfg: Config)
    requires LeavesAlone(cfg) && Total(cfg) && Cacheable(cfg)
    ensures Transparent(cfg)
  {
    hide LeavesAlone, Total, Cacheable, AllUnreserved, Run, CallsFor, LiveResults;
    forall queries | AllUnreserved(queries) ensures LiveAnswers(cfg, queries) {
      CallsOfRun(cfg, queries);
      forall i | 0 <= i < |queries|
        ensures AllAnswer(Run(cfg, Start(cfg), queries).1[i], LiveResults(cfg, queries[i]))
      {
        OwnResults(cfg, Run(cfg, Start(cfg), queries[..i]).0, queries[i]);
      }
    }
  }

  lemma {:induction false} OwnResults(cfg: Config, s: Source, query: string)
    ensures AllAnswer(CallsFor(cfg, s, query), LiveResults(cfg, query))
  {
    hide LiveResults, HasAnswer;
  }

  /** The first query of a run leaves its own element. */
  lemma {:induction false} AfterFirst(cfg: Config, p: string)
    requires LeavesAlone(cfg) && Total(cfg) && cfg.maxEntries > 0 && Unreserved(p) && p != ""
    ensures GetResults(cfg, Start(cfg), p).cache == Some([Elem(p, LiveResults(cfg, p))])
  {
    hide Unreserved;
    assert [] + [Elem(p, LiveResults(cfg, p))] == [Elem(p, LiveResults(cfg, p))];
  }

  function Served(cfg: Config, e: Elem, q: string): seq<Record> {
    if MatchKey(cfg, e) == Norm(cfg, q) then e.results else Filter(cfg, e.results, Norm(cfg, q))
  }

  /** A query served by the only element is answered with it first. */
  lemma {:induction false} AnsweredFirst(cfg: Config, s: Source, e: Elem, q: string)
    requires cfg.maxEntries > 0 && s.cache == Some([e]) && Serves(cfg, e, Norm(cfg, q))
    ensures s.log + [Answer(Asked(cfg, q), Served(cfg, e, q))] <= GetResults(cfg, s, q).log
  {
    hide Filter, Norm, MatchKey, IsSubQuery, Serves, Add, Search;
    SearchOne(cfg, e, Norm(cfg, q));
    var a := Answer(Asked(cfg, q), Served(cfg, e, q));
    assert QueryCache(cfg, [e], q).0 == Some(Served(cfg, e, q));
    assert forall l :: s.log + [a] <= s.log + [a] + l;
  }

  lemma {:induction false} RunTwo(cfg: Config, p: string, q: string)
    ensures var s1 := GetResults(cfg, Start(cfg), p); var s2 := GetResults(cfg, s1, q);
      s1.log <= s2.log ==> Run(cfg, Start(cfg), [p, q]).1[1] == s2.log[|s1.log|..]
  {
    hide GetResults;
    assert [p, q][..1] == [p] && [p][..0] == [];
    assert Run(cfg, Start(cfg), [p]).0 == GetResults(cfg, Start(cfg), p);
  }

  /** Two queries, the second served by the element of the first. */
  lemma {:induction false} ServedBySecond(cfg: Config, p: string, q: string)
    requires LeavesAlone(cfg) && Total(cfg) && cfg.maxEntries > 0 && Unreserved(p) && p != ""
    requires Norm(cfg, p) == Norm(cfg, q) || (cfg.matchSubset && IsSubQuery(Norm(cfg, p), Norm(cfg, q)))
    ensures var calls := Run(cfg, Start(cfg), [p, q]).1[1];
      calls != [] && calls[0] == Answer(Asked(cfg, q),
        if Norm(cfg, p) == Norm(cfg, q) then LiveResults(cfg, p) else Filter(cfg, LiveResults(cfg, p), Norm(cfg, q)))
  {
    hide Filter, Norm, Unreserved, IsSubQuery, Run, GetResults, LiveResults;
    var e := Elem(p, LiveResults(cfg, p));
    AfterFirst(cfg, p);
    var s1 := GetResults(cfg, Start(cfg), p);
    AnsweredFirst(cfg, s1, e, q);
    RunTwo(cfg, p, q);
  }

  lemma {:induction false} SearchOne(cfg: Config, e: Elem, q: string)
    requires Serves(cfg, e, q)
    ensures Search(cfg, [e], q, 1) == if MatchKey(cfg, e) == q then Exact(0) else Subset(0)
  {
    hide MatchKey, IsSubQuery;
  }

  /** For any live source the cache is transparent exactly if the source is as the cache takes it to be. */
  lemma {:induction false} TransparentIffCacheable(cfg: Config)
    requires LeavesAlone(cfg) && Total(cfg)
    ensures Transparent(cfg) <==> Cacheable(cfg)
  {
    hide LeavesAlone, Total, LiveResults, Filter, Norm, IsSubQuery, Run, Unreserved;
    if Cacheable(cfg) {
      CacheIsTransparent(cfg);
    }
    if Transparent(cfg) && cfg.maxEntries > 0 {
      forall x, y | Unreserved(x) && Unreserved(y) && Norm(cfg, x) == Norm(cfg, y)
        ensures LiveResults(cfg, x) == LiveResults(cfg, y)
      {
        NormLength(cfg, x);
        NormLength(cfg, y);
        if x != "" {
          ServedBySecond(cfg, x, y);
          assert AllUnreserved([x, y]) && LiveAnswers(cfg, [x, y]);
        }
      }
      if cfg.matchSubset {
        forall p, q | Unreserved(p) && Unreserved(q) && p != "" && IsSubQuery(Norm(cfg, p), Norm(cfg, q))
          ensures Filter(cfg, LiveResults(cfg, p), Norm(cfg, q)) == LiveResults(cfg, q)
        {
          ProperPrefix(Norm(cfg, p), Norm(cfg, q));
          ServedBySecond(cfg, p, q);
          assert AllUnreserved([p, q]) && LiveAnswers(cfg, [p, q]);
        }
      }
    }
  }

  lemma {:induction false} NormLength(cfg: Config, s: string)
    ensures |Norm(cfg, s)| == |s|
  {}

  lemma {:induction false} ProperPrefix(p: string, q: string)
    requires IsSubQuery(p, q)
    ensures p != q
  {}

  // ---------- the cache is used ----------

  /** A query that has results, asked again, is answered from the cache alone. */
  lemma {:induction false} SecondTimeIsCached(cfg: Config, s: Source, query: string)
    requires LeavesAlone(cfg) && Total(cfg) && Cacheable(cfg) && FreshSource(cfg, s) && Unreserved(query)
    requires cfg.maxEntries > 0 && query != "" && LiveResults(cfg, query) != []
    ensures var s1 := GetResults(cfg, s, query);
      GetResults(cfg, s1, query).log == s1.log + [Answer(Asked(cfg, query), LiveResults(cfg, query))]
  {
    hide LiveResults, Unreserved, GetResults, Fresh, Cacheable, Total, LeavesAlone, Norm;
    CallsOfQuery(cfg, s, query);
    NewestServes(cfg, s, query);
    CallsOfQuery(cfg, GetResults(cfg, s, query), query);
  }

  /** After a query with results its own element is the newest. */
  lemma {:induction false} NewestServes(cfg: Config, s: Source, query: string)
    requires LeavesAlone(cfg) && Total(cfg) && Cacheable(cfg) && FreshSource(cfg, s) && Unreserved(query)
    requires cfg.maxEntries > 0 && query != "" && LiveResults(cfg, query) != []
    ensures HasAnswer(cfg, GetResults(cfg, s, query), query)
  {
    hide LiveResults, Unreserved, Filter, Norm, Search, Fresh, Cacheable, IsSubQuery;
    var q := Norm(cfg, query);
    NormTwice(cfg, query);
    if s.cache.value != [] {
      QueryCacheIsLive(cfg, s.cache.value, query);
      SearchFinds(cfg, s.cache.value, q, |s.cache.value|);
      NonEmptyQueries(cfg, s.cache.value);
    }
    var cache := GetResults(cfg, s, query).cache;
    assert MatchKey(cfg, cache.value[|cache.value| - 1]) == q;
  }

  /** A query the live source fails on is reported, leaves no element, and is sent live again the next time. */
  lemma {:induction false} FailureIsNotCached(cfg: Config, s: Source, query: string)
    requires cfg.live(query).None? && !HasAnswer(cfg, s, query)
    ensures var s1 := GetResults(cfg, s, query);
      && s1 == Source(s.cache, s.log + [LiveQuery(query), NullData(query)])
      && GetResults(cfg, s1, query).log == s1.log + [LiveQuery(query), NullData(query)]
  {
    hide Search, Norm, MatchKey, IsSubQuery, Add, Filter;
    if s.cache.Some? {
      FoundIffServed(cfg, s.cache.value, query);
      SearchFinds(cfg, s.cache.value, Norm(cfg, query), |s.cache.value|);
    }
  }

  lemma {:induction false} NonEmptyQueries(cfg: Config, cache: seq<Elem>)
    requires Fresh(cfg, cache)
    ensures forall i :: 0 <= i < |cache| ==> cache[i].query != ""
  {
    hide LiveResults, Unreserved;
  }
}
