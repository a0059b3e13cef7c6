/**
 * The result cache of the AutoComplete DataSource (autocomplete-debug.js) in front of a
 * DS_JSFunction source: exact hits move to the new end, and with subset matching the results of a
 * cached prefix of the query are filtered.
 */
module ResultCaches {
  import opened Text

  /** key is the first column of the record. */
  datatype Record = Record(key: string, columns: seq<string>)

  datatype Elem = Elem(query: string, results: seq<Record>)

  /** encode and decode are encodeURIComponent and decodeURIComponent. */
  datatype Config = Config(maxEntries: int, matchCase: bool, matchContains: bool, matchSubset: bool,
                           encode: string -> string, decode: string -> string,
                           live: string -> Option<seq<Record>>)

  /** Calls of the callback, queries sent to the live source, and its null answers. */
  datatype Call =
    | Answer(asked: Option<string>, results: seq<Record>)
    | LiveQuery(query: string)
    | NullData(query: string)

  /** cache is None (null) when caching is off. */
  datatype Source = Source(cache: Option<seq<Elem>>, log: seq<Call>)

  function Start(cfg: Config): Source { Source(if cfg.maxEntries > 0 then Some([]) else None, []) }

  function Norm(cfg: Config, s: string): string { if cfg.matchCase then s else Lower(s) }

  predicate OccursAt(s: string, t: string, i: int) { 0 <= i && i + |t| <= |s| && s[i..i + |t|] == t }

  /** s.indexOf(t, from) */
  function Find(s: string, t: string, from: nat := 0): (i: int)
    ensures i >= 0 ==> OccursAt(s, t, i) && forall j :: from <= j < i ==> !OccursAt(s, t, j)
    ensures i < 0 ==> i == -1 && forall j :: from <= j ==> !OccursAt(s, t, j)
    decreases |s| - from
  {
    if from + |t| > |s| then -1
    else if OccursAt(s, t, from) then from
    else Find(s, t, from + 1)
  }

  /** Whether a cached record answers the normalized query q. */
  predicate Hits(cfg: Config, r: Record, q: string) {
    var i := Find(Norm(cfg, cfg.encode(r.key)), q);
    if cfg.matchContains then i > -1 else i == 0
  }

  function Filter(cfg: Config, rs: seq<Record>, q: string): seq<Record> {
    if rs == [] then []
    else (if Hits(cfg, rs[0], q) then [rs[0]] else []) + Filter(cfg, rs[1..], q)
  }

  function MatchKey(cfg: Config, e: Elem): string { Norm(cfg, cfg.encode(e.query)) }

  /** A proper prefix of the query. */
  predicate IsSubQuery(key: string, q: string) { |key| < |q| && key == q[..|key|] }

  datatype Found = Nothing | Exact(at: nat) | Subset(at: nat)

  /** The newest element below n that answers q. */
  function Search(cfg: Config, cache: seq<Elem>, q: string, n: nat): (f: Found)
    requires n <= |cache|
    ensures !f.Nothing? ==> f.at < n
  {
    if n == 0 then Nothing
    else if MatchKey(cfg, cache[n - 1]) == q then Exact(n - 1)
    else if cfg.matchSubset && IsSubQuery(MatchKey(cfg, cache[n - 1]), q) then Subset(n - 1)
    else Search(cfg, cache, q, n - 1)
  }

  /** _addCacheElem */
  function Add(cfg: Config, cache: seq<Elem>, e: Elem): seq<Elem> {
    if e.query == "" then cache
    else (if |cache| >= cfg.maxEntries && cache != [] then cache[1..] else cache) + [e]
  }

  /** _doQueryCache: the results for the query, None when nothing is found, and the new cache. */
  function QueryCache(cfg: Config, cache: seq<Elem>, query: string): (Option<seq<Record>>, seq<Elem>) {
    var q := Norm(cfg, query);
    match Search(cfg, cache, q, |cache|)
    case Nothing => (None, cache)
    case Exact(i) =>
      var e := cache[i];
      (Some(e.results), if i == |cache| - 1 then cache else Add(cfg, cache[..i] + cache[i + 1..], e))
    case Subset(i) =>
      var rs := Filter(cfg, cache[i].results, q);
      (Some(rs), Add(cfg, cache, Elem(q, rs)))
  }

  /** DS_JSFunction.doQuery */
  function DoQuery(cfg: Config, s: Source, query: string): Source {
    match cfg.live(query)
    case None => s.(log := s.log + [LiveQuery(query), NullData(query)])
    case Some(rs) =>
      Source(if s.cache.None? then None else Some(Add(cfg, s.cache.value, Elem(cfg.decode(query), rs))),
             s.log + [LiveQuery(query), Answer(Some(query), rs)])
  }

  /** getResults. Without case normalization the query the callback is given is undefined (None). */
  function GetResults(cfg: Config, s: Source, query: string): Source {
    if s.cache.None? || s.cache.value == [] || cfg.maxEntries <= 0 then DoQuery(cfg, s, query)
    else
      var (found, cache) := QueryCache(cfg, s.cache.value, query);
      if found.None? then DoQuery(cfg, s.(cache := Some(cache)), query)
      else
        var s1 := Source(Some(cache), s.log + [Answer(if cfg.matchCase then None else Some(query), found.value)]);
        if found.value == [] then DoQuery(cfg, s1, query) else s1
  }

  class DataSource {
    const cfg: Config
    var aCache: Option<seq<Elem>>
    var log: seq<Call>

    ghost function State(): Source
      reads this
    {
      Source(aCache, log)
    }

    constructor (config: Config)
      ensures cfg == config && State() == Start(config)
    {
      cfg := config;
      aCache := if config.maxEntries > 0 then Some([]) else None;
      log := [];
    }

    method AddCacheElem(e: Elem)
      modifies `aCache
      ensures aCache == if old(aCache).None? then None else Some(Add(cfg, old(aCache).value, e))
    {
      if aCache.None? || e.query == "" {
        return;
      }
      var cache := aCache.value;
      if |cache| >= cfg.maxEntries && cache != [] {
        cache := cache[1..];
      }
      aCache := Some(cache + [e]);
    }

    /** The loops over j: does some proper prefix of q equal the key? */
    static method MatchesPrefix(key: string, q: string) returns (b: bool)
      ensures b <==> IsSubQuery(key, q)
    {
      var j := |q| - 1;
      while j >= 0
        invariant -1 <= j < |q|
        invariant forall k :: j < k < |q| ==> key != q[..k]
      {
        if key == q[..j] {
          return true;
        }
        j := j - 1;
      }
      b := false;
    }

    /** The loop over k, which unshifts matches from last to first. */
    method FilterRecords(all: seq<Record>, q: string) returns (results: seq<Record>)
      ensures results == Filter(cfg, all, q)
    {
      results := [];
      var k := |all| - 1;
      while k >= 0
        invariant -1 <= k < |all|
        invariant results == Filter(cfg, all[k + 1..], q)
      {
        assert all[k..][0] == all[k] && all[k..][1..] == all[k + 1..];
        if Hits(cfg, all[k], q) {
          results := [all[k]] + results;
        } else {
          assert [] + results == results;
        }
        k := k - 1;
      }
      assert all[0..] == all;
    }

    method DoQueryCache(query: string) returns (found: bool, results: seq<Record>)
      requires aCache.Some? && aCache.value != []
      modifies this
      ensures var (f, cache) := QueryCache(cfg, old(aCache).value, query);
        && aCache == Some(cache)
        && found == f.Some? && results == (if f.Some? then f.value else [])
        && log == old(log) + if f.Some? then [Answer(if cfg.matchCase then None else Some(query), f.value)] else []
    {
      hide Filter, MatchKey, IsSubQuery, Norm;
      results, found := [], false;
      var cache := aCache.value;
      var q := Norm(cfg, query);
      var i := |cache| - 1;
      while i >= 0
        invariant -1 <= i < |cache|
        invariant Search(cfg, cache, q, |cache|) == Search(cfg, cache, q, i + 1)
        invariant aCache == Some(cache) && log == old(log)
      {
        var e := cache[i];
        if MatchKey(cfg, e) == q {
          results := e.results;
          if i != |cache| - 1 {
            aCache := Some(cache[..i] + cache[i + 1..]);
            AddCacheElem(e);
          }
          found := true;
          break;
        } else if cfg.matchSubset {
          var sub := MatchesPrefix(MatchKey(cfg, e), q);
          if sub {
            results := FilterRecords(e.results, q);
            AddCacheElem(Elem(q, results));
            found := true;
            break;
          }
        }
        i := i - 1;
      }
      if found {
        log := log + [Answer(if cfg.matchCase then None else Some(query), results)];
      } else {
        assert log + [] == log;
      }
    }

    method Query(query: string)
      modifies this
      ensures State() == GetResults(cfg, old(State()), query)
    {
      hide QueryCache, Add;
      var results: seq<Record> := [];
      if cfg.maxEntries > 0 && aCache.Some? && aCache.value != [] {
        var found;
        found, results := DoQueryCache(query);
        assert QueryCache(cfg, old(aCache).value, query).0 == if found then Some(results) else None;
        assert old(log) + [] == old(log);
      }
      if |results| == 0 {
        Live(query);
      }
    }

    method Live(query: string)
      modifies this
      ensures State() == DoQuery(cfg, old(State()), query)
    {
      hide Add;
      log := log + [LiveQuery(query)];
      var rs := cfg.live(query);
      if rs.None? {
        log := log + [NullData(query)];
      } else {
        AddCacheElem(Elem(cfg.decode(query), rs.value));
        log := log + [Answer(Some(query), rs.value)];
      }
      assert log == old(log) + [LiveQuery(query), log[|log| - 1]];
    }
  }
}
