/** The result cache in front of sources that match keys: encoded as the cache does, or as they are. */
module ResultCacheMatching {
  import opened Text
  import opened ResultCaches
  import opened ResultCacheTheorems

  predicate StartsWith(s: string, t: string) { t <= s }
  ghost predicate Contains(s: string, t: string) { exists i :: OccursAt(s, t, i) }

  ghost predicate KeyMatches(cfg: Config, key: string, q: string) {
    if cfg.matchContains then Contains(key, q) else StartsWith(key, q)
  }

  /** A record whose encoded key starts with, or contains, the query. */
  ghost predicate Matches(cfg: Config, r: Record, query: string) {
    KeyMatches(cfg, Norm(cfg, cfg.encode(r.key)), Norm(cfg, query))
  }

  /** A record whose key, as it is, starts with or contains the query. */
  ghost predicate PlainMatch(cfg: Config, r: Record, query: string) {
    KeyMatches(cfg, Norm(cfg, r.key), Norm(cfg, query))
  }

  /** The records of the data that match, in their order. */
  ghost function Select(cfg: Config, data: seq<Record>, query: string): seq<Record> {
    if data == [] then []
    else (if Matches(cfg, data[0], query) then [data[0]] else []) + Select(cfg, data[1..], query)
  }

  ghost function PlainSelect(cfg: Config, data: seq<Record>, query: string): seq<Record> {
    if data == [] then []
    else (if PlainMatch(cfg, data[0], query) then [data[0]] else []) + PlainSelect(cfg, data[1..], query)
  }

  /** Live sources that return exactly the matching records. */
  ghost predicate Comprehensive(cfg: Config, data: seq<Record>) {
    forall q :: Unreserved(q) ==> cfg.live(q) == Some(Select(cfg, data, q))
  }

  ghost predicate PlainlyComprehensive(cfg: Config, data: seq<Record>) {
    forall q :: Unreserved(q) ==> cfg.live(q) == Some(PlainSelect(cfg, data, q))
  }

  // ---------- matching ----------

  lemma {:induction false} HitsIsMatches(cfg: Config, r: Record, query: string)
    ensures Hits(cfg, r, Norm(cfg, query)) <==> Matches(cfg, r, query)
  {
    hide Find, Norm;
    var key, q := Norm(cfg, cfg.encode(r.key)), Norm(cfg, query);
    var i := Find(key, q);
    if OccursAt(key, q, 0) { assert key[0..|q|] == key[..|q|]; }
    if StartsWith(key, q) { assert OccursAt(key, q, 0); }
  }

  lemma {:induction false} OccursPrefix(s: string, t: string, p: string, i: int)
    requires OccursAt(s, t, i) && p <= t
    ensures OccursAt(s, p, i)
  {
    assert s[i..i + |p|] == s[i..i + |t|][..|p|];
  }

  /** What matches a query matches its prefixes. */
  lemma {:induction false} PrefixMatches(cfg: Config, key: string, p: string, q: string)
    requires p <= q && KeyMatches(cfg, key, q)
    ensures KeyMatches(cfg, key, p)
  {
    if cfg.matchContains {
      var i :| OccursAt(key, q, i);
      OccursPrefix(key, q, p, i);
    }
  }

  // ---------- a source that looks at encoded keys ----------

  lemma {:induction false} SelectNorm(cfg: Config, data: seq<Record>, x: string, y: string)
    requires Norm(cfg, x) == Norm(cfg, y)
    ensures Select(cfg, data, x) == Select(cfg, data, y)
  {
    hide Norm, KeyMatches;
    if data != [] { SelectNorm(cfg, data[1..], x, y); }
  }

  /** Filtering the results of a prefix gives the results of the query. */
  lemma {:induction false} FilterIsSelect(cfg: Config, data: seq<Record>, p: string, q: string)
    requires Norm(cfg, p) <= Norm(cfg, q)
    ensures Filter(cfg, Select(cfg, data, p), Norm(cfg, q)) == Select(cfg, data, q)
  {
    hide Norm, Hits, KeyMatches;
    if data != [] {
      var r, rest := data[0], data[1..];
      FilterIsSelect(cfg, rest, p, q);
      HitsIsMatches(cfg, r, q);
      if Matches(cfg, r, q) { PrefixMatches(cfg, Norm(cfg, cfg.encode(r.key)), Norm(cfg, p), Norm(cfg, q)); }
      FilterHead(cfg, r, Select(cfg, rest, p), Norm(cfg, q), Matches(cfg, r, p));
    }
  }

  lemma {:induction false} FilterHead(cfg: Config, r: Record, rs: seq<Record>, q: string, kept: bool)
    ensures Filter(cfg, (if kept then [r] else []) + rs, q)
         == (if kept && Hits(cfg, r, q) then [r] else []) + Filter(cfg, rs, q)
  {
    hide Hits;
    if kept {
      assert ([r] + rs)[1..] == rs;
    } else {
      assert [] + rs == rs && [] + Filter(cfg, rs, q) == Filter(cfg, rs, q);
    }
  }

  /** With any options and any cache size, matching as the cache matches makes it transparent. */
  lemma {:induction false} EncodedKeysAreTransparent(cfg: Config, data: seq<Record>)
    requires LeavesAlone(cfg) && Comprehensive(cfg, data)
    ensures Cacheable(cfg) && Transparent(cfg)
  {
    hide Select, Filter, Norm, Unreserved, LeavesAlone, Transparent;
    forall x, y | Unreserved(x) && Unreserved(y) && Norm(cfg, x) == Norm(cfg, y)
      ensures LiveResults(cfg, x) == LiveResults(cfg, y)
    {
      SelectNorm(cfg, data, x, y);
    }
    forall p, q | Unreserved(p) && Unreserved(q) && p != "" && IsSubQuery(Norm(cfg, p), Norm(cfg, q))
      ensures Filter(cfg, LiveResults(cfg, p), Norm(cfg, q)) == LiveResults(cfg, q)
    {
      FilterIsSelect(cfg, data, p, q);
    }
    CacheIsTransparent(cfg);
  }

  // ---------- encodeURIComponent ----------

  /** Character by character: unreserved ones stay, any other becomes escapes that begin with '%'. */
  ghost predicate Encodes(cfg: Config) {
    && (forall s, t :: cfg.encode(s + t) == cfg.encode(s) + cfg.encode(t))
    && (forall c :: if IsUnreserved(c) then cfg.encode([c]) == [c] else "%" <= cfg.encode([c]))
  }

  lemma {:induction false} EncodeConcat(cfg: Config, s: string, t: string)
    requires Encodes(cfg)
    ensures cfg.encode(s + t) == cfg.encode(s) + cfg.encode(t) && cfg.encode("") == ""
  {
    assert cfg.encode("" + "") == cfg.encode("") + cfg.encode("") && "" + "" == "";
  }

  lemma {:induction false} EncodeUnreserved(cfg: Config, s: string)
    requires Encodes(cfg) && Unreserved(s)
    ensures cfg.encode(s) == s
  {
    hide Encodes;
    if s == "" {
      EncodeConcat(cfg, "", "");
    } else {
      EncodeUnreserved(cfg, s[1..]);
      assert s == [s[0]] + s[1..];
      EncodeConcat(cfg, [s[0]], s[1..]);
      EncodeChar(cfg, s[0]);
    }
  }

  lemma {:induction false} EncodeChar(cfg: Config, c: char)
    requires Encodes(cfg)
    ensures if IsUnreserved(c) then cfg.encode([c]) == [c] else "%" <= cfg.encode([c])
  {}

  lemma {:induction false} NormConcat(cfg: Config, s: string, t: string)
    ensures Norm(cfg, s + t) == Norm(cfg, s) + Norm(cfg, t) && |Norm(cfg, s)| == |s|
  {
    assert Lower(s + t) == Lower(s) + Lower(t);
  }

  lemma {:induction false} NormSlice(cfg: Config, s: string, i: int, j: int)
    requires 0 <= i <= j <= |s|
    ensures |Norm(cfg, s)| == |s| && Norm(cfg, s[i..j]) == Norm(cfg, s)[i..j]
  {
    assert Lower(s[i..j]) == Lower(s)[i..j];
  }

  lemma {:induction false} PrefixCons(a: string, x: string, b: string, y: string)
    requires |a| == |b| == 1
    ensures b + y <= a + x <==> a == b && y <= x
  {
    if b + y <= a + x {
      assert (a + x)[0] == (b + y)[0] && (a + x)[1..] == x && (b + y)[1..] == y;
    }
  }

  /** No escape looks like the beginning of an unreserved query. */
  lemma {:induction false} PrefixOfEncoded(cfg: Config, key: string, q: string)
    requires Encodes(cfg) && Unreserved(q)
    ensures Norm(cfg, q) <= Norm(cfg, cfg.encode(key)) <==> Norm(cfg, q) <= Norm(cfg, key)
    decreases |key|
  {
    hide Norm, Encodes;
    NormTwice(cfg, q);
    NormTwice(cfg, key);
    NormTwice(cfg, cfg.encode(key));
    EncodeConcat(cfg, "", "");
    if q != "" && key != "" {
      var head, rest, more := [key[0]], key[1..], q[1..];
      assert key == head + rest && q == [q[0]] + more;
      NormConcat(cfg, [q[0]], more);
      NormConcat(cfg, head, rest);
      PrefixCons(Norm(cfg, head), Norm(cfg, rest), Norm(cfg, [q[0]]), Norm(cfg, more));
      EncodeConcat(cfg, head, rest);
      EncodeChar(cfg, key[0]);
      if IsUnreserved(key[0]) {
        PrefixOfEncoded(cfg, rest, more);
        NormConcat(cfg, head, cfg.encode(rest));
        PrefixCons(Norm(cfg, head), Norm(cfg, cfg.encode(rest)), Norm(cfg, [q[0]]), Norm(cfg, more));
      } else {
        var code := cfg.encode(key);
        assert code == ['%'] + code[1..];
        NormConcat(cfg, ['%'], code[1..]);
        PrefixCons(Norm(cfg, ['%']), Norm(cfg, code[1..]), Norm(cfg, [q[0]]), Norm(cfg, more));
        OnlyItself(cfg, key[0], q[0]);
      }
    }
  }

  /** A reserved character is no unreserved one, whatever the case; neither is '%'. */
  lemma {:induction false} OnlyItself(cfg: Config, c: char, q: char)
    requires !IsUnreserved(c) && IsUnreserved(q)
    ensures Norm(cfg, [c]) != Norm(cfg, [q]) && Norm(cfg, ['%']) != Norm(cfg, [q])
  {
    assert Lower([c])[0] == LowerChar(c) && Lower([q])[0] == LowerChar(q) && Lower(['%'])[0] == '%';
  }

  /** An unreserved query found in a key is found in the encoded key. */
  lemma {:induction false} ContainedWhenEncoded(cfg: Config, key: string, q: string)
    requires Encodes(cfg) && Unreserved(q) && Contains(Norm(cfg, key), Norm(cfg, q))
    ensures Contains(Norm(cfg, cfg.encode(key)), Norm(cfg, q))
  {
    hide Norm, Encodes, Unreserved;
    var i :| OccursAt(Norm(cfg, key), Norm(cfg, q), i);
    NormTwice(cfg, key);
    NormTwice(cfg, q);
    var j := i + |q|;
    var head, mid, tail := key[..i], key[i..j], key[j..];
    NormSlice(cfg, key, i, j);
    NormTwice(cfg, mid);
    EncodeUnreserved(cfg, mid);
    assert key == head + (mid + tail);
    EncodeConcat(cfg, head, mid + tail);
    EncodeConcat(cfg, mid, tail);
    NormConcat(cfg, cfg.encode(head), mid + cfg.encode(tail));
    NormConcat(cfg, mid, cfg.encode(tail));
    var before, after := Norm(cfg, cfg.encode(head)), Norm(cfg, cfg.encode(tail));
    Inside(before, Norm(cfg, mid), after);
  }

  lemma {:induction false} Inside(x: string, y: string, z: string)
    ensures OccursAt(x + (y + z), y, |x|)
  {}

  // ---------- a source that looks at keys as they are ----------

  /**
   * No key in which the first letter of a query occurs contains the query only once it is encoded:
   * no query reads on from a letter of a key into an escape or sits in one.
   */
  ghost predicate EscapesHarmless(cfg: Config, data: seq<Record>) {
    forall r, q :: r in data && Unreserved(q) && |q| >= 2 && PlainMatch(cfg, r, q[..1]) && Matches(cfg, r, q) ==>
      PlainMatch(cfg, r, q)
  }

  lemma {:induction false} PlainSelectNorm(cfg: Config, data: seq<Record>, x: string, y: string)
    requires Norm(cfg, x) == Norm(cfg, y)
    ensures PlainSelect(cfg, data, x) == PlainSelect(cfg, data, y)
  {
    hide Norm, KeyMatches;
    if data != [] { PlainSelectNorm(cfg, data[1..], x, y); }
  }

  /** What is plainly there is there when encoded; at the start of a key also the other way round. */
  lemma {:induction false} PlainIsEncoded(cfg: Config, r: Record, q: string)
    requires Encodes(cfg) && Unreserved(q)
    ensures PlainMatch(cfg, r, q) ==> Matches(cfg, r, q)
    ensures !cfg.matchContains && Matches(cfg, r, q) ==> PlainMatch(cfg, r, q)
  {
    hide Norm, Encodes, Unreserved, Contains;
    if !cfg.matchContains {
      PrefixOfEncoded(cfg, r.key, q);
    } else if PlainMatch(cfg, r, q) {
      ContainedWhenEncoded(cfg, r.key, q);
    }
  }

  lemma {:induction false} PlainPrefix(cfg: Config, r: Record, p: string, q: string)
    requires Norm(cfg, p) <= Norm(cfg, q) && PlainMatch(cfg, r, q)
    ensures PlainMatch(cfg, r, p)
  {
    hide Norm, KeyMatches;
    PrefixMatches(cfg, Norm(cfg, r.key), Norm(cfg, p), Norm(cfg, q));
  }

  /** One record, after a proper prefix: what the filter keeps is what matches. */
  lemma {:induction false} NarrowsOne(cfg: Config, data: seq<Record>, r: Record, p: string, q: string)
    requires Encodes(cfg) && Unreserved(p) && Unreserved(q) && p != "" && IsSubQuery(Norm(cfg, p), Norm(cfg, q))
    requires r in data && (!cfg.matchContains || EscapesHarmless(cfg, data))
    ensures PlainMatch(cfg, r, p) && Matches(cfg, r, q) <==> PlainMatch(cfg, r, q)
  {
    hide Norm, Encodes, Unreserved, PlainMatch, Matches, EscapesHarmless;
    PlainIsEncoded(cfg, r, q);
    NormTwice(cfg, p);
    NormTwice(cfg, q);
    if PlainMatch(cfg, r, q) { PlainPrefix(cfg, r, p, q); }
    if PlainMatch(cfg, r, p) && Matches(cfg, r, q) && cfg.matchContains {
      NormSlice(cfg, q, 0, 1);
      assert q[0..1] == q[..1] && Norm(cfg, q)[0..1] <= Norm(cfg, p);
      PlainPrefix(cfg, r, q[..1], p);
      Harmless(cfg, data, r, q);
    }
  }

  lemma {:induction false} Harmless(cfg: Config, data: seq<Record>, r: Record, q: string)
    requires EscapesHarmless(cfg, data) && r in data && Unreserved(q) && |q| >= 2
    requires PlainMatch(cfg, r, q[..1]) && Matches(cfg, r, q)
    ensures PlainMatch(cfg, r, q)
  {
    hide PlainMatch, Matches, Unreserved;
  }

  lemma {:induction false} FilterIsPlain(cfg: Config, all: seq<Record>, data: seq<Record>, p: string, q: string)
    requires Encodes(cfg) && Unreserved(p) && Unreserved(q) && p != "" && IsSubQuery(Norm(cfg, p), Norm(cfg, q))
    requires (forall r :: r in data ==> r in all) && (!cfg.matchContains || EscapesHarmless(cfg, all))
    ensures Filter(cfg, PlainSelect(cfg, data, p), Norm(cfg, q)) == PlainSelect(cfg, data, q)
    decreases |data|
  {
    hide Norm, Encodes, Unreserved, PlainMatch, Matches, EscapesHarmless, Hits, IsSubQuery;
    if data != [] {
      var r, rest := data[0], data[1..];
      FilterIsPlain(cfg, all, rest, p, q);
      HitsIsMatches(cfg, r, q);
      NarrowsOne(cfg, all, r, p, q);
      FilterHead(cfg, r, PlainSelect(cfg, rest, p), Norm(cfg, q), PlainMatch(cfg, r, p));
    }
  }

  lemma {:induction false} InFiltered(cfg: Config, rs: seq<Record>, q: string, r: Record)
    requires r in rs && Hits(cfg, r, q)
    ensures r in Filter(cfg, rs, q)
  {
    hide Hits;
    if rs[0] != r { InFiltered(cfg, rs[1..], q, r); }
  }

  lemma {:induction false} InPlainSelect(cfg: Config, data: seq<Record>, q: string, r: Record)
    ensures r in PlainSelect(cfg, data, q) <==> r in data && PlainMatch(cfg, r, q)
  {
    hide PlainMatch;
    if data != [] { InPlainSelect(cfg, data[1..], q, r); }
  }

  /** A harmful escape is seen after the first letter of the query. */
  lemma {:induction false} HarmIsSeen(cfg: Config, data: seq<Record>, r: Record, q: string)
    requires PlainlyComprehensive(cfg, data) && Narrows(cfg)
    requires r in data && Unreserved(q) && |q| >= 2 && PlainMatch(cfg, r, q[..1]) && Matches(cfg, r, q)
    ensures PlainMatch(cfg, r, q)
  {
    hide Norm, PlainMatch, Matches, Hits, PlainSelect, Filter;
    var p := q[..1];
    FirstLetter(cfg, q);
    InPlainSelect(cfg, data, p, r);
    InPlainSelect(cfg, data, q, r);
    HitsIsMatches(cfg, r, q);
    InFiltered(cfg, PlainSelect(cfg, data, p), Norm(cfg, q), r);
  }

  lemma {:induction false} FirstLetter(cfg: Config, q: string)
    requires |q| >= 2 && Unreserved(q)
    ensures Unreserved(q[..1]) && IsSubQuery(Norm(cfg, q[..1]), Norm(cfg, q))
  {
    NormSlice(cfg, q, 0, 1);
    assert q[0..1] == q[..1];
  }

  /**
   * A source that matches keys as they are: the cache is transparent over all runs if and only if it
   * is off, does not match subsets, matches the beginnings of keys, or no escape does harm.
   */
  lemma {:induction false} PlainTextIsTransparentIff(cfg: Config, data: seq<Record>)
    requires LeavesAlone(cfg) && Encodes(cfg) && PlainlyComprehensive(cfg, data)
    ensures Transparent(cfg) <==>
      !cfg.matchContains || !cfg.matchSubset || cfg.maxEntries <= 0 || EscapesHarmless(cfg, data)
  {
    hide Encodes, LeavesAlone, Norm, PlainMatch, Matches, Unreserved, Filter, PlainSelect, Transparent, IsSubQuery;
    forall x, y | Unreserved(x) && Unreserved(y) && Norm(cfg, x) == Norm(cfg, y)
      ensures LiveResults(cfg, x) == LiveResults(cfg, y)
    {
      PlainSelectNorm(cfg, data, x, y);
    }
    TransparentIffCacheable(cfg);
    if !cfg.matchContains || EscapesHarmless(cfg, data) {
      forall p, q | Unreserved(p) && Unreserved(q) && p != "" && IsSubQuery(Norm(cfg, p), Norm(cfg, q))
        ensures Filter(cfg, LiveResults(cfg, p), Norm(cfg, q)) == LiveResults(cfg, q)
      {
        FilterIsPlain(cfg, data, data, p, q);
      }
    }
    if Narrows(cfg) {
      forall r, q | r in data && Unreserved(q) && |q| >= 2 && PlainMatch(cfg, r, q[..1]) && Matches(cfg, r, q)
        ensures PlainMatch(cfg, r, q)
      {
        HarmIsSeen(cfg, data, r, q);
      }
    }
  }

  /** Keys of unreserved characters have no escapes to do harm. */
  lemma {:induction false} UnreservedKeysAreHarmless(cfg: Config, data: seq<Record>)
    requires Encodes(cfg) && forall r :: r in data ==> Unreserved(r.key)
    ensures EscapesHarmless(cfg, data)
  {
    hide Encodes, Norm, KeyMatches, Unreserved;
    forall r, q | r in data && Unreserved(q) && |q| >= 2 && PlainMatch(cfg, r, q[..1]) && Matches(cfg, r, q)
      ensures PlainMatch(cfg, r, q)
    {
      EncodeUnreserved(cfg, r.key);
    }
  }

  /**
   * A harmful key: matching anywhere in "2 x" after "2" was asked, the cache answers "20" with that
   * record, for the escape of its space, and never asks the live source, which has none.
   */
  lemma {:induction false} EscapesAreMatched(cfg: Config, r: Record)
    requires LeavesAlone(cfg) && cfg.encode(r.key) == "2%20x" && r.key == "2 x"
    requires cfg.matchContains && cfg.matchSubset && cfg.maxEntries > 0
    requires PlainlyComprehensive(cfg, [r])
    ensures !EscapesHarmless(cfg, [r])
    ensures cfg.live("2") == Some([r]) && cfg.live("20") == Some([])
    ensures var s := GetResults(cfg, Start(cfg), "2"); var s1 := GetResults(cfg, s, "20");
      s1.log == s.log + [Answer(Asked(cfg, "20"), [r])]
  {
    hide Find, Norm, PlainMatch, PlainSelect, Search, Filter, Unreserved;
    DigitsAreThemselves(cfg);
    PlainTwo(cfg, r);
    PlainOne(cfg, r, "2");
    PlainOne(cfg, r, "20");
    TwoIsUnreserved();
    var e := Elem("2", [r]);
    assert [] + [e] == [e];
    assert GetResults(cfg, Start(cfg), "2").cache == Some([e]);
    SearchOne(cfg, e, "20");
    EscapeHasDigits(cfg, r);
    FilterOne(cfg, r, "20");
    assert QueryCache(cfg, [e], "20").0 == Some([r]);
    HitsIsMatches(cfg, r, "20");
    assert r in [r] && "20"[..1] == "2";
  }

  lemma {:induction false} TwoIsUnreserved()
    ensures Unreserved("2") && Unreserved("20")
  {}

  lemma {:induction false} PlainTwo(cfg: Config, r: Record)
    requires r.key == "2 x" && cfg.matchContains
    ensures PlainMatch(cfg, r, "2") && !PlainMatch(cfg, r, "20")
  {
    DigitsAreThemselves(cfg);
    hide Norm;
    assert OccursAt("2 x", "2", 0);
    forall i ensures !OccursAt("2 x", "20", i) {
      assert i == 0 ==> "2 x"[0..2][1] != "20"[1];
      assert i == 1 ==> "2 x"[1..3][1] != "20"[1];
    }
  }

  lemma {:induction false} DigitsAreThemselves(cfg: Config)
    ensures Norm(cfg, "2") == "2" && Norm(cfg, "20") == "20" && Norm(cfg, "2 x") == "2 x" && "20"[..1] == "2"
  {
    assert Lower("2") == "2" && Lower("20") == "20" && Lower("2 x") == "2 x";
  }

  lemma {:induction false} EscapeHasDigits(cfg: Config, r: Record)
    requires cfg.encode(r.key) == "2%20x" && cfg.matchContains
    ensures Hits(cfg, r, "20")
  {
    hide Find;
    assert Lower("2%20x") == "2%20x";
    assert "2%20x"[2..4] == "20";
    assert OccursAt("2%20x", "20", 2);
  }

  lemma {:induction false} PlainOne(cfg: Config, r: Record, q: string)
    ensures PlainSelect(cfg, [r], q) == if PlainMatch(cfg, r, q) then [r] else []
  {
    hide PlainMatch;
    assert [r][1..] == [];
    assert PlainSelect(cfg, [], q) == [];
  }

  lemma {:induction false} FilterOne(cfg: Config, r: Record, q: string)
    ensures Filter(cfg, [r], q) == if Hits(cfg, r, q) then [r] else []
  {
    hide Hits;
    assert [r][1..] == [];
    assert Filter(cfg, [], q) == [];
  }
}
