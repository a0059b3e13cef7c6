/** The caption store over whole runs: an exact LRU, when it faults, and what the repair gives. */
module CaptionStoreTheorems {
  import opened CaptionStores

  /** Any sequence of requests; a fault or a failure is reported to its caller and the run goes on. */
  function Run(s: Store, rs: seq<Request>): (Store, seq<Outcome>) {
    if rs == [] then (s, [])
    else
      var (s1, os) := Run(s, rs[..|rs| - 1]);
      var (s2, o) := Get(s1, rs[|rs| - 1]);
      (s2, os + [o])
  }

  predicate Distinct(s: seq<Path>) { forall i, j :: 0 <= i < j < |s| ==> s[i] != s[j] }

  predicate IsSuffix(x: seq<Path>, y: seq<Path>) { |x| <= |y| && x == y[|y| - |x|..] }

  // ---------- lists of distinct paths ----------

  lemma {:induction false} DistinctAppend(s: seq<Path>, p: Path)
    requires Distinct(s) && p !in s
    ensures Distinct(s + [p]) && (forall q :: q in s + [p] <==> q in s || q == p)
  {}

  lemma {:induction false} DistinctParts(x: seq<Path>, y: seq<Path>)
    requires Distinct(x + y)
    ensures Distinct(x) && Distinct(y) && (forall p :: p in x ==> p !in y)
    ensures forall p :: p in x + y <==> p in x || p in y
  {
    assert forall i :: 0 <= i < |x| ==> (x + y)[i] == x[i];
    assert forall i :: 0 <= i < |y| ==> (x + y)[|x| + i] == y[i];
  }

  lemma {:induction false} RemoveFacts(s: seq<Path>, p: Path)
    requires Distinct(s)
    ensures Distinct(RemoveLast(s, p))
    ensures forall q :: q in RemoveLast(s, p) <==> q in s && q != p
    ensures |RemoveLast(s, p)| == if p in s then |s| - 1 else |s|
    ensures p !in s ==> RemoveLast(s, p) == s
  {
    if s != [] {
      var init, last := s[..|s| - 1], s[|s| - 1];
      assert s == init + [last];
      DistinctParts(init, [last]);
      if last != p {
        RemoveFacts(init, p);
        DistinctAppend(RemoveLast(init, p), last);
        assert RemoveLast(s, p) == RemoveLast(init, p) + [last];
      }
    }
  }

  lemma {:induction false} RemoveFromConcat(x: seq<Path>, y: seq<Path>, p: Path)
    requires p !in x || p !in y
    ensures RemoveLast(x + y, p) == if p in y then x + RemoveLast(y, p) else RemoveLast(x, p) + y
  {
    if y == [] {
      assert x + y == x && RemoveLast(x, p) + y == RemoveLast(x, p);
    } else {
      assert (x + y)[..|x + y| - 1] == x + y[..|y| - 1];
      if y[|y| - 1] != p {
        var init, last := y[..|y| - 1], [y[|y| - 1]];
        RemoveFromConcat(x, init, p);
        assert y == init + last && RemoveLast(y, p) == RemoveLast(init, p) + last;
        assert RemoveLast(x + y, p) == RemoveLast(x + init, p) + last;
        hide RemoveLast;
        if p in y {
          assert x + RemoveLast(init, p) + last == x + (RemoveLast(init, p) + last);
        } else {
          assert RemoveLast(x, p) + init + last == RemoveLast(x, p) + (init + last);
        }
      }
    }
  }

  /** Whether or not p is the last element, touching removes it and appends it. */
  lemma {:induction false} MoveIsRemove(s: seq<Path>, p: Path)
    ensures MoveToEnd(s, p) == RemoveLast(s, p) + [p]
  {}

  lemma {:induction false} MoveFacts(s: seq<Path>, p: Path)
    requires Distinct(s)
    ensures Distinct(MoveToEnd(s, p)) && MoveToEnd(s, p) != []
    ensures forall q :: q in MoveToEnd(s, p) <==> q in s || q == p
    ensures |MoveToEnd(s, p)| == if p in s then |s| else |s| + 1
    ensures p !in s ==> MoveToEnd(s, p) == s + [p]
  {
    MoveIsRemove(s, p);
    RemoveFacts(s, p);
    DistinctAppend(RemoveLast(s, p), p);
  }

  // ---------- what every request keeps ----------

  /** The keys of the cache are the index list, without duplicates. */
  ghost predicate Consistent(s: Store) {
    && Distinct(s.indexes) && |s.cache| == |s.indexes|
    && (forall p :: p in s.cache <==> p in s.indexes)
  }

  /** As written: the document list stays empty, every cached file is open, and each is counted. */
  ghost predicate AsWritten(s: Store) {
    && !s.repaired && s.docs == []
    && (forall p :: p in s.cache ==> s.cache[p])
    && s.openDocuments == |s.cache|
  }

  /** Repaired: the document list holds exactly the open cached files, in the order of the index list. */
  ghost predicate Repaired(s: Store) {
    && s.repaired && IsSuffix(s.docs, s.indexes)
    && (forall p :: p in s.cache ==> (s.cache[p] <==> p in s.docs))
    && s.openDocuments == |s.docs|
  }

  ghost predicate Inv(s: Store) {
    Consistent(s) && (if s.repaired then Repaired(s) else AsWritten(s))
  }

  lemma {:induction false} SuffixOfDistinct(x: seq<Path>, y: seq<Path>)
    requires IsSuffix(x, y) && Distinct(y)
    ensures Distinct(x) && forall p :: p in x ==> p in y
  {
    assert y == y[..|y| - |x|] + x;
    DistinctParts(y[..|y| - |x|], x);
  }

  lemma {:induction false} CloseFacts(cache: map<Path, bool>, p: Path)
    ensures Close(cache, p).Keys == cache.Keys && |Close(cache, p)| == |cache|
    ensures forall q :: q in cache ==> (Close(cache, p)[q] <==> cache[q] && q != p)
  {
    assert Close(cache, p).Keys == cache.Keys;
  }

  lemma {:induction false} MakeRoomKeeps(s: Store)
    requires Inv(s) && MakeRoom(s).Room?
    ensures var s1 := MakeRoom(s).store;
      && Inv(s1) && s1.indexes == s.indexes && s1.cache.Keys == s.cache.Keys
      && s1.(cache := s.cache, docs := s.docs, openDocuments := s.openDocuments) == s
      && s1.docs == (if s.openDocuments == s.maxOpen then s.docs[1..] else s.docs)
      && s1.openDocuments != s.maxOpen
  {
    hide Distinct, Close;
    if s.openDocuments == s.maxOpen {
      CloseFacts(s.cache, s.docs[0]);
      SuffixOfDistinct(s.docs, s.indexes);
      TailFacts(s.docs);
      var s1 := MakeRoom(s).store;
      assert s1.docs == s.indexes[|s.indexes| - |s1.docs|..];
    }
  }

  /** Moving p to the end of both lists keeps one a suffix of the other once p is open. */
  lemma {:induction false} MoveKeepsSuffix(docs: seq<Path>, indexes: seq<Path>, p: Path)
    requires Distinct(indexes) && IsSuffix(docs, indexes) && p in indexes
    ensures IsSuffix(MoveToEnd(docs, p), MoveToEnd(indexes, p))
  {
    hide RemoveLast, MoveToEnd;
    var older := indexes[..|indexes| - |docs|];
    assert indexes == older + docs;
    SuffixOfDistinct(docs, indexes);
    assert p !in older || p !in docs;
    RemoveFromConcat(older, docs, p);
    MoveIsRemove(docs, p);
    MoveIsRemove(indexes, p);
    if p in docs {
      assert older + RemoveLast(docs, p) + [p] == older + (RemoveLast(docs, p) + [p]);
    } else {
      RemoveFacts(docs, p);
      assert RemoveLast(older, p) + docs + [p] == RemoveLast(older, p) + (docs + [p]);
    }
  }

  /** Reordering the index list keeps the cache consistent with it. */
  lemma {:induction false} MarkConsistent(s: Store, p: Path)
    requires Consistent(s) && p in s.indexes
    ensures MarkUsed(s, p).indexes == MoveToEnd(s.indexes, p) && Consistent(MarkUsed(s, p))
    ensures MarkUsed(s, p).cache == s.cache && MarkUsed(s, p).openDocuments == s.openDocuments
    ensures MarkUsed(s, p).repaired == s.repaired
    ensures MarkUsed(s, p).docs == if s.docs == [] && !s.repaired then [] else MoveToEnd(s.docs, p)
  {
    hide RemoveLast, MoveToEnd, Distinct;
    MoveFacts(s.indexes, p);
  }

  lemma {:induction false} MarkAsWritten(s: Store, p: Path)
    requires Consistent(s) && AsWritten(s) && p in s.indexes
    ensures Inv(MarkUsed(s, p)) && MarkUsed(s, p).indexes == MoveToEnd(s.indexes, p)
  {
    hide Consistent, MarkUsed, MoveToEnd;
    MarkConsistent(s, p);
  }

  /** A file open and cached but perhaps not yet in the document list. */
  lemma {:induction false} MarkRepaired(s: Store, p: Path)
    requires Consistent(s) && s.repaired && p in s.indexes && (p in s.cache ==> s.cache[p])
    requires IsSuffix(s.docs, s.indexes)
    requires forall q :: q in s.cache ==> (s.cache[q] <==> q in s.docs || q == p)
    requires s.openDocuments == if p in s.docs then |s.docs| else |s.docs| + 1
    ensures Inv(MarkUsed(s, p))
    ensures MarkUsed(s, p).indexes == MoveToEnd(s.indexes, p)
    ensures MarkUsed(s, p).docs == MoveToEnd(s.docs, p)
  {
    hide Consistent, MarkUsed, MoveToEnd, IsSuffix, Distinct;
    MarkConsistent(s, p);
    ConsistentDistinct(s);
    SuffixOfDistinct(s.docs, s.indexes);
    MoveFacts(s.docs, p);
    MoveKeepsSuffix(s.docs, s.indexes, p);
  }

  /** In the repaired code, opening a closed cached file appends it before it is marked used. */
  lemma {:induction false} ReopenKeeps(s: Store, p: Path)
    requires Inv(s) && s.repaired && p in s.cache && !s.cache[p]
    ensures var s1 := s.(cache := s.cache[p := true], openDocuments := s.openDocuments + 1, docs := s.docs + [p]);
      && Inv(MarkUsed(s1, p)) && MarkUsed(s1, p).indexes == MoveToEnd(s.indexes, p)
      && MarkUsed(s1, p).docs == s.docs + [p]
  {
    hide RemoveLast, MoveToEnd;
    var s2 := s.(cache := s.cache[p := true], openDocuments := s.openDocuments + 1);
    SuffixOfDistinct(s.docs, s.indexes);
    MoveFacts(s.docs, p);
    MarkRepaired(s2, p);
    MoveEnded(s.docs, p);
  }

  lemma {:induction false} MoveEnded(s: seq<Path>, p: Path)
    ensures MoveToEnd(s + [p], p) == s + [p]
  {}

  lemma {:induction false} EvictShape(s: Store)
    requires s.indexes != []
    ensures var s1 := EvictIndex(s);
      && s1.cache == s.cache - {s.indexes[0]} && s1.indexes == s.indexes[1..] && s1.repaired == s.repaired
      && s1.maxOpen == s.maxOpen && s1.maxCached == s.maxCached
  {}

  lemma {:induction false} TailFacts(indexes: seq<Path>)
    requires Distinct(indexes) && indexes != []
    ensures Distinct(indexes[1..]) && forall p :: p in indexes[1..] <==> p in indexes && p != indexes[0]
  {
    assert indexes == [indexes[0]] + indexes[1..];
    DistinctParts([indexes[0]], indexes[1..]);
  }

  lemma {:induction false} SmallerCache(cache: map<Path, bool>, p: Path)
    requires p in cache
    ensures |cache - {p}| == |cache| - 1
  {
    assert (cache - {p}).Keys == cache.Keys - {p};
  }

  lemma {:induction false} EvictConsistent(s: Store)
    requires Consistent(s) && s.indexes != []
    ensures Consistent(EvictIndex(s))
  {
    hide EvictIndex;
    EvictShape(s);
    TailFacts(s.indexes);
    SmallerCache(s.cache, s.indexes[0]);
  }

  /** Removing the oldest index keeps the document list in step. */
  lemma {:induction false} EvictRepaired(s: Store)
    requires Consistent(s) && s.indexes != [] && s.repaired && IsSuffix(s.docs, s.indexes)
    requires forall p :: p in s.cache ==> (s.cache[p] <==> p in s.docs)
    ensures var s1 := EvictIndex(s);
      && s.openDocuments - s1.openDocuments == |s.docs| - |s1.docs|
      && IsSuffix(s1.docs, s1.indexes) && (forall p :: p in s1.cache ==> (s1.cache[p] <==> p in s1.docs))
  {
    hide RemoveLast;
    EvictShape(s);
    TailFacts(s.indexes);
    SuffixOfDistinct(s.docs, s.indexes);
    var lru, rest := s.indexes[0], s.indexes[1..];
    if s.cache[lru] {
      FirstInSuffix(s.docs, s.indexes);
      RemoveFirst(s.docs);
    } else {
      LaterSuffix(s.docs, s.indexes);
    }
  }

  lemma {:induction false} LaterSuffix(x: seq<Path>, y: seq<Path>)
    requires IsSuffix(x, y) && y != [] && y[0] !in x
    ensures IsSuffix(x, y[1..])
  {
    assert |x| == |y| ==> x == y;
  }

  lemma {:induction false} FirstInSuffix(x: seq<Path>, y: seq<Path>)
    requires IsSuffix(x, y) && Distinct(y) && y != [] && y[0] in x
    ensures x == y
  {
    var i :| 0 <= i < |x| && x[i] == y[0];
    assert x[i] == y[|y| - |x| + i];
  }

  lemma {:induction false} RemoveFirst(s: seq<Path>)
    requires Distinct(s) && s != []
    ensures RemoveLast(s, s[0]) == s[1..]
  {
    if |s| > 1 {
      RemoveFirst(s[..|s| - 1]);
      assert s[..|s| - 1][1..] + [s[|s| - 1]] == s[1..];
    } else {
      assert s[..|s| - 1] == s[1..] == [];
    }
  }

  /** The index list after a request: least recently used evicted, path most recent. */
  function IndexesAfter(indexes: seq<Path>, maxCached: int, p: Path, o: Outcome): seq<Path> {
    if o != Granted then indexes
    else if p in indexes then MoveToEnd(indexes, p)
    else (if |indexes| == maxCached && indexes != [] then indexes[1..] else indexes) + [p]
  }

  /** A request is granted with its file open, or faults, or fails; the invariant holds throughout. */
  lemma {:induction false} GetKeeps(s: Store, r: Request)
    requires Inv(s) && s.maxCached != 0
    ensures var (s1, o) := Get(s, r);
      && Inv(s1)
      && s1.repaired == s.repaired && s1.maxOpen == s.maxOpen && s1.maxCached == s.maxCached
      && (o == Granted ==> r.path in s1.cache && s1.cache[r.path] && (s1.repaired ==> r.path in s1.docs))
      && s1.indexes == IndexesAfter(s.indexes, s.maxCached, r.path, o)
  {
    hide RemoveLast, MoveToEnd, MakeRoom, EvictIndex, MarkUsed, Inv;
    assert Consistent(s) by { InvConsistent(s); }
    if r.path in s.cache {
      HitKeeps(s, r);
    } else if MakeRoom(s).Room? {
      MakeRoomKeeps(s);
      var s1 := MakeRoom(s).store;
      InvConsistent(s1);
      if r.opens { MissKeeps(s1, r); }
    }
  }

  lemma {:induction false} InvConsistent(s: Store)
    requires Inv(s)
    ensures Consistent(s)
  {}

  lemma {:induction false} HitKeeps(s: Store, r: Request)
    requires Inv(s) && r.path in s.cache
    ensures var (s1, o) := Use(s, r);
      && Inv(s1)
      && s1.repaired == s.repaired && s1.maxOpen == s.maxOpen && s1.maxCached == s.maxCached
      && (o == Granted ==> r.path in s1.cache && s1.cache[r.path] && (s1.repaired ==> r.path in s1.docs))
      && s1.indexes == if o == Granted then MoveToEnd(s.indexes, r.path) else s.indexes
  {
    hide RemoveLast, MoveToEnd, MakeRoom;
    var p := r.path;
    if s.cache[p] {
      if s.repaired { MarkRepaired(s, p); } else { MarkAsWritten(s, p); }
      if s.repaired { SuffixOfDistinct(s.docs, s.indexes); MoveFacts(s.docs, p); }
    } else if MakeRoom(s).Room? {
      MakeRoomKeeps(s);
      var s1 := MakeRoom(s).store;
      StillClosed(s, p);
      ReopenKeeps(s1, p);
    }
  }

  lemma {:induction false} StillClosed(s: Store, p: Path)
    requires Inv(s) && p in s.cache && !s.cache[p] && MakeRoom(s).Room?
    ensures p in MakeRoom(s).store.cache && !MakeRoom(s).store.cache[p]
  {}

  /** A new file, after room was made for its document. */
  lemma {:induction false} MissKeeps(s: Store, r: Request)
    requires Inv(s) && r.path !in s.cache && s.maxCached != 0
    ensures var (s2, o2) := AddToCache(s, r.path);
      && o2 == Granted && r.path in s2.cache
      && var (s1, o) := Use(s2, r);
      && o == Granted && Inv(s1)
      && s1.repaired == s.repaired && s1.maxOpen == s.maxOpen && s1.maxCached == s.maxCached
      && r.path in s1.cache && s1.cache[r.path] && (s1.repaired ==> r.path in s1.docs)
      && s1.indexes == IndexesAfter(s.indexes, s.maxCached, r.path, Granted)
  {
    hide RemoveLast, MoveToEnd, MakeRoom, EvictIndex;
    var p := r.path;
    var s1 := s.(openDocuments := s.openDocuments + 1);
    var s2 := if |s.cache| == s.maxCached then EvictIndex(s1) else s1;
    if s.repaired {
      if |s.cache| == s.maxCached { EvictShape(s1); EvictConsistent(s1); EvictRepaired(s1); TailFacts(s.indexes); }
      NewInRepaired(s2, p);
    } else {
      if |s.cache| == s.maxCached { EvictConsistent(s1); EvictAsWritten(s1); TailFacts(s.indexes); }
      NewAsWritten(s2, p);
    }
  }

  lemma {:induction false} EvictAsWritten(s: Store)
    requires !s.repaired && s.indexes != []
    ensures EvictIndex(s)
      == s.(cache := s.cache - {s.indexes[0]}, indexes := s.indexes[1..], openDocuments := s.openDocuments - 1)
  {}

  lemma {:induction false} NewConsistent(s: Store, p: Path)
    requires Consistent(s) && p !in s.indexes
    ensures Consistent(s.(cache := s.cache[p := true], indexes := s.indexes + [p]))
  {
    DistinctAppend(s.indexes, p);
  }

  lemma {:induction false} GrownCache(s: Store, p: Path)
    requires Consistent(s) && p !in s.indexes
    ensures |s.cache[p := true]| == |s.cache| + 1
  {
    hide Distinct;
    assert s.cache[p := true].Keys == s.cache.Keys + {p};
  }

  lemma {:induction false} NewAsWritten(s: Store, p: Path)
    requires Consistent(s) && !s.repaired && p !in s.indexes && s.docs == []
    requires (forall q :: q in s.cache ==> s.cache[q]) && s.openDocuments == |s.cache| + 1
    ensures var s1 := s.(cache := s.cache[p := true], indexes := s.indexes + [p]);
      && Inv(MarkUsed(s1, p)) && MarkUsed(s1, p) == s1
  {
    hide RemoveLast, MoveToEnd, Consistent;
    NewConsistent(s, p);
    MoveEnded(s.indexes, p);
    var s1 := s.(cache := s.cache[p := true], indexes := s.indexes + [p]);
    assert MarkUsed(s1, p) == s1;
    GrownCache(s, p);
  }

  lemma {:induction false} NewInRepaired(s: Store, p: Path)
    requires Consistent(s) && s.repaired && p !in s.indexes && IsSuffix(s.docs, s.indexes)
    requires forall q :: q in s.cache ==> (s.cache[q] <==> q in s.docs)
    requires s.openDocuments == |s.docs| + 1
    ensures var s1 := s.(cache := s.cache[p := true], indexes := s.indexes + [p]);
      && Inv(MarkUsed(s1, p)) && MarkUsed(s1, p) == s1.(docs := s.docs + [p])
  {
    hide RemoveLast, MoveToEnd, Consistent;
    assert Distinct(s.indexes) by { ConsistentDistinct(s); }
    NewConsistent(s, p);
    SuffixOfDistinct(s.docs, s.indexes);
    MoveFacts(s.docs, p);
    MoveEnded(s.indexes, p);
    var s1 := s.(cache := s.cache[p := true], indexes := s.indexes + [p]);
    assert MarkUsed(s1, p) == s1.(docs := s.docs + [p]);
    NewRepaired(s, p);
    DocsDoNotMatter(s1, s.docs + [p]);
  }

  lemma {:induction false} NewRepaired(s: Store, p: Path)
    requires s.repaired && p !in s.docs && IsSuffix(s.docs, s.indexes) && s.openDocuments == |s.docs| + 1
    requires forall q :: q in s.cache ==> (s.cache[q] <==> q in s.docs)
    ensures Repaired(s.(cache := s.cache[p := true], indexes := s.indexes + [p], docs := s.docs + [p]))
  {
    SuffixAppend(s.docs, s.indexes, p);
  }

  lemma {:induction false} DocsDoNotMatter(s: Store, docs: seq<Path>)
    requires Consistent(s)
    ensures Consistent(s.(docs := docs))
  {}

  lemma {:induction false} ConsistentDistinct(s: Store)
    requires Consistent(s)
    ensures Distinct(s.indexes)
  {}

  lemma {:induction false} SuffixAppend(x: seq<Path>, y: seq<Path>, p: Path)
    requires IsSuffix(x, y)
    ensures IsSuffix(x + [p], y + [p])
  {}

  // ---------- runs ----------

  /** The paths of the requests that were granted, in order. */
  function GrantedPaths(rs: seq<Request>, os: seq<Outcome>): seq<Path>
    requires |rs| == |os|
  {
    if rs == [] then []
    else
      var n := |rs| - 1;
      GrantedPaths(rs[..n], os[..n]) + if os[n] == Granted then [rs[n].path] else []
  }

  /** The distinct paths of h, ordered by their last use. */
  function LastUses(h: seq<Path>): seq<Path> {
    if h == [] then [] else (if h[0] in h[1..] then [] else [h[0]]) + LastUses(h[1..])
  }

  /** The n most recent of them; all of them when the cache is unbounded. */
  function Recent(h: seq<Path>, n: int): seq<Path> {
    var l := LastUses(h);
    if 0 <= n < |l| then l[|l| - n..] else l
  }

  lemma {:induction false} LastUsesMembers(h: seq<Path>)
    ensures Distinct(LastUses(h)) && forall p :: p in LastUses(h) <==> p in h
  {
    if h != [] {
      LastUsesMembers(h[1..]);
      var l := LastUses(h[1..]);
      assert forall p :: p in h <==> p == h[0] || p in h[1..];
      if h[0] !in h[1..] { assert forall i :: 0 <= i < |l| ==> ([h[0]] + l)[i + 1] == l[i]; }
    }
  }

  lemma {:induction false} LastUsesAppend(h: seq<Path>, p: Path)
    ensures LastUses(h + [p]) == RemoveLast(LastUses(h), p) + [p]
  {
    hide RemoveLast, Distinct;
    if h == [] {
      assert h + [p] == [p] && [p][1..] == [];
      assert RemoveLast([], p) == [] by { RemoveNone(p); }
    } else {
      var first, rest := h[0], h[1..];
      var later := LastUses(rest);
      LastUsesAppend(rest, p);
      assert (h + [p])[1..] == rest + [p];
      LastUsesMembers(rest);
      RemoveFacts(later, p);
      if first in rest {
        assert LastUses(h) == [] + later == later;
        assert LastUses(h + [p]) == [] + LastUses(rest + [p]) == LastUses(rest + [p]);
      } else {
        RemoveFromConcat([first], later, p);
        RemoveOne(first, p);
        if first == p {
          assert LastUses(h + [p]) == [] + LastUses(rest + [p]) == later + [p];
          assert [] + later == later;
        } else {
          assert [first] + (RemoveLast(later, p) + [p]) == [first] + RemoveLast(later, p) + [p];
          assert LastUses(h + [p]) == [first] + LastUses(rest + [p]);
        }
      }
    }
  }

  lemma {:induction false} RemoveNone(p: Path)
    ensures RemoveLast([], p) == []
  {}

  lemma {:induction false} RemoveOne(q: Path, p: Path)
    ensures RemoveLast([q], p) == if q == p then [] else [q]
  {
    assert [q][..0] == [];
  }

  lemma {:induction false} RecentSplit(h: seq<Path>, n: int) returns (older: seq<Path>)
    requires n != 0
    ensures LastUses(h) == older + Recent(h, n) && Distinct(older + Recent(h, n))
    ensures older != [] ==> |Recent(h, n)| == n
    ensures n > 0 ==> |Recent(h, n)| <= n
  {
    LastUsesMembers(h);
    var all, s := LastUses(h), Recent(h, n);
    older := all[..|all| - |s|];
  }

  /** The n most recent of a list that ends in t. */
  lemma {:induction false} RecentOf(h: seq<Path>, n: int, x: seq<Path>, t: seq<Path>)
    requires n != 0 && LastUses(h) == x + t && (x != [] ==> |t| == n) && (n > 0 ==> |t| <= n)
    ensures Recent(h, n) == t
  {}

  /** The index list after a granted request is again the most recent paths. */
  lemma {:induction false} RecentAppend(h: seq<Path>, n: int, p: Path)
    requires n != 0
    ensures Recent(h + [p], n) == IndexesAfter(Recent(h, n), n, p, Granted)
  {
    hide *;
    var s := Recent(h, n);
    var older := RecentSplit(h, n);
    LastUsesAppend(h, p);
    AppendSplit(older, s, n, p);
    var front := if p in s then older else if |s| == n then RemoveLast(older, p) + [s[0]] else [];
    RecentOf(h + [p], n, front, IndexesAfter(s, n, p, Granted));
  }

  lemma {:induction false} AppendSplit(older: seq<Path>, s: seq<Path>, n: int, p: Path)
    requires n != 0 && Distinct(older + s) && (older != [] ==> |s| == n) && (n > 0 ==> |s| <= n)
    ensures var after := IndexesAfter(s, n, p, Granted);
      var front := if p in s then older else if |s| == n then RemoveLast(older, p) + [s[0]] else [];
      && RemoveLast(older + s, p) + [p] == front + after
      && (front != [] ==> |after| == n) && (n > 0 ==> |after| <= n)
  {
    hide RemoveLast, MoveToEnd, Distinct;
    DistinctParts(older, s);
    RemoveFromConcat(older, s, p);
    RemoveFacts(older, p);
    RemoveFacts(s, p);
    MoveIsRemove(s, p);
    if p !in s && |s| == n { assert s == [s[0]] + s[1..]; }
  }

  lemma {:induction false} RunLength(s: Store, rs: seq<Request>)
    ensures |Run(s, rs).1| == |rs|
  {
    hide Get;
    if rs != [] { RunLength(s, rs[..|rs| - 1]); }
  }

  lemma {:induction false} StartInv(repaired: bool, maxOpen: int, maxCached: int)
    ensures Inv(Start(repaired, maxOpen, maxCached))
  {}

  /**
   * Any run, of the code as it is and of the repaired code: the cache is an exact LRU of the last
   * maxCachedIndexes distinct paths granted (all of them if the limit is negative), and the
   * invariants hold.
   */
  lemma {:induction false} ExactLru(repaired: bool, maxOpen: int, maxCached: int, rs: seq<Request>)
    requires maxCached != 0
    ensures var (s, os) := Run(Start(repaired, maxOpen, maxCached), rs);
      && |os| == |rs| && Inv(s) && s.repaired == repaired && s.maxOpen == maxOpen && s.maxCached == maxCached
      && s.indexes == Recent(GrantedPaths(rs, os), maxCached)
  {
    hide Get, Inv, Recent, IndexesAfter;
    var start := Start(repaired, maxOpen, maxCached);
    RunLength(start, rs);
    if rs == [] {
      StartInv(repaired, maxOpen, maxCached);
      assert Recent([], maxCached) == [] by { NothingRecent(maxCached); }
    } else {
      var n := |rs| - 1;
      ExactLru(repaired, maxOpen, maxCached, rs[..n]);
      var (s1, os1) := Run(start, rs[..n]);
      GetKeeps(s1, rs[n]);
      var (s, os) := Run(start, rs);
      assert os[..n] == os1 && os[n] == Get(s1, rs[n]).1;
      var h := GrantedPaths(rs[..n], os1);
      if os[n] == Granted {
        RecentAppend(h, maxCached, rs[n].path);
      } else {
        assert h + [] == h;
        assert s.indexes == s1.indexes by { NotGranted(s1.indexes, maxCached, rs[n].path, os[n]); }
      }
    }
  }

  lemma {:induction false} NothingRecent(n: int)
    ensures Recent([], n) == []
  {}

  lemma {:induction false} NotGranted(indexes: seq<Path>, n: int, p: Path, o: Outcome)
    requires o != Granted
    ensures IndexesAfter(indexes, n, p, o) == indexes
  {}

  // ---------- the repaired code ----------

  lemma {:induction false} RunLast(s: Store, rs: seq<Request>)
    requires rs != []
    ensures var n := |rs| - 1; var (s1, os1) := Run(s, rs[..n]);
      && Run(s, rs).0 == Get(s1, rs[n]).0 && Run(s, rs).1 == os1 + [Get(s1, rs[n]).1]
      && |os1| == n
  {
    hide Get;
    RunLength(s, rs[..|rs| - 1]);
  }

  lemma {:induction false} RunNothing(maxOpen: int, maxCached: int)
    ensures Run(Start(true, maxOpen, maxCached), []) == (Start(true, maxOpen, maxCached), [])
    ensures Start(true, maxOpen, maxCached).openDocuments == 0
  {}

  lemma {:induction false} RepairedRun(maxOpen: int, maxCached: int, rs: seq<Request>)
    requires maxOpen >= 1 && maxCached != 0
    ensures var (s, os) := Run(Start(true, maxOpen, maxCached), rs);
      && s.openDocuments <= maxOpen
      && (forall i :: 0 <= i < |os| ==> os[i] != Fault)
      && (rs != [] && os[|os| - 1] == Granted ==> rs[|rs| - 1].path in s.docs)
  {
    hide *;
    var start := Start(true, maxOpen, maxCached);
    if rs == [] {
      RunNothing(maxOpen, maxCached);
    } else {
      var n := |rs| - 1;
      RepairedRun(maxOpen, maxCached, rs[..n]);
      ExactLru(true, maxOpen, maxCached, rs[..n]);
      RunLast(start, rs);
      var s1 := Run(start, rs[..n]).0;
      GetKeeps(s1, rs[n]);
      RepairedStep(s1, rs[n]);
    }
  }

  lemma {:induction false} InvMeans(s: Store)
    requires Inv(s) && s.repaired
    ensures s.openDocuments == |s.docs| && IsSuffix(s.docs, s.indexes) && Distinct(s.docs)
    ensures forall p :: p in s.docs ==> p in s.cache
    ensures forall p :: p in s.cache ==> (s.cache[p] <==> p in s.docs)
  {
    SuffixOfDistinct(s.docs, s.indexes);
  }

  /**
   * With the two spots repaired, on every run, even one with failing opens: nothing faults, at most
   * maxOpenDocuments documents are open, openDocuments counts them, they are the most recently used
   * files in recency order, and a granted file is open.
   */
  lemma {:induction false} RepairedBound(maxOpen: int, maxCached: int, rs: seq<Request>)
    requires maxOpen >= 1 && maxCached != 0
    ensures var (s, os) := Run(Start(true, maxOpen, maxCached), rs);
      && |os| == |rs| && (forall i :: 0 <= i < |os| ==> os[i] != Fault)
      && s.openDocuments == |s.docs| <= maxOpen
      && IsSuffix(s.docs, s.indexes) && Distinct(s.docs)
      && (forall p :: p in s.docs ==> p in s.cache)
      && (forall p :: p in s.cache ==> (s.cache[p] <==> p in s.docs))
      && (rs != [] && os[|os| - 1] == Granted ==> rs[|rs| - 1].path in s.docs)
  {
    hide *;
    ExactLru(true, maxOpen, maxCached, rs);
    RepairedRun(maxOpen, maxCached, rs);
    InvMeans(Run(Start(true, maxOpen, maxCached), rs).0);
  }

  lemma {:induction false} RepairedStep(s: Store, r: Request)
    requires Inv(s) && s.repaired && s.maxOpen >= 1 && s.maxCached != 0 && s.openDocuments <= s.maxOpen
    ensures Get(s, r).1 != Fault && Get(s, r).0.openDocuments <= s.maxOpen
    ensures s.maxOpen <= |s.docs| ==> s.docs != []
  {
    hide RemoveLast, MoveToEnd, MakeRoom, EvictIndex, AddToCache;
    assert MakeRoom(s).Room? by { HasRoom(s); }
    MakeRoomKeeps(s);
    var s1 := MakeRoom(s).store;
    assert s1.openDocuments < s.maxOpen by { RoomMade(s); }
    if r.path !in s.cache && r.opens {
      AddedOnce(s1, r);
    } else if r.path in s.cache {
      UsedOnce(s, r);
    }
  }

  lemma {:induction false} HasRoom(s: Store)
    requires Inv(s) && s.repaired && s.maxOpen >= 1
    ensures MakeRoom(s).Room?
  {}

  lemma {:induction false} RoomMade(s: Store)
    requires Inv(s) && s.repaired && s.maxOpen >= 1 && s.openDocuments <= s.maxOpen
    ensures MakeRoom(s).Room? && MakeRoom(s).store.openDocuments < s.maxOpen
  {}

  lemma {:induction false} AddedOnce(s: Store, r: Request)
    requires Inv(s) && s.repaired && r.path !in s.cache && s.maxCached != 0 && s.openDocuments < s.maxOpen
    ensures AddToCache(s, r.path).1 == Granted && r.path in AddToCache(s, r.path).0.cache
    ensures Use(AddToCache(s, r.path).0, r).1 == Granted && Use(AddToCache(s, r.path).0, r).0.openDocuments <= s.maxOpen
  {
    hide RemoveLast, MoveToEnd;
  }

  lemma {:induction false} UsedOnce(s: Store, r: Request)
    requires Inv(s) && s.repaired && s.maxOpen >= 1 && r.path in s.cache && s.openDocuments <= s.maxOpen
    ensures Use(s, r).1 != Fault && Use(s, r).0.openDocuments <= s.maxOpen
  {
    hide RemoveLast, MoveToEnd;
  }

  /** Every document that may be open is. */
  predicate FullyOpen(s: Store) {
    |s.docs| == if |s.indexes| <= s.maxOpen then |s.indexes| else s.maxOpen
  }

  lemma {:induction false} HitFullyOpen(s: Store, r: Request)
    requires Inv(s) && s.repaired && s.maxOpen >= 1 && r.opens && FullyOpen(s) && r.path in s.cache
    ensures FullyOpen(Use(s, r).0)
  {
    hide RemoveLast, MoveToEnd, MakeRoom;
    var p := r.path;
    SuffixOfDistinct(s.docs, s.indexes);
    MoveFacts(s.indexes, p);
    if s.cache[p] {
      MoveFacts(s.docs, p);
    } else {
      assert |s.docs| == |s.indexes| ==> s.docs == s.indexes;
      HasRoom(s);
      MakeRoomKeeps(s);
      var s1 := MakeRoom(s).store;
      MoveEnded(s1.docs, p);
    }
  }

  /** What a miss does once there is room, in terms of the store after eviction. */
  lemma {:induction false} MissResult(s: Store, r: Request) returns (s3: Store)
    requires Inv(s) && s.repaired && r.path !in s.cache && s.maxCached != 0
    ensures s3 == (var s2 := s.(openDocuments := s.openDocuments + 1);
                   if |s.cache| == s.maxCached && s.indexes != [] then EvictIndex(s2) else s2)
    ensures AddToCache(s, r.path).1 == Granted && r.path in AddToCache(s, r.path).0.cache
    ensures Use(AddToCache(s, r.path).0, r).0
         == MarkUsed(s3.(cache := s3.cache[r.path := true], indexes := s3.indexes + [r.path]), r.path)
  {
    hide MarkUsed, EvictIndex, MakeRoom;
    var s2 := s.(openDocuments := s.openDocuments + 1);
    s3 := if |s.cache| == s.maxCached && s.indexes != [] then EvictIndex(s2) else s2;
  }

  /** The lengths of the two lists after a miss: d1, d3 and i3 are those after making room and evicting. */
  lemma {:induction false} MissLengths(s: Store, r: Request)
    requires Inv(s) && s.repaired && s.maxOpen >= 1 && s.maxCached != 0 && r.opens && r.path !in s.cache
    ensures MakeRoom(s).Room? && AddToCache(MakeRoom(s).store, r.path).1 == Granted
    ensures r.path in AddToCache(MakeRoom(s).store, r.path).0.cache
    ensures var d1 := if |s.docs| == s.maxOpen then |s.docs| - 1 else |s.docs|;
      var evict := |s.indexes| == s.maxCached && s.indexes != [];
      var s4 := Use(AddToCache(MakeRoom(s).store, r.path).0, r).0;
      && |s4.docs| == (if evict && d1 == |s.indexes| then d1 - 1 else d1) + 1
      && |s4.indexes| == (if evict then |s.indexes| - 1 else |s.indexes|) + 1
      && s4.maxOpen == s.maxOpen
  {
    hide RemoveLast, MoveToEnd, MakeRoom, EvictIndex, AddToCache, Use, MarkUsed, Consistent, Distinct;
    HasRoom(s);
    MakeRoomKeeps(s);
    var s1, p := MakeRoom(s).store, r.path;
    var s3 := MissResult(s1, r);
    ConsistentSizes(s1);
    var s2 := s1.(openDocuments := s1.openDocuments + 1);
    OnlyCacheMatters(s1, s2);
    if |s1.cache| == s.maxCached && s1.indexes != [] {
      EvictShape(s2);
      EvictConsistent(s2);
      EvictRepaired(s2);
      TailFacts(s1.indexes);
      EvictCount(s2);
    }
    NewInRepaired(s3, p);
  }

  lemma {:induction false} MissFullyOpen(s: Store, r: Request)
    requires Inv(s) && s.repaired && s.maxOpen >= 1 && s.maxCached != 0 && FullyOpen(s) && r.opens && r.path !in s.cache
    ensures MakeRoom(s).Room? && AddToCache(MakeRoom(s).store, r.path).1 == Granted
    ensures r.path in AddToCache(MakeRoom(s).store, r.path).0.cache
    ensures FullyOpen(Use(AddToCache(MakeRoom(s).store, r.path).0, r).0)
  {
    hide Inv, MakeRoom, AddToCache, Use;
    MissLengths(s, r);
  }

  lemma {:induction false} ConsistentSizes(s: Store)
    requires Consistent(s)
    ensures |s.cache| == |s.indexes| && Distinct(s.indexes) && forall p :: p in s.cache <==> p in s.indexes
  {}

  lemma {:induction false} OnlyCacheMatters(s: Store, s': Store)
    requires Consistent(s) && s'.cache == s.cache && s'.indexes == s.indexes
    ensures Consistent(s')
  {}

  /** The oldest file is open exactly if all are. */
  lemma {:induction false} EvictCount(s: Store)
    requires Consistent(s) && s.indexes != [] && s.repaired && IsSuffix(s.docs, s.indexes)
    requires forall p :: p in s.cache ==> (s.cache[p] <==> p in s.docs)
    ensures |EvictIndex(s).docs| == if |s.docs| == |s.indexes| then |s.docs| - 1 else |s.docs|
  {
    hide RemoveLast;
    SuffixOfDistinct(s.docs, s.indexes);
    RemoveFacts(s.docs, s.indexes[0]);
    if s.indexes[0] in s.docs {
      FirstInSuffix(s.docs, s.indexes);
    } else {
      LaterSuffix(s.docs, s.indexes);
    }
  }

  /** When every open succeeds, the open documents are the maxOpenDocuments most recently used files. */
  lemma {:induction false} RepairedExact(maxOpen: int, maxCached: int, rs: seq<Request>)
    requires maxOpen >= 1 && maxCached != 0 && AllOpen(rs)
    ensures var s := Run(Start(true, maxOpen, maxCached), rs).0;
      && FullyOpen(s) && IsSuffix(s.docs, s.indexes) && |Run(Start(true, maxOpen, maxCached), rs).1| == |rs|
      && s.indexes == Recent(GrantedPaths(rs, Run(Start(true, maxOpen, maxCached), rs).1), maxCached)
  {
    hide Get, Recent, GrantedPaths, Run, MakeRoom, AddToCache, Use;
    ExactLru(true, maxOpen, maxCached, rs);
    var start := Start(true, maxOpen, maxCached);
    if rs == [] {
      RunNothing(maxOpen, maxCached);
    } else {
      var n := |rs| - 1;
      RunLast(start, rs);
      RepairedExact(maxOpen, maxCached, rs[..n]);
      ExactLru(true, maxOpen, maxCached, rs[..n]);
      GetFullyOpen(Run(start, rs[..n]).0, rs[n]);
    }
  }

  lemma {:induction false} GetFullyOpen(s: Store, r: Request)
    requires Inv(s) && s.repaired && s.maxOpen >= 1 && s.maxCached != 0 && FullyOpen(s) && r.opens
    ensures FullyOpen(Get(s, r).0)
  {
    hide MakeRoom, AddToCache, Use, FullyOpen;
    if r.path in s.cache { HitFullyOpen(s, r); } else { MissFullyOpen(s, r); }
  }

  // ---------- the code as it is ----------

  predicate AllOpen(rs: seq<Request>) { forall i :: 0 <= i < |rs| ==> rs[i].opens }

  predicate NoFault(os: seq<Outcome>) { forall i :: 0 <= i < |os| ==> os[i] != Fault }

  function PathSet(rs: seq<Request>): set<Path> { set i | 0 <= i < |rs| :: rs[i].path }

  /** Exactly when the code as it is can serve the requests. */
  predicate Safe(maxOpen: int, maxCached: int, rs: seq<Request>) {
    rs == [] || (maxCached != 0 && (maxOpen < 0 || 0 < maxCached < maxOpen || |PathSet(rs)| <= maxOpen))
  }

  lemma {:induction false} PathSetLast(rs: seq<Request>)
    requires rs != []
    ensures PathSet(rs) == PathSet(rs[..|rs| - 1]) + {rs[|rs| - 1].path}
  {
    var n := |rs| - 1;
    forall p | p in PathSet(rs) ensures p in PathSet(rs[..n]) + {rs[n].path} {
      var i :| 0 <= i < |rs| && rs[i].path == p;
      if i < n { assert rs[..n][i].path == p; }
    }
    forall p | p in PathSet(rs[..n]) ensures p in PathSet(rs) {
      var i :| 0 <= i < n && rs[..n][i].path == p;
      assert rs[i].path == p;
    }
  }

  /** A request to the code as it is: it faults exactly if the path is new and every document is taken. */
  lemma {:induction false} AsWrittenStep(s: Store, r: Request)
    requires Inv(s) && !s.repaired && s.maxCached != 0 && r.opens
    ensures Get(s, r).1 == if r.path !in s.indexes && |s.indexes| == s.maxOpen then Fault else Granted
  {
    hide RemoveLast, MoveToEnd;
  }

  /** While no path has been evicted the cache holds every path requested. */
  lemma {:induction false} AsWrittenRun(maxOpen: int, maxCached: int, rs: seq<Request>)
    requires maxCached != 0 && AllOpen(rs) && NoFault(Run(Start(false, maxOpen, maxCached), rs).1)
    ensures var s := Run(Start(false, maxOpen, maxCached), rs).0;
      && Inv(s) && !s.repaired && s.maxOpen == maxOpen && s.maxCached == maxCached
      && (forall p :: p in s.indexes ==> p in PathSet(rs))
      && (maxCached < 0 || |PathSet(rs)| <= maxCached ==>
            |s.indexes| == |PathSet(rs)| && forall p :: p in PathSet(rs) ==> p in s.indexes)
      && (0 < maxCached < |PathSet(rs)| ==> |s.indexes| == maxCached)
  {
    var start := Start(false, maxOpen, maxCached);
    if rs == [] {
      StartInv(false, maxOpen, maxCached);
    } else {
      hide Get, Inv, Run, PathSet, MoveToEnd, RemoveLast;
      var n := |rs| - 1;
      RunLast(start, rs);
      var s1, p := Run(start, rs[..n]).0, rs[n].path;
      var os, os1 := Run(start, rs).1, Run(start, rs[..n]).1;
      assert NoFault(os1) by { assert forall i :: 0 <= i < |os1| ==> os1[i] == os[i]; }
      AsWrittenRun(maxOpen, maxCached, rs[..n]);
      GetKeeps(s1, rs[n]);
      AsWrittenStep(s1, rs[n]);
      assert Get(s1, rs[n]).1 == Granted by { assert os[n] == Get(s1, rs[n]).1; }
      PathSetLast(rs);
      assert Distinct(s1.indexes) by { InvConsistent(s1); }
      Covers(s1.indexes, PathSet(rs[..n]), maxCached, p);
    }
  }

  /** An LRU of everything requested, or of as much as there is room for, after one more request. */
  lemma {:induction false} Covers(indexes: seq<Path>, paths: set<Path>, maxCached: int, p: Path)
    requires Distinct(indexes) && maxCached != 0 && forall q :: q in indexes ==> q in paths
    requires maxCached < 0 || |paths| <= maxCached ==> |indexes| == |paths| && forall q :: q in paths ==> q in indexes
    requires 0 < maxCached < |paths| ==> |indexes| == maxCached
    ensures var after, all := IndexesAfter(indexes, maxCached, p, Granted), paths + {p};
      && (forall q :: q in after ==> q in all)
      && (maxCached < 0 || |all| <= maxCached ==> |after| == |all| && forall q :: q in all ==> q in after)
      && (0 < maxCached < |all| ==> |after| == maxCached)
  {
    hide MoveToEnd, Distinct;
    MoveFacts(indexes, p);
    Grown(paths, p);
  }

  lemma {:induction false} Grown(ps: set<Path>, p: Path)
    ensures |ps + {p}| == if p in ps then |ps| else |ps| + 1
  {
    if p in ps { assert ps + {p} == ps; }
  }

  lemma {:induction false} PrefixSafe(maxOpen: int, maxCached: int, rs: seq<Request>)
    requires rs != [] && Safe(maxOpen, maxCached, rs)
    ensures Safe(maxOpen, maxCached, rs[..|rs| - 1])
  {
    PathSetLast(rs);
    Grown(PathSet(rs[..|rs| - 1]), rs[|rs| - 1].path);
  }

  lemma {:induction false} ZeroCacheFaults(maxOpen: int, rs: seq<Request>)
    requires rs != [] && AllOpen(rs)
    ensures !NoFault(Run(Start(false, maxOpen, 0), rs).1)
  {
    hide RemoveLast, MoveToEnd;
    var start := Start(false, maxOpen, 0);
    RunLast(start, rs);
    var os := Run(start, rs).1;
    if |rs| == 1 {
      assert Run(start, rs[..0]) == (start, []);
      assert os[0] == Get(start, rs[0]).1 == Fault;
    } else {
      ZeroCacheFaults(maxOpen, rs[..|rs| - 1]);
      var os1 := Run(start, rs[..|rs| - 1]).1;
      var i :| 0 <= i < |os1| && os1[i] == Fault;
      assert os[i] == Fault;
    }
  }

  /**
   * The code as it is, for all configurations and all requests whose files open: a run is free of
   * faults if and only if it is empty, or the index limit is not zero and there is no document limit,
   * or the index limit is below the document limit, or no more paths than documents are requested.
   */
  lemma {:induction false} FaultFreeIffSafe(maxOpen: int, maxCached: int, rs: seq<Request>)
    requires AllOpen(rs)
    ensures NoFault(Run(Start(false, maxOpen, maxCached), rs).1) <==> Safe(maxOpen, maxCached, rs)
  {
    if rs != [] {
      if maxCached == 0 {
        ZeroCacheFaults(maxOpen, rs);
      } else {
        FaultFreeStep(maxOpen, maxCached, rs);
      }
    }
  }

  lemma {:induction false} FaultFreeStep(maxOpen: int, maxCached: int, rs: seq<Request>)
    requires AllOpen(rs) && rs != [] && maxCached != 0
    ensures NoFault(Run(Start(false, maxOpen, maxCached), rs).1) <==> Safe(maxOpen, maxCached, rs)
    decreases |rs|, 0
  {
    hide Get, Inv, Run, PathSet;
    var start := Start(false, maxOpen, maxCached);
    var n := |rs| - 1;
    var init, p := rs[..n], rs[n].path;
    RunLast(start, rs);
    var os, os1 := Run(start, rs).1, Run(start, init).1;
    assert os == os1 + [os[n]];
    assert NoFault(os) <==> NoFault(os1) && os[n] != Fault by {
      assert forall i :: 0 <= i < n ==> os[i] == os1[i];
    }
    if n == 0 {
      assert os1 == [] && NoFault(os1);
      assert PathSet(init) == {} by { NoPaths(init); }
    } else {
      FaultFreeStep(maxOpen, maxCached, init);
    }
    if NoFault(os1) {
      AsWrittenRun(maxOpen, maxCached, init);
      var s1 := Run(start, init).0;
      AsWrittenStep(s1, rs[n]);
      PathSetLast(rs);
      Grown(PathSet(init), p);
    } else {
      if Safe(maxOpen, maxCached, rs) { PrefixSafe(maxOpen, maxCached, rs); }
    }
  }

  lemma {:induction false} NoPaths(rs: seq<Request>)
    requires rs == []
    ensures PathSet(rs) == {}
  {}
}
