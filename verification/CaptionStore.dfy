/**
 * CaptionStoreImpl.java: a cache of caption files with two recency lists, one for the cached
 * indexes and one for the open documents. With repaired set to false this is the code as it is;
 * with true, a file evicted from the index cache is closed and leaves the document list (lines
 * 73-77), and a file used while the document list is empty enters it (line 92).
 * A caption file is its path and whether its document is open.
 */
module CaptionStores {

  type Path = string

  /** opens: the document can be opened at the time of the call. */
  datatype Request = Request(path: Path, opens: bool)

  /** Fault is the IndexOutOfBoundsException of remove(0), Failed an IOException while opening. */
  datatype Outcome = Granted | Fault | Failed

  /** cache says of each cached file whether its document is open; both lists, least recent first. */
  datatype Store = Store(repaired: bool, maxOpen: int, maxCached: int, cache: map<Path, bool>,
                         indexes: seq<Path>, docs: seq<Path>, openDocuments: int)

  function Start(repaired: bool, maxOpen: int, maxCached: int): Store {
    Store(repaired, maxOpen, maxCached, map[], [], [], 0)
  }

  /** The backward search and remove(i): the last occurrence of p goes. */
  function RemoveLast(s: seq<Path>, p: Path): seq<Path> {
    if s == [] then []
    else if s[|s| - 1] == p then s[..|s| - 1]
    else RemoveLast(s[..|s| - 1], p) + [s[|s| - 1]]
  }

  /** Lines 91-104 and 105-118, for a list that is not empty. */
  function MoveToEnd(s: seq<Path>, p: Path): seq<Path> {
    if s != [] && s[|s| - 1] == p then s else RemoveLast(s, p) + [p]
  }

  function Close(cache: map<Path, bool>, p: Path): map<Path, bool> {
    if p in cache then cache[p := false] else cache
  }

  datatype Room = NoRoom | Room(store: Store)

  /** Lines 66-70 and 82-86: at the limit, close the least recently used document. */
  function MakeRoom(s: Store): Room {
    if s.openDocuments != s.maxOpen then Room(s)
    else if s.docs == [] then NoRoom
    else Room(s.(docs := s.docs[1..], cache := Close(s.cache, s.docs[0]), openDocuments := s.openDocuments - 1))
  }

  /** Lines 91-118. */
  function MarkUsed(s: Store, p: Path): Store {
    s.(docs := if s.docs == [] && !s.repaired then [] else MoveToEnd(s.docs, p),
       indexes := if s.indexes == [] then [] else MoveToEnd(s.indexes, p))
  }

  /** Lines 81-119, for a cached file. */
  function Use(s: Store, r: Request): (Store, Outcome)
    requires r.path in s.cache
  {
    if s.cache[r.path] then (MarkUsed(s, r.path), Granted)
    else match MakeRoom(s)
      case NoRoom => (s, Fault)
      case Room(s1) =>
        if !r.opens then (s1, Failed)
        else
          (MarkUsed(s1.(cache := s1.cache[r.path := true], openDocuments := s1.openDocuments + 1,
                        docs := s1.docs + [r.path]), r.path), Granted)
  }

  /** Lines 74-76. */
  function EvictIndex(s: Store): Store
    requires s.indexes != []
  {
    var lru := s.indexes[0];
    var s' := s.(indexes := s.indexes[1..], cache := s.cache - {lru});
    if !s.repaired then s'.(openDocuments := s.openDocuments - 1)
    else if lru in s.cache && s.cache[lru] then
      s'.(docs := RemoveLast(s.docs, lru), openDocuments := s.openDocuments - 1)
    else s'
  }

  /** Lines 72-79, once the new file is open. */
  function AddToCache(s: Store, p: Path): (Store, Outcome) {
    var s1 := s.(openDocuments := s.openDocuments + 1);
    if |s1.cache| == s1.maxCached && s1.indexes == [] then (s1, Fault)
    else
      var s2 := if |s1.cache| == s1.maxCached then EvictIndex(s1) else s1;
      (s2.(cache := s2.cache[p := true], indexes := s2.indexes + [p]), Granted)
  }

  /** getCaptionFile */
  function Get(s: Store, r: Request): (Store, Outcome) {
    if r.path in s.cache then Use(s, r)
    else match MakeRoom(s)
      case NoRoom => (s, Fault)
      case Room(s1) =>
        if !r.opens then (s1, Failed)
        else
          var (s2, outcome) := AddToCache(s1, r.path);
          if outcome == Fault then (s2, Fault) else Use(s2, r)
  }

  class CaptionStore {
    const repaired: bool
    const maxOpenDocuments: int
    const maxCachedIndexes: int
    var cache: map<Path, bool>
    var recentlyUsedIndexes: seq<Path>
    var recentlyUsedDocuments: seq<Path>
    var openDocuments: int

    ghost function State(): Store
      reads this
    {
      Store(repaired, maxOpenDocuments, maxCachedIndexes, cache, recentlyUsedIndexes, recentlyUsedDocuments,
            openDocuments)
    }

    constructor (repair: bool, maxOpen: int, maxCached: int)
      ensures State() == Start(repair, maxOpen, maxCached)
    {
      repaired, maxOpenDocuments, maxCachedIndexes := repair, maxOpen, maxCached;
      cache, recentlyUsedIndexes, recentlyUsedDocuments, openDocuments := map[], [], [], 0;
    }

    /** The backward search loop over a recency list. */
    static method Remove(list: seq<Path>, p: Path) returns (r: seq<Path>)
      ensures r == RemoveLast(list, p)
    {
      var i := |list| - 1;
      assert list[..i + 1] == list && RemoveLast(list, p) + list[i + 1..] == RemoveLast(list, p);
      while i >= 0
        invariant -1 <= i < |list|
        invariant RemoveLast(list, p) == RemoveLast(list[..i + 1], p) + list[i + 1..]
      {
        assert list[..i + 1][..i] == list[..i];
        if list[i] == p {
          return list[..i] + list[i + 1..];
        }
        assert RemoveLast(list[..i], p) + [list[i]] + list[i + 1..] == RemoveLast(list[..i], p) + list[i..];
        i := i - 1;
      }
      assert list[..0] == [] && list[0..] == list;
      r := list;
    }

    static method Touch(list: seq<Path>, p: Path) returns (r: seq<Path>)
      ensures r == MoveToEnd(list, p)
    {
      var size := |list|;
      if size > 0 && list[size - 1] == p {
        return list;
      }
      r := Remove(list, p);
      r := r + [p];
    }

    method MakeRoomForDocument() returns (ok: bool)
      modifies this
      ensures ok <==> MakeRoom(old(State())).Room?
      ensures State() == if ok then MakeRoom(old(State())).store else old(State())
    {
      if openDocuments == maxOpenDocuments {
        if recentlyUsedDocuments == [] {
          return false;
        }
        var lru := recentlyUsedDocuments[0];
        recentlyUsedDocuments := recentlyUsedDocuments[1..];
        cache := Close(cache, lru);
        openDocuments := openDocuments - 1;
      }
      return true;
    }

    method EvictLeastRecentIndex()
      requires recentlyUsedIndexes != []
      modifies this
      ensures State() == EvictIndex(old(State()))
    {
      var lru := recentlyUsedIndexes[0];
      if !repaired {
        openDocuments := openDocuments - 1;
      } else if lru in cache && cache[lru] {
        recentlyUsedDocuments := Remove(recentlyUsedDocuments, lru);
        openDocuments := openDocuments - 1;
      }
      recentlyUsedIndexes := recentlyUsedIndexes[1..];
      cache := cache - {lru};
    }

    method GetCaptionFile(r: Request) returns (outcome: Outcome)
      modifies this
      ensures (State(), outcome) == Get(old(State()), r)
    {
      hide MakeRoom, EvictIndex, MoveToEnd;
      if r.path !in cache {
        var ok := MakeRoomForDocument();
        if !ok {
          return Fault;
        }
        if !r.opens {
          return Failed;
        }
        openDocuments := openDocuments + 1;
        if |cache| == maxCachedIndexes {
          if recentlyUsedIndexes == [] {
            return Fault;
          }
          EvictLeastRecentIndex();
        }
        cache := cache[r.path := true];
        recentlyUsedIndexes := recentlyUsedIndexes + [r.path];
      }
      outcome := UseFile(r);
    }

    /** Lines 81-119. */
    method UseFile(r: Request) returns (outcome: Outcome)
      requires r.path in cache
      modifies this
      ensures (State(), outcome) == Use(old(State()), r)
    {
      hide MakeRoom, RemoveLast, MoveToEnd;
      if !cache[r.path] {
        var ok := MakeRoomForDocument();
        if !ok {
          return Fault;
        }
        if !r.opens {
          return Failed;
        }
        cache := cache[r.path := true];
        openDocuments := openDocuments + 1;
        recentlyUsedDocuments := recentlyUsedDocuments + [r.path];
      }
      if |recentlyUsedDocuments| > 0 || repaired {
        recentlyUsedDocuments := Touch(recentlyUsedDocuments, r.path);
      }
      if |recentlyUsedIndexes| > 0 {
        recentlyUsedIndexes := Touch(recentlyUsedIndexes, r.path);
      }
      outcome := Granted;
    }
  }
}
