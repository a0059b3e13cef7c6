/**
 * CaptionFile.java: an index from the timestamps of anchor lines to their positions in the
 * document, and range queries that seek with it. The document is its sequence of characters.
 */
module CaptionFiles {
  import opened Text

  // ---------- RandomAccessFile.readLine ----------

  /** The first line terminator at or after pos, or the end. */
  function LineEnd(doc: string, pos: nat): (e: nat)
    requires pos <= |doc|
    ensures pos <= e <= |doc|
    decreases |doc| - pos
  {
    if pos == |doc| || doc[pos] == '\n' || doc[pos] == '\r' then pos else LineEnd(doc, pos + 1)
  }

  /** The position after the line that starts at pos and its terminator: \n, \r or \r\n. */
  function NextLine(doc: string, pos: nat): (next: nat)
    requires pos < |doc|
    ensures pos < next <= |doc|
  {
    var e := LineEnd(doc, pos);
    if e == |doc| then e
    else if doc[e] == '\r' && e + 1 < |doc| && doc[e + 1] == '\n' then e + 2
    else e + 1
  }

  function LineAt(doc: string, pos: nat): string
    requires pos <= |doc|
  {
    doc[pos..LineEnd(doc, pos)]
  }

  // ---------- anchors ----------

  /** line.startsWith("<a name=") */
  predicate IsAnchor(line: string) { "<a name=" <= line }

  function ParseDigits(s: string, value: nat): Option<nat> {
    if s == "" then Some(value)
    else if '0' <= s[0] <= '9' then ParseDigits(s[1..], 10 * value + (s[0] as int - '0' as int))
    else None
  }

  /** Long.parseLong; None is NumberFormatException. */
  function ParseLong(s: string): Option<int> {
    var negative := s != "" && s[0] == '-';
    var digits := if negative then s[1..] else s;
    if digits == "" then None
    else match ParseDigits(digits, 0)
      case None => None
      case Some(n) =>
        var magnitude: int := n;
        var v := if negative then -magnitude else magnitude;
        if -0x8000_0000_0000_0000 <= v < 0x8000_0000_0000_0000 then Some(v) else None
  }

  /** The number between the first two quotes; None is the exception that createIndex ends with. */
  function Timestamp(line: string): Option<int> {
    var startQuote := IndexOf(line, '"');
    var endQuote := IndexOf(line, '"', startQuote + 1);
    if endQuote < 0 then None else ParseLong(line[startQuote + 1..endQuote])
  }

  /** parseSentence; None is the exception of charAt past the end of the line. */
  function ParseSentence(line: string): Option<string> {
    var gt := IndexOf(line, '>');
    if gt + 1 >= |line| then None
    else if line[gt + 1] != '<' then Some(line[gt + 1..])
    else
      var second := IndexOf(line, '>', gt + 1);
      var third := IndexOf(line, '>', second + 1);
      Some(line[third + 1..])
  }

  // ---------- the document as lines ----------

  datatype Line = Line(pos: nat, text: string)

  function Lines(doc: string, pos: nat): seq<Line>
    requires pos <= |doc|
    decreases |doc| - pos
  {
    if pos == |doc| then [] else [Line(pos, LineAt(doc, pos))] + Lines(doc, NextLine(doc, pos))
  }

  /** createIndex: None if some anchor has no timestamp; a later anchor replaces an equal one. */
  function IndexOfLines(lines: seq<Line>): Option<map<int, nat>> {
    if lines == [] then Some(map[])
    else
      var last := lines[|lines| - 1];
      match IndexOfLines(lines[..|lines| - 1])
      case None => None
      case Some(m) =>
        if !IsAnchor(last.text) then Some(m)
        else match Timestamp(last.text)
          case None => None
          case Some(t) => Some(m[t := last.pos])
  }

  // ---------- range queries ----------

  datatype Answer =
    | Sentences(list: seq<string>)
    | BadRange            // IllegalArgumentException
    | NoSuchLine          // NullPointerException
    | UnexpectedPosition  // IOException
    | BadLine             // StringIndexOutOfBoundsException of parseSentence

  function Prepend(prefix: seq<string>, a: Answer): Answer {
    if a.Sentences? then Sentences(prefix + a.list) else a
  }

  /** The do loop of getSentences from pos on. */
  function ReadRange(doc: string, pos: nat, end: nat): Answer
    requires pos <= |doc|
    decreases |doc| - pos
  {
    if pos == |doc| then NoSuchLine
    else
      var line := LineAt(doc, pos);
      if IsAnchor(line) && ParseSentence(line).None? then BadLine
      else
        var here := if IsAnchor(line) then [ParseSentence(line).value] else [];
        if pos < end then Prepend(here, ReadRange(doc, NextLine(doc, pos), end))
        else if pos != end then UnexpectedPosition
        else Sentences(here)
  }

  ghost predicate IsCeiling(keys: set<int>, t: int, k: int) {
    k in keys && t <= k && forall j :: j in keys && t <= j ==> k <= j
  }

  ghost predicate IsFloor(keys: set<int>, t: int, k: int) {
    k in keys && k <= t && forall j :: j in keys && j <= t ==> j <= k
  }

  predicate HasAtOrAfter(keys: set<int>, t: int) { exists j :: j in keys && t <= j }
  predicate HasAtOrBefore(keys: set<int>, t: int) { exists j :: j in keys && j <= t }

  /** What getSentences answers, given the keys it settles on. */
  ghost predicate IsAnswer(doc: string, index: map<int, nat>, start: int, end: int, a: Answer)
    requires forall k :: k in index ==> index[k] < |doc|
  {
    if start > end then a == BadRange
    else if !HasAtOrAfter(index.Keys, start) || !HasAtOrBefore(index.Keys, end) then a == NoSuchLine
    else exists k, l :: IsCeiling(index.Keys, start, k) && IsFloor(index.Keys, end, l)
                        && a == ReadRange(doc, index[k], index[l])
  }

  predicate Ascending(s: seq<int>) { forall i, j :: 0 <= i < j < |s| ==> s[i] < s[j] }

  class CaptionFile {
    const document: string
    var filePointer: nat
    var index: map<int, nat>
    var sortedKeys: Option<seq<int>>

    ghost predicate Valid()
      reads this
    {
      && filePointer <= |document|
      && IndexOfLines(Lines(document, 0)) == Some(index)
      && (forall k :: k in index ==> index[k] < |document|)
      && (sortedKeys.Some? ==> Ascending(sortedKeys.value) && forall k :: k in sortedKeys.value <==> k in index)
    }

    constructor (doc: string)
      ensures document == doc && filePointer == 0 && sortedKeys == None
    {
      document := doc;
      filePointer, index, sortedKeys := 0, map[], None;
    }

    method Seek(pos: nat)
      requires pos <= |document|
      modifies `filePointer
      ensures filePointer == pos
    {
      filePointer := pos;
    }

    /** None is null at the end of the file. */
    method ReadLine() returns (line: Option<string>)
      requires filePointer <= |document|
      modifies `filePointer
      ensures filePointer <= |document|
      ensures line == if old(filePointer) == |document| then None else Some(LineAt(document, old(filePointer)))
      ensures filePointer == if old(filePointer) == |document| then |document| else NextLine(document, old(filePointer))
    {
      var start := filePointer;
      if start == |document| {
        return None;
      }
      var e := start;
      while e < |document| && document[e] != '\n' && document[e] != '\r'
        invariant start <= e <= |document|
        invariant LineEnd(document, e) == LineEnd(document, start)
      {
        e := e + 1;
      }
      if e == |document| {
        filePointer := e;
      } else if document[e] == '\r' && e + 1 < |document| && document[e + 1] == '\n' {
        filePointer := e + 2;
      } else {
        filePointer := e + 1;
      }
      line := Some(document[start..e]);
    }

    /** ok is false when the method ends with an exception. */
    method CreateIndex() returns (ok: bool)
      modifies `filePointer, `index
      ensures filePointer <= |document|
      ensures ok <==> IndexOfLines(Lines(document, 0)).Some?
      ensures ok ==> IndexOfLines(Lines(document, 0)) == Some(index)
      ensures ok ==> forall k :: k in index ==> index[k] < |document|
    {
      hide LineEnd, Timestamp, IsAnchor, Lines, LineAt, NextLine, IndexOfLines;
      index := map[];
      var position := 0;
      ghost var all := Lines(document, 0);
      ghost var n := 0;
      Seek(position);
      assert all[..0] == [] && all[0..] == all;
      assert IndexOfLines([]) == Some(map[]) by { NoLines(); }
      LinesEnd(document);
      var line := ReadLine();
      while line.Some?
        invariant position <= |document| && filePointer <= |document| && 0 <= n <= |all|
        invariant line.Some? <==> position < |document|
        invariant line.Some? ==> line.value == LineAt(document, position) && filePointer == NextLine(document, position)
        invariant all[n..] == Lines(document, position)
        invariant IndexOfLines(all[..n]) == Some(index)
        invariant forall k :: k in index ==> index[k] < |document|
        decreases |document| - position
      {
        LinesStep(document, position);
        assert all[n] == all[n..][0] && all[n + 1..] == all[n..][1..];
        IndexStep(all, n, index);
        if IsAnchor(line.value) {
          var t := Timestamp(line.value);
          if t.None? {
            IndexFails(all, n + 1);
            return false;
          }
          index := index[t.value := position];
        }
        position := filePointer;
        n := n + 1;
        line := ReadLine();
      }
      assert all[..n] == all;
      ok := true;
    }

    /** new ArrayList(index.keySet()) and Collections.sort, cached. */
    method SortKeys() returns (keys: seq<int>)
      requires Valid()
      modifies `sortedKeys
      ensures Valid() && sortedKeys == Some(keys)
    {
      if sortedKeys.Some? {
        return sortedKeys.value;
      }
      hide IndexOfLines, Lines;
      keys := [];
      var rest := index.Keys;
      while rest != {}
        invariant Ascending(keys) && rest <= index.Keys
        invariant forall k :: k in index <==> k in keys || k in rest
        invariant forall i, k :: 0 <= i < |keys| && k in rest ==> keys[i] < k
      {
        ghost var some := HasLeast(rest);
        var least :| least in rest && IsLeast(rest, least);
        AfterLeast(rest, least);
        keys := keys + [least];
        rest := rest - {least};
      }
      sortedKeys := Some(keys);
    }

    method Ceiling(t: int) returns (k: Option<int>)
      requires Valid()
      modifies `sortedKeys
      ensures Valid()
      ensures k.Some? <==> HasAtOrAfter(index.Keys, t)
      ensures k.Some? ==> IsCeiling(index.Keys, t, k.value)
    {
      hide IndexOfLines, Lines;
      if t in index {
        return Some(t);
      }
      var keys := SortKeys();
      var i := 0;
      while i < |keys|
        invariant 0 <= i <= |keys| && forall j :: 0 <= j < i ==> keys[j] <= t
      {
        if keys[i] > t {
          assert keys[i] in index.Keys && forall j :: j in keys && t <= j ==> keys[i] <= j;
          return Some(keys[i]);
        }
        i := i + 1;
      }
      k := None;
    }

    method Floor(t: int) returns (k: Option<int>)
      requires Valid()
      modifies `sortedKeys
      ensures Valid()
      ensures k.Some? <==> HasAtOrBefore(index.Keys, t)
      ensures k.Some? ==> IsFloor(index.Keys, t, k.value)
    {
      hide IndexOfLines, Lines;
      if t in index {
        return Some(t);
      }
      var keys := SortKeys();
      var i := |keys| - 1;
      while i >= 0
        invariant -1 <= i < |keys| && forall j :: i < j < |keys| ==> keys[j] >= t
      {
        if keys[i] < t {
          assert keys[i] in index.Keys && forall j :: j in keys && j <= t ==> j <= keys[i];
          return Some(keys[i]);
        }
        i := i - 1;
      }
      k := None;
    }

    method GetSentences(startTimestamp: int, endTimestamp: int) returns (a: Answer)
      requires Valid()
      modifies this
      ensures Valid() && index == old(index)
      ensures IsAnswer(document, index, startTimestamp, endTimestamp, a)
    {
      hide IndexOfLines, Lines, LineEnd, ParseSentence, IsAnchor, NextLine, LineAt;
      if startTimestamp > endTimestamp {
        return BadRange;
      }
      var first := Ceiling(startTimestamp);
      if first.None? {
        return NoSuchLine;
      }
      var position := index[first.value];
      var last := Floor(endTimestamp);
      if last.None? {
        return NoSuchLine;
      }
      var endLinePosition := index[last.value];
      a := ReadSentences(position, endLinePosition);
    }

    method ReadSentences(start: nat, endLinePosition: nat) returns (a: Answer)
      requires start < |document| && filePointer <= |document|
      modifies `filePointer
      ensures filePointer <= |document|
      ensures a == ReadRange(document, start, endLinePosition)
    {
      hide LineEnd, ParseSentence, IsAnchor, LineAt;
      var sentences: seq<string> := [];
      var position := start;
      Seek(position);
      var lastPosition := position;
      ghost var goal := ReadRange(document, start, endLinePosition);
      var more := true;
      while more
        invariant position == filePointer <= |document|
        invariant more ==> Prepend(sentences, ReadRange(document, position, endLinePosition)) == goal
        invariant !more ==> lastPosition >= endLinePosition
        invariant !more ==>
          goal == (if lastPosition == endLinePosition then Sentences(sentences) else UnexpectedPosition)
        decreases more, |document| - position
      {
        lastPosition := position;
        var line := ReadLine();
        if line.None? {
          return NoSuchLine;
        }
        ghost var before, rest := sentences, ReadRange(document, filePointer, endLinePosition);
        if IsAnchor(line.value) {
          var s := ParseSentence(line.value);
          if s.None? {
            return BadLine;
          }
          PrependTwice(sentences, [s.value], rest);
          sentences := sentences + [s.value];
        } else {
          PrependTwice(sentences, [], rest);
          assert sentences + [] == sentences;
        }
        position := filePointer;
        more := lastPosition < endLinePosition;
      }
      if lastPosition != endLinePosition {
        return UnexpectedPosition;
      }
      a := Sentences(sentences);
    }

    /** The null of getSentence for an unknown timestamp is Sentences([]). */
    method GetSentence(timestamp: int) returns (a: Answer)
      requires Valid()
      modifies `filePointer
      ensures Valid()
      ensures a == if timestamp !in index then Sentences([])
                   else match ParseSentence(LineAt(document, index[timestamp]))
                     case None => BadLine
                     case Some(s) => Sentences([s])
    {
      hide IndexOfLines, Lines;
      if timestamp !in index {
        return Sentences([]);
      }
      Seek(index[timestamp]);
      var line := ReadLine();
      var s := ParseSentence(line.value);
      a := if s.None? then BadLine else Sentences([s.value]);
    }
  }

  lemma {:induction false} PrependTwice(x: seq<string>, y: seq<string>, a: Answer)
    ensures Prepend(x, Prepend(y, a)) == Prepend(x + y, a)
  {
    if a.Sentences? { assert x + (y + a.list) == x + y + a.list; }
  }

  predicate IsLeast(s: set<int>, x: int) { x in s && forall k :: k in s ==> x <= k }

  lemma {:induction false} Pick<T>(s: set<T>) returns (x: T)
    requires s != {}
    ensures x in s
  {
    x :| x in s;
  }

  lemma {:induction false} HasLeast(s: set<int>) returns (least: int)
    requires s != {}
    ensures IsLeast(s, least)
  {
    var x := Pick(s);
    var rest := s - {x};
    assert s == rest + {x};
    least := x;
    if rest != {} {
      var y := HasLeast(rest);
      least := if x < y then x else y;
    }
  }

  lemma {:induction false} AfterLeast(s: set<int>, least: int)
    requires IsLeast(s, least)
    ensures forall k :: k in s - {least} ==> least < k
    ensures forall k :: k in s <==> k == least || k in s - {least}
  {
  }

  lemma {:induction false} LinesStep(doc: string, pos: nat)
    requires pos < |doc|
    ensures var l := Lines(doc, pos);
      l != [] && l[0] == Line(pos, LineAt(doc, pos)) && l[1..] == Lines(doc, NextLine(doc, pos))
  {}

  lemma {:induction false} NoLines()
    ensures IndexOfLines([]) == Some(map[])
  {}

  lemma {:induction false} LinesEnd(doc: string)
    ensures Lines(doc, |doc|) == []
  {}

  /** One more line, when the index so far is m. */
  lemma {:induction false} IndexStep(lines: seq<Line>, n: nat, m: map<int, nat>)
    requires n < |lines| && IndexOfLines(lines[..n]) == Some(m)
    ensures IndexOfLines(lines[..n + 1]) ==
      if !IsAnchor(lines[n].text) then Some(m)
      else match Timestamp(lines[n].text)
        case None => None
        case Some(t) => Some(m[t := lines[n].pos])
  {
    hide IsAnchor, Timestamp;
    assert lines[..n + 1][..n] == lines[..n];
  }

  /** Once an anchor fails, so does every longer list of lines. */
  lemma {:induction false} IndexFails(lines: seq<Line>, n: nat)
    requires n <= |lines| && IndexOfLines(lines[..n]).None?
    ensures IndexOfLines(lines).None?
  {
    hide Timestamp, IsAnchor;
    if n < |lines| {
      assert lines[..|lines| - 1][..n] == lines[..n];
      IndexFails(lines[..|lines| - 1], n);
    } else {
      assert lines[..n] == lines;
    }
  }
}
