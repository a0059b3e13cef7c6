/** The indexed range query answers what a scan of the whole document would. */
module CaptionFileTheorems {
  import opened Text
  import opened CaptionFiles

  predicate Stamped(l: Line) { IsAnchor(l.text) && Timestamp(l.text).Some? }

  function Stamp(l: Line): int
    requires Stamped(l)
  {
    Timestamp(l.text).value
  }

  /** Every anchor has a timestamp, and timestamps strictly increase. */
  predicate Increasing(lines: seq<Line>) {
    && (forall i :: 0 <= i < |lines| && IsAnchor(lines[i].text) ==> Stamped(lines[i]))
    && (forall i, j :: 0 <= i < j < |lines| && Stamped(lines[i]) && Stamped(lines[j]) ==>
          Stamp(lines[i]) < Stamp(lines[j]))
  }

  predicate InRange(l: Line, start: int, end: int) { Stamped(l) && start <= Stamp(l) <= end }

  /** The reference: look at every line. */
  function Scan(lines: seq<Line>, start: int, end: int): Answer {
    if lines == [] then Sentences([])
    else if !InRange(lines[0], start, end) then Scan(lines[1..], start, end)
    else if ParseSentence(lines[0].text).None? then BadLine
    else Prepend([ParseSentence(lines[0].text).value], Scan(lines[1..], start, end))
  }

  /** All anchors of the lines, parsed. */
  function ReadAll(lines: seq<Line>): Answer {
    if lines == [] then Sentences([])
    else if !IsAnchor(lines[0].text) then ReadAll(lines[1..])
    else if ParseSentence(lines[0].text).None? then BadLine
    else Prepend([ParseSentence(lines[0].text).value], ReadAll(lines[1..]))
  }

  // ---------- lines and positions ----------

  lemma {:induction false} LinesFrom(doc: string, pos: nat, i: nat)
    requires pos <= |doc| && i < |Lines(doc, pos)|
    ensures var l := Lines(doc, pos)[i];
      l.pos < |doc| && pos <= l.pos && l.text == LineAt(doc, l.pos) && Lines(doc, pos)[i..] == Lines(doc, l.pos)
    ensures i > 0 ==> pos < Lines(doc, pos)[i].pos
    decreases i
  {
    hide LineAt, NextLine;
    var all := Lines(doc, pos);
    if i > 0 {
      LinesFrom(doc, NextLine(doc, pos), i - 1);
      assert all[i] == Lines(doc, NextLine(doc, pos))[i - 1];
      assert all[i..] == Lines(doc, NextLine(doc, pos))[i - 1..];
    } else {
      assert all[0..] == all;
    }
  }

  /** Line i+1 starts where reading line i leaves off. */
  lemma {:induction false} NextInLines(doc: string, i: nat)
    requires i + 1 < |Lines(doc, 0)|
    ensures var all := Lines(doc, 0); all[i].pos < |doc| && all[i + 1].pos == NextLine(doc, all[i].pos)
  {
    hide LineAt, NextLine;
    var all := Lines(doc, 0);
    LinesFrom(doc, 0, i);
    var rest := Lines(doc, all[i].pos);
    assert rest == all[i..] && rest[1] == all[i + 1];
    LinesStep(doc, all[i].pos);
    var tail := Lines(doc, NextLine(doc, all[i].pos));
    assert tail == rest[1..] && tail[0] == rest[1];
    LinesFrom(doc, NextLine(doc, all[i].pos), 0);
  }

  lemma {:induction false} PositionsIncrease(doc: string, i: nat, j: nat)
    requires i < j < |Lines(doc, 0)|
    ensures Lines(doc, 0)[i].pos < Lines(doc, 0)[j].pos
  {
    hide LineAt, NextLine;
    var all := Lines(doc, 0);
    LinesFrom(doc, 0, i);
    assert all[i..][j - i] == all[j];
    LinesFrom(doc, all[i].pos, j - i);
  }

  /** Reading from one line's position to another's reads the lines in between. */
  lemma {:induction false} ReadRangeIsReadAll(doc: string, i: nat, j: nat)
    requires i <= j < |Lines(doc, 0)|
    ensures var all := Lines(doc, 0);
      all[i].pos < |doc| && ReadRange(doc, all[i].pos, all[j].pos) == ReadAll(all[i..j + 1])
    decreases j - i
  {
    hide Lines, LineAt, NextLine, IsAnchor, ParseSentence;
    var all := Lines(doc, 0);
    LinesFrom(doc, 0, i);
    var part := all[i..j + 1];
    assert part[0] == all[i] && part[1..] == all[i + 1..j + 1];
    if i < j {
      PositionsIncrease(doc, i, j);
      NextInLines(doc, i);
      ReadRangeIsReadAll(doc, i + 1, j);
    } else {
      assert part[1..] == [];
      assert ReadAll([]) == Sentences([]) by { ReadNothing(); }
      if IsAnchor(all[i].text) && ParseSentence(all[i].text).Some? {
        var s := ParseSentence(all[i].text).value;
        assert [s] + [] == [s];
      }
    }
  }

  lemma {:induction false} ReadNothing()
    ensures ReadAll([]) == Sentences([])
  {}

  // ---------- the index ----------

  lemma {:induction false} IndexFacts(lines: seq<Line>, m: map<int, nat>)
    requires Increasing(lines) && IndexOfLines(lines) == Some(m)
    ensures forall i :: 0 <= i < |lines| && Stamped(lines[i]) ==>
      Stamp(lines[i]) in m && m[Stamp(lines[i])] == lines[i].pos
    ensures forall k :: k in m ==> exists i :: 0 <= i < |lines| && Stamped(lines[i]) && Stamp(lines[i]) == k
  {
    hide IsAnchor, Timestamp;
    if lines != [] {
      var n := |lines| - 1;
      var init := lines[..n];
      var m0 := IndexOfLines(init).value;
      assert forall i :: 0 <= i < n ==> init[i] == lines[i];
      IndexFacts(init, m0);
      forall k | k in m ensures exists i :: 0 <= i < |lines| && Stamped(lines[i]) && Stamp(lines[i]) == k {
        if k in m0 {
          var i :| 0 <= i < n && Stamped(init[i]) && Stamp(init[i]) == k;
          assert Stamped(lines[i]) && Stamp(lines[i]) == k;
        } else {
          assert Stamped(lines[n]) && Stamp(lines[n]) == k;
        }
      }
    }
  }

  // ---------- scanning ----------

  lemma {:induction false} ScanSkip(x: seq<Line>, y: seq<Line>, start: int, end: int)
    requires forall i :: 0 <= i < |x| ==> !InRange(x[i], start, end)
    ensures Scan(x + y, start, end) == Scan(y, start, end)
  {
    hide InRange, ParseSentence;
    if x == [] {
      assert x + y == y;
    } else {
      assert (x + y)[0] == x[0] && (x + y)[1..] == x[1..] + y;
      ScanSkip(x[1..], y, start, end);
    }
  }

  lemma {:induction false} ScanStop(x: seq<Line>, y: seq<Line>, start: int, end: int)
    requires forall i :: 0 <= i < |y| ==> !InRange(y[i], start, end)
    ensures Scan(x + y, start, end) == Scan(x, start, end)
  {
    hide InRange, ParseSentence;
    if x == [] {
      assert x + y == y && y + [] == y;
      ScanSkip(y, [], start, end);
    } else {
      assert (x + y)[0] == x[0] && (x + y)[1..] == x[1..] + y;
      ScanStop(x[1..], y, start, end);
    }
  }

  lemma {:induction false} ScanAll(x: seq<Line>, start: int, end: int)
    requires forall i :: 0 <= i < |x| ==> (IsAnchor(x[i].text) <==> InRange(x[i], start, end))
    ensures Scan(x, start, end) == ReadAll(x)
  {
    hide InRange, ParseSentence, IsAnchor;
    if x != [] { ScanAll(x[1..], start, end); }
  }

  // ---------- the theorem ----------

  /** Line i carries the least timestamp at or after start. */
  lemma {:induction false} CeilingLine(lines: seq<Line>, m: map<int, nat>, start: int, k: int) returns (i: nat)
    requires Increasing(lines) && IndexOfLines(lines) == Some(m) && IsCeiling(m.Keys, start, k)
    ensures i < |lines| && Stamped(lines[i]) && Stamp(lines[i]) == k && m[k] == lines[i].pos
    ensures forall j :: 0 <= j < i && Stamped(lines[j]) ==> Stamp(lines[j]) < start
    ensures forall j :: i <= j < |lines| && Stamped(lines[j]) ==> start <= Stamp(lines[j])
  {
    hide IsAnchor, Timestamp, IndexOfLines;
    IndexFacts(lines, m);
    i :| 0 <= i < |lines| && Stamped(lines[i]) && Stamp(lines[i]) == k;
    forall j | 0 <= j < i && Stamped(lines[j]) ensures Stamp(lines[j]) < start {
      assert Stamp(lines[j]) in m.Keys && Stamp(lines[j]) < k;
    }
  }

  lemma {:induction false} FloorLine(lines: seq<Line>, m: map<int, nat>, end: int, k: int) returns (i: nat)
    requires Increasing(lines) && IndexOfLines(lines) == Some(m) && IsFloor(m.Keys, end, k)
    ensures i < |lines| && Stamped(lines[i]) && Stamp(lines[i]) == k && m[k] == lines[i].pos
    ensures forall j :: i < j < |lines| && Stamped(lines[j]) ==> end < Stamp(lines[j])
    ensures forall j :: 0 <= j <= i && Stamped(lines[j]) ==> Stamp(lines[j]) <= end
  {
    hide IsAnchor, Timestamp, IndexOfLines;
    IndexFacts(lines, m);
    i :| 0 <= i < |lines| && Stamped(lines[i]) && Stamp(lines[i]) == k;
    forall j | i < j < |lines| && Stamped(lines[j]) ensures end < Stamp(lines[j]) {
      assert Stamp(lines[j]) in m.Keys && k < Stamp(lines[j]);
    }
  }

  /** Reading between the two lines found is scanning everything. */
  lemma {:induction false} BetweenIsScan(doc: string, i: nat, j: nat, start: int, end: int)
    requires i <= j < |Lines(doc, 0)|
    requires var all := Lines(doc, 0);
      && (forall k :: 0 <= k < i ==> !InRange(all[k], start, end))
      && (forall k :: j < k < |all| ==> !InRange(all[k], start, end))
      && (forall k :: i <= k <= j ==> (IsAnchor(all[k].text) <==> InRange(all[k], start, end)))
    ensures Lines(doc, 0)[i].pos < |doc|
    ensures ReadRange(doc, Lines(doc, 0)[i].pos, Lines(doc, 0)[j].pos) == Scan(Lines(doc, 0), start, end)
  {
    hide Lines, InRange, IsAnchor, ReadRange, Scan, ReadAll;
    var all := Lines(doc, 0);
    var x, y, z := all[..i], all[i..j + 1], all[j + 1..];
    assert all == x + (y + z);
    ScanSkip(x, y + z, start, end);
    ScanStop(y, z, start, end);
    ScanAll(y, start, end);
    ReadRangeIsReadAll(doc, i, j);
  }

  ghost predicate SomeInRange(lines: seq<Line>, start: int, end: int) {
    exists i :: 0 <= i < |lines| && InRange(lines[i], start, end)
  }

  /** An anchor that parseSentence fails on. */
  predicate Unreadable(line: string) { IsAnchor(line) && ParseSentence(line).None? }

  ghost predicate SomeAtOrAfter(lines: seq<Line>, t: int) {
    exists i :: 0 <= i < |lines| && Stamped(lines[i]) && t <= Stamp(lines[i])
  }

  ghost predicate SomeAtOrBefore(lines: seq<Line>, t: int) {
    exists i :: 0 <= i < |lines| && Stamped(lines[i]) && Stamp(lines[i]) <= t
  }

  lemma {:induction false} KeysAreStamps(lines: seq<Line>, m: map<int, nat>, t: int)
    requires Increasing(lines) && IndexOfLines(lines) == Some(m)
    ensures HasAtOrAfter(m.Keys, t) <==> SomeAtOrAfter(lines, t)
    ensures HasAtOrBefore(m.Keys, t) <==> SomeAtOrBefore(lines, t)
  {
    hide IsAnchor, Timestamp, IndexOfLines, Increasing;
    IndexFacts(lines, m);
    if SomeAtOrAfter(lines, t) {
      var i :| 0 <= i < |lines| && Stamped(lines[i]) && t <= Stamp(lines[i]);
      assert Stamp(lines[i]) in m.Keys;
    }
    if SomeAtOrBefore(lines, t) {
      var i :| 0 <= i < |lines| && Stamped(lines[i]) && Stamp(lines[i]) <= t;
      assert Stamp(lines[i]) in m.Keys;
    }
  }

  /**
   * What getSentences answers on a document with increasing timestamps: with a timestamp in the range
   * exactly the scan of the document, which is never the unexpected-position error; with none, a
   * null dereference if the range is beyond either end, and an error if it falls between two anchors.
   */
  lemma {:induction false} RangeQuery(doc: string, m: map<int, nat>, start: int, end: int, a: Answer)
    requires IndexOfLines(Lines(doc, 0)) == Some(m) && Increasing(Lines(doc, 0))
    requires forall k :: k in m ==> m[k] < |doc|
    ensures IsAnswer(doc, m, start, end, a) ==>
      var all := Lines(doc, 0);
      if start > end then a == BadRange
      else if SomeInRange(all, start, end) then a == Scan(all, start, end)
      else if !SomeAtOrAfter(all, start) || !SomeAtOrBefore(all, end) then a == NoSuchLine
      else a == UnexpectedPosition || (a == BadLine && exists i :: 0 <= i < |all| && Unreadable(all[i].text))
  {
    hide Lines, IsAnchor, Timestamp, IndexOfLines, ReadRange, Scan, Increasing, InRange, Unreadable;
    var all := Lines(doc, 0);
    KeysAreStamps(all, m, start);
    KeysAreStamps(all, m, end);
    if start <= end && SomeInRange(all, start, end) { InRangeIsBoth(all, start, end); }
    if IsAnswer(doc, m, start, end, a) && start <= end && SomeAtOrAfter(all, start) && SomeAtOrBefore(all, end) {
      var k, l :| IsCeiling(m.Keys, start, k) && IsFloor(m.Keys, end, l) && a == ReadRange(doc, m[k], m[l]);
      var i := CeilingLine(all, m, start, k);
      var j := FloorLine(all, m, end, l);
      if SomeInRange(all, start, end) {
        BothEnds(all, start, end, i, j);
        BetweenIsScan(doc, i, j, start, end);
      } else {
        assert i > j by { EmptyRange(all, start, end, i, j); }
        PositionsIncrease(doc, j, i);
        LinesFrom(doc, 0, i);
        BackwardsFails(doc, m[k], m[l]);
      }
    }
  }

  lemma {:induction false} InRangeIsBoth(lines: seq<Line>, start: int, end: int)
    requires SomeInRange(lines, start, end)
    ensures SomeAtOrAfter(lines, start) && SomeAtOrBefore(lines, end)
  {
    hide IsAnchor, Timestamp;
  }

  lemma {:induction false} BothEnds(lines: seq<Line>, start: int, end: int, i: nat, j: nat)
    requires Increasing(lines) && SomeInRange(lines, start, end) && i < |lines| && j < |lines|
    requires forall k :: 0 <= k < i && Stamped(lines[k]) ==> Stamp(lines[k]) < start
    requires forall k :: i <= k < |lines| && Stamped(lines[k]) ==> start <= Stamp(lines[k])
    requires forall k :: j < k < |lines| && Stamped(lines[k]) ==> end < Stamp(lines[k])
    requires forall k :: 0 <= k <= j && Stamped(lines[k]) ==> Stamp(lines[k]) <= end
    ensures i <= j
    ensures forall k :: 0 <= k < i ==> !InRange(lines[k], start, end)
    ensures forall k :: j < k < |lines| ==> !InRange(lines[k], start, end)
    ensures forall k :: i <= k <= j ==> (IsAnchor(lines[k].text) <==> InRange(lines[k], start, end))
  {
    hide IsAnchor, Timestamp;
    var n :| 0 <= n < |lines| && InRange(lines[n], start, end);
    assert i <= n <= j;
  }

  lemma {:induction false} EmptyRange(lines: seq<Line>, start: int, end: int, i: nat, j: nat)
    requires Increasing(lines) && !SomeInRange(lines, start, end) && i < |lines| && j < |lines|
    requires Stamped(lines[i]) && start <= Stamp(lines[i]) && Stamped(lines[j]) && Stamp(lines[j]) <= end
    requires forall k :: j < k < |lines| && Stamped(lines[k]) ==> end < Stamp(lines[k])
    requires forall k :: 0 <= k <= j && Stamped(lines[k]) ==> Stamp(lines[k]) <= end
    ensures i > j
  {
    hide IsAnchor, Timestamp;
    assert !InRange(lines[i], start, end);
  }

  /** Starting past the end position reads one line and gives up. */
  lemma {:induction false} BackwardsFails(doc: string, pos: nat, end: nat)
    requires end < pos < |doc|
    ensures ReadRange(doc, pos, end) == if Unreadable(LineAt(doc, pos)) then BadLine else UnexpectedPosition
  {
    hide LineAt, ParseSentence, IsAnchor;
  }

  /** A scan never ends in the unexpected-position error. */
  lemma {:induction false} ScanIsSentencesOrBadLine(lines: seq<Line>, start: int, end: int)
    ensures Scan(lines, start, end).Sentences? || Scan(lines, start, end).BadLine?
  {
    hide InRange, ParseSentence;
    if lines != [] { ScanIsSentencesOrBadLine(lines[1..], start, end); }
  }
}
