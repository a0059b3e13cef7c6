/** What sentence splitting promises over whole runs. */
module SentenceTheorems {
  import opened Text
  import opened Sentences

  // ---------- the string predicates are the regular expressions ----------

  /** s[start..end] matches [.?!]+"? +[^ ] with the quote at p (if q > p) and the spaces from q on. */
  predicate MidlineMatchVia(s: string, start: int, end: int, p: int, q: int) {
    var r := end - 1;
    && 0 <= start < p <= q < r < |s|
    && (forall k :: start <= k < p ==> IsStop(s[k]))
    && (q == p || (q == p + 1 && s[p] == '"'))
    && (forall k :: q <= k < r ==> s[k] == ' ')
    && s[r] != ' '
  }

  ghost predicate MidlineMatch(s: string, start: int, end: int) {
    exists p, q :: MidlineMatchVia(s, start, end, p, q)
  }

  lemma {:induction false} MatchIsCut(s: string, start: int, end: int)
    requires MidlineMatch(s, start, end)
    ensures IsCut(s, end - 1)
  {
    var p, q :| MidlineMatchVia(s, start, end, p, q);
    var t := StripSpaces(s[..end - 1]);
    assert s[..end - 1][q - 1] != ' ';
    assert forall k :: 0 <= k < |t| ==> t[k] == s[k];
    assert |t| == q;
  }

  lemma {:induction false} CutIsMatch(s: string, c: int) returns (start: int)
    requires IsCut(s, c)
    ensures start < c && MidlineMatch(s, start, c + 1)
  {
    var t := StripSpaces(s[..c]);
    assert forall k :: |t| <= k < c ==> s[..c][k] == s[k] == ' ';
    assert forall k :: 0 <= k < |t| ==> t[k] == s[k];
    if IsStop(t[|t| - 1]) {
      start := |t| - 1;
      assert MidlineMatchVia(s, start, c + 1, |t|, |t|);
    } else {
      start := |t| - 2;
      assert MidlineMatchVia(s, start, c + 1, |t| - 1, |t|);
    }
  }

  /** Matcher.find() takes the leftmost match; MidlineCut is where that match ends. */
  lemma {:induction false} MidlineCutIsFind(s: string, start: int, end: int)
    requires MidlineMatch(s, start, end)
    requires forall i, e :: MidlineMatch(s, i, e) ==> start <= i
    ensures MidlineCut(s) == end - 1
  {
    MatchIsCut(s, start, end);
    var c := MidlineCut(s);
    var i := CutIsMatch(s, c);
    var p, q :| MidlineMatchVia(s, start, end, p, q);
    // between start and end a space is followed only by spaces
    assert forall k :: start < k < end - 1 && s[k - 1] == ' ' ==> s[k] == ' ';
  }

  lemma {:induction false} NoCutIsNoFind(s: string)
    ensures MidlineCut(s) < 0 <==> !exists start, end :: MidlineMatch(s, start, end)
  {
    if MidlineCut(s) >= 0 {
      var start := CutIsMatch(s, MidlineCut(s));
    } else if exists start, end :: MidlineMatch(s, start, end) {
      var start, end :| MidlineMatch(s, start, end);
      MatchIsCut(s, start, end);
    }
  }

  /** s[start..] matches [.?!]+"? *$, with the quote at p (if q > p) and the spaces from q on to end. */
  predicate FinalMatchVia(s: string, start: int, p: int, q: int, end: int) {
    && 0 <= start < p <= q <= end <= |s|
    && (forall k :: start <= k < p ==> IsStop(s[k]))
    && (q == p || (q == p + 1 && s[p] == '"'))
    && (forall k :: q <= k < end ==> s[k] == ' ')
    && (end == |s| || (end == |s| - 1 && IsLineTerminator(s[end])))
  }

  lemma {:induction false} FinalMatchIsStop(s: string, start: int, p: int, q: int, end: int)
    requires FinalMatchVia(s, start, p, q, end)
    ensures EndsInStop(StripSpaces(s[..end]))
  {
    var t := StripSpaces(s[..end]);
    assert s[..end][q - 1] != ' ';
    assert forall k :: 0 <= k < |t| ==> t[k] == s[k];
    assert |t| == q;
  }

  lemma {:induction false} StopIsFinalMatch(s: string, end: int) returns (start: int, p: int, q: int)
    requires 0 <= end <= |s| && EndsInStop(StripSpaces(s[..end]))
    requires end == |s| || (end == |s| - 1 && IsLineTerminator(s[end]))
    ensures FinalMatchVia(s, start, p, q, end)
  {
    var t := StripSpaces(s[..end]);
    assert forall k :: |t| <= k < end ==> s[..end][k] == s[k] == ' ';
    assert forall k :: 0 <= k < |t| ==> t[k] == s[k];
    q := |t|;
    p := if IsStop(t[|t| - 1]) then q else q - 1;
    start := p - 1;
  }

  /** endofline.matcher(s).find(), where $ also stands before a final line terminator. */
  lemma {:induction false} EndOfLineIsFind(s: string)
    ensures EndOfLine(s) <==> exists start, p, q, end :: FinalMatchVia(s, start, p, q, end)
  {
    hide EndsInStop, StripSpaces, IsLineTerminator;
    assert s[..|s|] == s;
    if exists start, p, q, end :: FinalMatchVia(s, start, p, q, end) {
      var start, p, q, end :| FinalMatchVia(s, start, p, q, end);
      FinalMatchIsStop(s, start, p, q, end);
    }
    if EndsInStop(StripSpaces(s)) {
      var start, p, q := StopIsFinalMatch(s, |s|);
    } else if EndOfLine(s) {
      var start, p, q := StopIsFinalMatch(s, |s| - 1);
    }
  }

  // ---------- line-break invariance ----------

  predicate NoChevron(s: string) {
    forall k :: 0 <= k && k + 1 < |s| ==> !(s[k] == '>' && s[k + 1] == '>')
  }

  /** Trimmed, not empty, without control characters, ':' or ">>". */
  predicate Plain(s: string) {
    && s != "" && s[0] > ' ' && s[|s| - 1] > ' ' && !IsLineTerminator(s[|s| - 1])
    && (forall k :: 0 <= k < |s| ==> !IsControl(s[k]) && s[k] != ':')
    && NoChevron(s)
  }

  lemma {:induction false} StripConcat(x: string, y: string)
    ensures StripSpaces(x + y) == if StripSpaces(y) == "" then StripSpaces(x) else x + StripSpaces(y)
  {
    if y == "" {
      assert x + y == x;
    } else if y[|y| - 1] == ' ' {
      assert (x + y)[..|x + y| - 1] == x + y[..|y| - 1];
      StripConcat(x, y[..|y| - 1]);
    }
  }

  lemma {:induction false} CutInPrefix(a: string, t: string, c: int)
    requires c < |a|
    ensures IsCut(a + t, c) == IsCut(a, c)
  {
    if 0 < c { assert (a + t)[..c] == a[..c]; }
  }

  /** Past a line break, the cuts are the break itself (after a stop) and those of the second line. */
  lemma {:induction false} CutPastBreak(a: string, b: string, c: int)
    requires Plain(a) && Plain(b) && |a| <= c
    ensures c <= |a| ==> !IsCut(a + " " + b, c)
    ensures c == |a| + 1 ==> IsCut(a + " " + b, c) == EndsInStop(a)
    ensures c > |a| + 1 ==> IsCut(a + " " + b, c) == IsCut(b, c - |a| - 1)
  {
    hide StripSpaces, IsControl;
    var s := a + " " + b;
    if c == |a| + 1 {
      assert s[..c] == a + " ";
      StripConcat(a, " ");
      assert StripSpaces(" ") <= " " && StripSpaces(a) <= a;
    } else if |a| + 1 < c < |s| {
      var j := c - |a| - 1;
      assert s[..c] == (a + " ") + b[..j];
      StripConcat(a + " ", b[..j]);
      assert b[..j][0] == b[0] != ' ';
      assert s[c - 1] == b[j - 1];
    }
  }

  lemma {:induction false} PlainSuffix(s: string, c: int)
    requires Plain(s) && 0 <= c < |s| && s[c] != ' '
    ensures Plain(s[c..])
  {
    var t := s[c..];
    assert forall k :: 0 <= k < |t| ==> t[k] == s[c + k];
    assert !IsControl(s[c]);
  }

  lemma {:induction false} PlainJoin(a: string, b: string)
    requires Plain(a) && Plain(b)
    ensures Plain(a + " " + b)
  {
    var s := a + " " + b;
    forall k | 0 <= k && k + 1 < |s| ensures !(s[k] == '>' && s[k + 1] == '>') {
      if k + 1 < |a| { assert !(a[k] == '>' && a[k + 1] == '>'); }
      else if k > |a| { assert !(b[k - |a| - 1] == '>' && b[k - |a|] == '>'); }
    }
  }

  lemma {:induction false} PlainHasNoSpeaker(b: Buffer, s: string)
    requires Plain(s)
    ensures FindSpeaker(b, s) == (b, s) && CutPoint(s) == MidlineCut(s)
  {
    TrimFixed(s);
  }

  lemma {:induction false} PlainIsKept(s: string)
    requires forall k :: 0 <= k < |s| ==> !IsControl(s[k])
    ensures StripControls(s) == s
  {
    if s != "" {
      PlainIsKept(s[1..]);
      assert [s[0]] + s[1..] == s;
    }
  }

  /** A cut of a plain line leaves a plain line and only touches the buffer by resetting it. */
  lemma {:induction false} PlainCut(b: Buffer, s: string, c: int)
    requires Plain(s) && MidlineCut(s) == c >= 0
    ensures Plain(s[c..])
    ensures SplitLine(b, s) == SplitLine(ResetUnlessAbbreviation(Append(b, s[..c])), s[c..])
  {
    PlainSuffix(s, c);
    PlainHasNoSpeaker(b, s);
    PlainHasNoSpeaker(ResetUnlessAbbreviation(Append(b, s[..c])), s[c..]);
  }

  lemma {:induction false} PlainEnd(b: Buffer, s: string)
    requires Plain(s) && MidlineCut(s) < 0
    ensures SplitLine(b, s) == if EndsInStop(s) then ResetUnlessAbbreviation(Append(b, s)) else Append(b, s)
  {
    PlainHasNoSpeaker(b, s);
  }

  lemma {:induction false} CutsOfJoin(a: string, b: string)
    requires Plain(a) && Plain(b)
    ensures forall c :: c < |a| ==> IsCut(a + " " + b, c) == IsCut(a, c)
    ensures !IsCut(a + " " + b, |a|)
    ensures IsCut(a + " " + b, |a| + 1) == EndsInStop(a)
    ensures forall c :: c > |a| + 1 ==> IsCut(a + " " + b, c) == IsCut(b, c - |a| - 1)
  {
    assert a + " " + b == a + (" " + b);
    forall c | c < |a| ensures IsCut(a + " " + b, c) == IsCut(a, c) { CutInPrefix(a, " " + b, c); }
    CutPastBreak(a, b, |a|);
    CutPastBreak(a, b, |a| + 1);
    forall c | c > |a| + 1 ensures IsCut(a + " " + b, c) == IsCut(b, c - |a| - 1) { CutPastBreak(a, b, c); }
  }

  /** The first cut of a + " " + b in terms of those of a and b. */
  lemma {:induction false} CutOfJoin(a: string, b: string)
    requires Plain(a) && Plain(b)
    ensures MidlineCut(a) >= 0 ==> MidlineCut(a + " " + b) == MidlineCut(a)
    ensures MidlineCut(a) < 0 && EndsInStop(a) ==> MidlineCut(a + " " + b) == |a| + 1
    ensures MidlineCut(a) < 0 && !EndsInStop(a) ==>
      MidlineCut(a + " " + b) == if MidlineCut(b) < 0 then -1 else |a| + 1 + MidlineCut(b)
  {
    CutsOfJoin(a, b);
    if MidlineCut(a) < 0 && !EndsInStop(a) && MidlineCut(b) >= 0 {
      assert IsCut(a + " " + b, |a| + 1 + MidlineCut(b));
    }
  }

  /** Splitting "a b" is splitting a, adding the space, and splitting b. */
  lemma {:induction false} SplitAtBreak(st: Buffer, a: string, b: string)
    requires Plain(a) && Plain(b)
    ensures SplitLine(st, a + " " + b) == SplitLine(AddSpace(SplitLine(st, a)), b)
    decreases |a|
  {
    hide *;
    var s, c := a + " " + b, MidlineCut(a);
    PlainJoin(a, b);
    CutOfJoin(a, b);
    if c >= 0 {
      PlainCut(st, a, c);
      PlainCut(st, s, c);
      MidlineCutBound(a);
      assert s[..c] == a[..c] && s[c..] == a[c..] + " " + b;
      SplitAtBreak(ResetUnlessAbbreviation(Append(st, a[..c])), a[c..], b);
    } else if EndsInStop(a) {
      BreakAfterStop(st, a, b);
    } else {
      PlainEnd(st, a);
      BreakInsideSentence(st, a, b);
    }
  }

  lemma {:induction false} CutKeepsFilter(st: Buffer, s: string)
    ensures ResetUnlessAbbreviation(Append(st, s)).filter == st.filter
  {}

  /** The line ends in a stop: end of line on one side, midline on the other, agree. */
  lemma {:induction false} BreakAfterStop(st: Buffer, a: string, b: string)
    requires Plain(a) && Plain(b) && MidlineCut(a) < 0 && EndsInStop(a)
    ensures SplitLine(st, a + " " + b) == SplitLine(AddSpace(SplitLine(st, a)), b)
  {
    hide *;
    var s := a + " " + b;
    PlainJoin(a, b);
    CutOfJoin(a, b);
    PlainEnd(st, a);
    PlainCut(st, s, |a| + 1);
    assert s[..|a| + 1] == a + " " && s[|a| + 1..] == b;
    StopThenSpace(st, a);
  }

  lemma {:induction false} StopThenSpace(st: Buffer, a: string)
    requires Plain(a)
    ensures AddSpace(ResetUnlessAbbreviation(Append(st, a))) == ResetUnlessAbbreviation(Append(st, a + " "))
  {
    hide EndIsAbbreviation, Reset;
    var x, y := Append(st, a), Append(st, a + " ");
    assert y.sentence == x.sentence + " ";
    ResetIgnoresTrailingSpace(x, y);
    assert x.sentence[|x.sentence| - 1] != ' ';
    assert Reset(x).sentence == "" by { ResetEmpties(x); }
  }

  lemma {:induction false} ResetEmpties(b: Buffer)
    ensures Reset(b).sentence == ""
  {}

  lemma {:induction false} ResetIgnoresTrailingSpace(x: Buffer, y: Buffer)
    requires y == x.(sentence := x.sentence + " ")
    ensures Reset(y) == Reset(x) && EndIsAbbreviation(x.sentence) == EndIsAbbreviation(y.sentence)
  {
    hide Trim, RemoveSoundEffects, IsListed, LastIndexOf, IsLetter;
    TrimTrailingSpace(x.sentence);
    EffectsBeforeSpace(x.sentence);
    TrimTrailingSpace(RemoveSoundEffects(x.sentence));
  }

  lemma {:induction false} FirstBeforeSpace(s: string, p: char -> bool)
    requires !p(' ')
    ensures FirstWhere(s + " ", p) == if FirstWhere(s, p) < |s| then FirstWhere(s, p) else |s| + 1
  {
    hide FirstWhere;
    var i, j := FirstWhere(s, p), FirstWhere(s + " ", p);
    assert forall k :: 0 <= k < |s| ==> (s + " ")[k] == s[k];
    if j < |s| { assert p(s[j]); }
    if i < |s| { assert p((s + " ")[i]); }
  }

  lemma {:induction false} LastBeforeSpace(s: string, p: char -> bool)
    requires !p(' ')
    ensures LastWhere(s + " ", p) == LastWhere(s, p)
  {
    assert (s + " ")[..|s|] == s;
  }

  lemma {:induction false} SkipBeforeSpace(s: string)
    ensures SkipSpaces(s + " ") == if SkipSpaces(s) < |s| then SkipSpaces(s) else |s| + 1
  {
    hide SkipSpaces;
    var i, j := SkipSpaces(s), SkipSpaces(s + " ");
    assert forall k :: 0 <= k < |s| ==> (s + " ")[k] == s[k];
    if j < |s| { assert s[j] != ' '; }
    if i < |s| { assert (s + " ")[i] != ' '; }
  }

  /** t, or t with a space after it. */
  predicate Spaced(r: string, t: string) { r == t || r == t + " " }

  lemma {:induction false} TailBeforeSpace(t: string)
    ensures Spaced(DropSpaces(t + " "), DropSpaces(t))
  {
    hide SkipSpaces;
    SkipBeforeSpace(t);
    var n := SkipSpaces(t);
    if n < |t| { assert (t + " ")[n..] == t[n..] + " "; }
  }

  lemma {:induction false} SpacedTail(head: string, r: string, t: string)
    requires Spaced(r, t)
    ensures Spaced(head + r, head + t)
  {
    assert head + (t + " ") == head + t + " ";
  }

  lemma {:induction false} EffectFound(s: string, o: int, c: int)
    requires o == FirstWhere(s, IsOpen) && c == LastWhere(s, IsClose) && o < c
    ensures RemoveOneEffect(s) == StripSpaces(s[..o]) + " " + DropSpaces(s[c + 1..])
  {
    hide FirstWhere, LastWhere, StripSpaces, DropSpaces, IsOpen, IsClose;
  }

  lemma {:induction false} NoEffectFound(s: string)
    requires FirstWhere(s, IsOpen) >= LastWhere(s, IsClose)
    ensures RemoveOneEffect(s) == s
  {
    hide FirstWhere, LastWhere, StripSpaces, DropSpaces, IsOpen, IsClose;
  }

  /** A space after a sound effect goes with it, any other stays. */
  lemma {:induction false} OneEffectBeforeSpace(s: string)
    ensures Spaced(RemoveOneEffect(s + " "), RemoveOneEffect(s))
  {
    hide *;
    BracketsAreNoSpaces();
    FirstBeforeSpace(s, IsOpen);
    LastBeforeSpace(s, IsClose);
    var t, o, c := s + " ", FirstWhere(s, IsOpen), LastWhere(s, IsClose);
    if o < c {
      EffectFound(s, o, c);
      EffectFound(t, o, c);
      TailBeforeSpace(s[c + 1..]);
      assert t[..o] == s[..o];
      assert t[c + 1..] == s[c + 1..] + " ";
      SpacedTail(StripSpaces(s[..o]) + " ", DropSpaces(t[c + 1..]), DropSpaces(s[c + 1..]));
    } else {
      NoEffectFound(s);
      NoEffectFound(t);
      SpacedSelf(s);
    }
  }

  lemma {:induction false} SpacedSelf(s: string)
    ensures Spaced(s + " ", s)
  {}

  lemma {:induction false} BracketsAreNoSpaces()
    ensures !IsOpen(' ') && !IsClose(' ')
  {}

  lemma {:induction false} EffectsSplit(s: string)
    ensures var n := FirstWhere(s, IsLineTerminator);
      RemoveSoundEffects(s) ==
        if n == |s| then RemoveOneEffect(s) else RemoveOneEffect(s[..n]) + [s[n]] + RemoveSoundEffects(s[n + 1..])
  {
    hide FirstWhere, RemoveOneEffect;
  }

  lemma {:induction false} EffectsBeforeSpace(s: string)
    ensures Spaced(RemoveSoundEffects(s + " "), RemoveSoundEffects(s))
    decreases |s|
  {
    hide FirstWhere, RemoveOneEffect, RemoveSoundEffects, Spaced;
    FirstBeforeSpace(s, IsLineTerminator);
    EffectsSplit(s);
    EffectsSplit(s + " ");
    var n := FirstWhere(s, IsLineTerminator);
    if n == |s| {
      OneEffectBeforeSpace(s);
    } else {
      var rest := s[n + 1..];
      EffectsBeforeSpace(rest);
      assert (s + " ")[..n] == s[..n] && (s + " ")[n + 1..] == rest + " ";
      SpacedTail(RemoveOneEffect(s[..n]) + [s[n]], RemoveSoundEffects(rest + " "), RemoveSoundEffects(rest));
    }
  }

  /** No cut at the break: the pieces of b are appended after the same space either way. */
  lemma {:induction false} BreakInsideSentence(st: Buffer, a: string, b: string)
    requires Plain(a) && Plain(b) && MidlineCut(a) < 0 && !EndsInStop(a)
    ensures SplitLine(st, a + " " + b) == SplitLine(AddSpace(Append(st, a)), b)
  {
    hide *;
    var s, e, c := a + " " + b, AddSpace(Append(st, a)), MidlineCut(b);
    PlainJoin(a, b);
    CutOfJoin(a, b);
    if c >= 0 {
      MidlineCutBound(b);
      PlainCut(st, s, |a| + 1 + c);
      PlainCut(e, b, c);
      assert s[..|a| + 1 + c] == a + " " + b[..c] && s[|a| + 1 + c..] == b[c..];
      AppendPieces(st, a, b[..c]);
    } else {
      PlainEnd(st, s);
      PlainEnd(e, b);
      StopAfterBreak(a, b);
      AppendPieces(st, a, b);
    }
  }

  lemma {:induction false} MidlineCutBound(s: string)
    ensures MidlineCut(s) >= 0 ==> 0 < MidlineCut(s) < |s|
  {}

  lemma {:induction false} AppendPieces(st: Buffer, a: string, t: string)
    requires Plain(a)
    ensures Append(st, a + " " + t) == Append(AddSpace(Append(st, a)), t)
  {
    assert Append(st, a).sentence[|Append(st, a).sentence| - 1] == a[|a| - 1];
    assert st.sentence + (a + " " + t) == st.sentence + a + " " + t;
  }

  lemma {:induction false} StopAfterBreak(a: string, b: string)
    requires Plain(b)
    ensures EndsInStop(a + " " + b) == EndsInStop(b)
  {}

  /** Nothing to filter: filtering is off, or the text has no sound effect. */
  ghost predicate Unfiltered(filter: bool, s: string) { filter ==> !HasSoundEffect(s) }

  lemma {:induction false} NoEffectIsKept(s: string)
    requires !HasSoundEffect(s)
    ensures RemoveSoundEffects(s) == s
    decreases |s|
  {
    hide FirstWhere, HasSoundEffect, RemoveOneEffect, RemoveSoundEffects, IsLineTerminator;
    EffectsSplit(s);
    var n := FirstWhere(s, IsLineTerminator);
    assert s[0..n] == s[..n];
    PartHasNoEffect(s, 0, n);
    OneStretchIsKept(s[..n]);
    if n == |s| {
      assert s[..n] == s;
    } else {
      assert s[n + 1..|s|] == s[n + 1..];
      PartHasNoEffect(s, n + 1, |s|);
      NoEffectIsKept(s[n + 1..]);
      assert s == s[..n] + [s[n]] + s[n + 1..];
    }
  }

  lemma {:induction false} OneStretchIsKept(s: string)
    requires !HasSoundEffect(s) && forall k :: 0 <= k < |s| ==> !IsLineTerminator(s[k])
    ensures RemoveOneEffect(s) == s
  {
    hide FirstWhere, LastWhere, StripSpaces, SkipSpaces, IsLineTerminator;
    var o, c := FirstWhere(s, IsOpen), LastWhere(s, IsClose);
    assert o < c ==> NoTerminator(s, o, c);
  }

  lemma {:induction false} PlainLineReady(st: Buffer, s: string)
    requires Plain(s) && Unfiltered(st.filter, s)
    ensures LineReady(st, s) == SplitLine(AddSpace(st), s)
  {
    hide HasSoundEffect, RemoveSoundEffects;
    if st.filter { NoEffectIsKept(s); }
    PlainIsKept(s);
    PlainHasNoSpeaker(st, s);
  }

  function Feed(st: Buffer, lines: seq<string>): Buffer {
    if lines == [] then st else LineReady(Feed(st, lines[..|lines| - 1]), lines[|lines| - 1])
  }

  function Join(lines: seq<string>): string
    requires lines != []
  {
    if |lines| == 1 then lines[0] else Join(lines[..|lines| - 1]) + " " + lines[|lines| - 1]
  }

  lemma {:induction false} SplitKeepsFilter(st: Buffer, s: string)
    ensures SplitLine(st, s).filter == st.filter
    decreases |s|
  {
    if CutPoint(s) >= 0 {
      var (b', rest) := CutStep(st, s);
      FindSpeakerKeepsFilter(ResetUnlessAbbreviation(Append(st, s[..CutPoint(s)])), s[CutPoint(s)..]);
      SplitKeepsFilter(b', rest);
    }
  }

  lemma {:induction false} FindSpeakerKeepsFilter(st: Buffer, s: string)
    ensures FindSpeaker(st, s).0.filter == st.filter
  {
    StripKeepsFilter(st, Trim(s));
  }

  lemma {:induction false} StripKeepsFilter(st: Buffer, s: string)
    ensures StripChevrons(st, s).0.filter == st.filter
    decreases |s|
  {
    if StartsWithChevron(s) { StripKeepsFilter(Reset(st).(speaker := Some("")), Trim(s[2..])); }
  }

  lemma {:induction false} PartsUnfiltered(filter: bool, a: string, b: string)
    requires Unfiltered(filter, a + " " + b)
    ensures Unfiltered(filter, a) && Unfiltered(filter, b)
  {
    hide HasSoundEffect;
    var s := a + " " + b;
    assert s[0..|a|] == a && s[|a| + 1..|s|] == b;
    if filter {
      PartHasNoEffect(s, 0, |a|);
      PartHasNoEffect(s, |a| + 1, |s|);
    }
  }

  /**
   * Feeding plain lines one by one is feeding them joined by single spaces, from any state; with
   * filtering on, if no sound effect is in them or across a break.
   */
  lemma {:induction false} LineBreakInvariance(st: Buffer, lines: seq<string>)
    requires lines != [] && forall i :: 0 <= i < |lines| ==> Plain(lines[i])
    requires Unfiltered(st.filter, Join(lines))
    ensures Plain(Join(lines))
    ensures Feed(st, lines) == LineReady(st, Join(lines))
  {
    hide Plain, Unfiltered, LineReady, SplitLine;
    var init, last := lines[..|lines| - 1], lines[|lines| - 1];
    if |lines| == 1 {
      assert Feed(st, init) == st;
    } else {
      PartsUnfiltered(st.filter, Join(init), last);
      LineBreakInvariance(st, init);
      PlainJoin(Join(init), last);
      PlainLineReady(st, Join(init));
      SplitKeepsFilter(AddSpace(st), Join(init));
      PlainLineReady(Feed(st, init), last);
      SplitAtBreak(AddSpace(st), Join(init), last);
      PlainLineReady(st, Join(lines));
    }
  }

  /** So where a caption broke its lines cannot be told from the events or the pending text. */
  lemma {:induction false} AnyTwoLayoutsAgree(st: Buffer, x: seq<string>, y: seq<string>)
    requires x != [] && y != [] && Join(x) == Join(y) && Unfiltered(st.filter, Join(x))
    requires (forall i :: 0 <= i < |x| ==> Plain(x[i])) && (forall i :: 0 <= i < |y| ==> Plain(y[i]))
    ensures Feed(st, x) == Feed(st, y)
  {
    LineBreakInvariance(st, x);
    LineBreakInvariance(st, y);
  }

  // ---------- conservation ----------

  predicate IsErased(c: char) { c <= ' ' || IsControl(c) || c == '>' || c == ':' }

  function Erase(s: string): string {
    if s == "" then "" else (if IsErased(s[0]) then "" else [s[0]]) + Erase(s[1..])
  }

  lemma {:induction false} EraseConcat(x: string, y: string)
    ensures Erase(x + y) == Erase(x) + Erase(y)
  {
    if x == "" {
      assert x + y == y;
    } else {
      assert (x + y)[1..] == x[1..] + y;
      EraseConcat(x[1..], y);
    }
  }

  lemma {:induction false} EraseAt(s: string, i: int)
    requires 0 <= i <= |s|
    ensures Erase(s) == Erase(s[..i]) + Erase(s[i..])
  {
    EraseConcat(s[..i], s[i..]);
    assert s[..i] + s[i..] == s;
  }

  lemma {:induction false} EraseTrimLeft(s: string)
    ensures Erase(TrimLeft(s)) == Erase(s)
  {
    if s != "" && s[0] <= ' ' { EraseTrimLeft(s[1..]); }
  }

  lemma {:induction false} EraseTrimRight(s: string)
    ensures Erase(TrimRight(s)) == Erase(s)
  {
    if s != "" && s[|s| - 1] <= ' ' {
      EraseTrimRight(s[..|s| - 1]);
      EraseAt(s, |s| - 1);
      assert s[|s| - 1..] == [s[|s| - 1]];
    }
  }

  lemma {:induction false} EraseTrim(s: string)
    ensures Erase(Trim(s)) == Erase(s)
  {
    EraseTrimLeft(s);
    EraseTrimRight(TrimLeft(s));
  }

  lemma {:induction false} EraseStripped(s: string)
    ensures Erase(StripControls(s)) == Erase(s)
  {
    if s != "" {
      EraseStripped(s[1..]);
      EraseConcat(if IsControl(s[0]) then "" else [s[0]], StripControls(s[1..]));
    }
  }

  function Said(speaker: Option<string>): string { if speaker.Some? then speaker.value else "" }

  function Spoken(events: seq<Event>): string {
    if events == [] then ""
    else
      var last := events[|events| - 1];
      Spoken(events[..|events| - 1]) + Erase(Said(last.speaker) + last.sentence)
  }

  /** Everything delivered so far and everything pending, in order. */
  function Total(b: Buffer): string { Spoken(b.delivered) + Erase(Said(b.speaker) + b.sentence) }

  lemma {:induction false} ResetConserves(b: Buffer)
    requires !b.filter
    ensures Spoken(Reset(b).delivered) == Total(b)
  {
    var text := Trim(b.sentence);
    EraseTrim(b.sentence);
    EraseConcat(Said(b.speaker), text);
    EraseConcat(Said(b.speaker), b.sentence);
    var d := Reset(b).delivered;
    if b.speaker.Some? || text != "" {
      assert d[..|d| - 1] == b.delivered;
    } else {
      assert d == b.delivered;
    }
  }

  /** After a reset only what is said next is pending. */
  lemma {:induction false} ResetThen(b: Buffer, speaker: Option<string>)
    requires !b.filter
    ensures Total(Reset(b).(speaker := speaker)) == Total(b) + Erase(Said(speaker))
  {
    ResetConserves(b);
    assert Said(speaker) + "" == Said(speaker);
  }

  lemma {:induction false} SomebodyElse(b: Buffer)
    requires !b.filter
    ensures Total(Reset(b).(speaker := Some(""))) == Total(b)
  {
    hide Total, Reset;
    ResetThen(b, Some(""));
  }

  lemma {:induction false} AppendConserves(b: Buffer, s: string)
    ensures Total(Append(b, s)) == Total(b) + Erase(s)
  {
    assert Said(b.speaker) + (b.sentence + s) == (Said(b.speaker) + b.sentence) + s;
    EraseConcat(Said(b.speaker) + b.sentence, s);
  }

  lemma {:induction false} EraseChevron(s: string)
    requires StartsWithChevron(s)
    ensures Erase(Trim(s[2..])) == Erase(s)
  {
    assert s[1..][1..] == s[2..];
    EraseTrim(s[2..]);
  }

  lemma {:induction false} StripStep(b: Buffer, s: string)
    ensures StartsWithChevron(s) ==> |Trim(s[2..])| < |s| && Reset(b).filter == b.filter
    ensures StripChevrons(b, s) ==
      if StartsWithChevron(s) then StripChevrons(Reset(b).(speaker := Some("")), Trim(s[2..])) else (b, s)
  {}

  lemma {:induction false} StripConserves(b: Buffer, s: string)
    requires !b.filter
    ensures !StripChevrons(b, s).0.filter
    ensures Total(StripChevrons(b, s).0) + Erase(StripChevrons(b, s).1) == Total(b) + Erase(s)
    decreases |s|
  {
    hide *;
    StripStep(b, s);
    if StartsWithChevron(s) {
      assert Total(Reset(b).(speaker := Some(""))) == Total(b) by { SomebodyElse(b); }
      EraseChevron(s);
      StripConserves(Reset(b).(speaker := Some("")), Trim(s[2..]));
    }
  }

  lemma {:induction false} StripLeavesSpeaker(b: Buffer, s: string)
    requires (b.speaker == Some("") && b.sentence == "") || StartsWithChevron(s)
    ensures StripChevrons(b, s).0.speaker == Some("") && StripChevrons(b, s).0.sentence == ""
    decreases |s|
  {
    if StartsWithChevron(s) { StripLeavesSpeaker(Reset(b).(speaker := Some("")), Trim(s[2..])); }
  }

  lemma {:induction false} EraseColon(s: string, colon: int)
    requires 0 <= colon < |s| && s[colon] == ':'
    ensures Erase(Trim(s[..colon])) + Erase(s[colon + 1..]) == Erase(s)
  {
    EraseTrim(s[..colon]);
    EraseAt(s, colon);
    assert s[colon..][1..] == s[colon + 1..];
  }

  lemma {:induction false} FindSpeakerConserves(b: Buffer, s: string)
    requires !b.filter
    ensures !FindSpeaker(b, s).0.filter
    ensures Total(FindSpeaker(b, s).0) + Erase(FindSpeaker(b, s).1) == Total(b) + Erase(s)
  {
    hide Erase, Total, Trim, StripChevrons, Reset;
    var trimmed := Trim(s);
    EraseTrim(s);
    StripConserves(b, trimmed);
    var (b1, rest) := StripChevrons(b, trimmed);
    var colon := IndexOf(rest, ':');
    if colon >= 0 {
      var name := Trim(rest[..colon]);
      EraseColon(rest, colon);
      if StartsWithChevron(trimmed) { StripLeavesSpeaker(b, trimmed); }
      NameConserves(b1, StartsWithChevron(trimmed), name);
      Assoc(Total(b1), Erase(name), Erase(rest[colon + 1..]));
      var b2 := (if StartsWithChevron(trimmed) then b1 else Reset(b1)).(speaker := Some(name));
      assert FindSpeaker(b, s) == (b2, rest[colon + 1..]);
    }
  }

  lemma {:induction false} Assoc(x: string, y: string, z: string)
    ensures (x + y) + z == x + (y + z)
  {}

  lemma {:induction false} NameConserves(b: Buffer, reset: bool, name: string)
    requires !b.filter && (reset ==> b.speaker == Some("") && b.sentence == "")
    ensures !(if reset then b else Reset(b)).filter
    ensures Total((if reset then b else Reset(b)).(speaker := Some(name))) == Total(b) + Erase(name)
  {
    if reset {
      assert name + "" == name;
    } else {
      ResetThen(b, Some(name));
    }
  }

  lemma {:induction false} CutConserves(b: Buffer, s: string)
    requires !b.filter
    ensures !ResetUnlessAbbreviation(Append(b, s)).filter
    ensures Total(ResetUnlessAbbreviation(Append(b, s))) == Total(b) + Erase(s)
  {
    AppendConserves(b, s);
    ResetThen(Append(b, s), None);
  }

  lemma {:induction false} SplitConserves(b: Buffer, s: string)
    requires !b.filter
    ensures !SplitLine(b, s).filter
    ensures Total(SplitLine(b, s)) == Total(b) + Erase(s)
    decreases |s|
  {
    var end := CutPoint(s);
    if end < 0 {
      CutConserves(b, s);
      AppendConserves(b, s);
    } else {
      var b1 := ResetUnlessAbbreviation(Append(b, s[..end]));
      var (b2, rest) := CutStep(b, s);
      CutConserves(b, s[..end]);
      FindSpeakerConserves(b1, s[end..]);
      SplitConserves(b2, rest);
      EraseAt(s, end);
      Assoc(Total(b), Erase(s[..end]), Erase(s[end..]));
    }
  }

  lemma {:induction false} LineConserves(b: Buffer, line: string)
    requires !b.filter
    ensures !LineReady(b, line).filter
    ensures Total(LineReady(b, line)) == Total(b) + if IsGarbage(line) then "" else Erase(line)
  {
    if IsGarbage(line) {
      ResetThen(b, None);
    } else {
      EraseStripped(line);
      FindSpeakerConserves(b, StripControls(line));
      var (b', rest) := FindSpeaker(b, StripControls(line));
      SpaceConserves(b');
      SplitConserves(AddSpace(b'), rest);
    }
  }

  lemma {:induction false} SpaceConserves(b: Buffer)
    ensures Total(AddSpace(b)) == Total(b)
  {
    AppendConserves(b, " ");
  }

  datatype Input = Line(text: string) | ParityError

  function Step(b: Buffer, i: Input): Buffer {
    match i
    case Line(text) => LineReady(b, text)
    case ParityError => b.(errors := b.errors + 1)
  }

  function Run(b: Buffer, inputs: seq<Input>): Buffer {
    if inputs == [] then b else Step(Run(b, inputs[..|inputs| - 1]), inputs[|inputs| - 1])
  }

  /** The text of the lines that are not garbage. */
  function KeptText(inputs: seq<Input>): string {
    if inputs == [] then ""
    else
      var last := inputs[|inputs| - 1];
      KeptText(inputs[..|inputs| - 1]) + if last.Line? && !IsGarbage(last.text) then last.text else ""
  }

  /** Nothing is lost, invented or reordered: speakers and sentences spell out the kept lines. */
  lemma {:induction false} Conservation(b: Buffer, inputs: seq<Input>)
    requires !b.filter
    ensures !Run(b, inputs).filter
    ensures Total(Run(b, inputs)) == Total(b) + Erase(KeptText(inputs))
  {
    if inputs != [] {
      var init, last := inputs[..|inputs| - 1], inputs[|inputs| - 1];
      Conservation(b, init);
      var text := if last.Line? && !IsGarbage(last.text) then last.text else "";
      if last.Line? { LineConserves(Run(b, init), last.text); }
      EraseConcat(KeptText(init), text);
      Assoc(Total(b), Erase(KeptText(init)), Erase(text));
    }
  }

  // ---------- filtering ----------

  /** Some stretch of s between two line terminators has an opening bracket before a closing one. */
  ghost predicate HasSoundEffect(s: string) {
    exists i, j :: 0 <= i < j < |s| && IsOpen(s[i]) && IsClose(s[j]) && NoTerminator(s, i, j)
  }

  predicate NoTerminator(s: string, i: int, j: int) {
    forall k :: 0 <= i <= k < j < |s| ==> !IsLineTerminator(s[k])
  }

  lemma {:induction false} OneEffectRemoved(s: string, i: int, j: int)
    requires 0 <= i < j < |RemoveOneEffect(s)|
    ensures !(IsOpen(RemoveOneEffect(s)[i]) && IsClose(RemoveOneEffect(s)[j]))
  {
    hide *;
    var o, c := FirstWhere(s, IsOpen), LastWhere(s, IsClose);
    if o < c {
      EffectFound(s, o, c);
      var head, tail := StripSpaces(s[..o]), DropSpaces(s[c + 1..]);
      assert forall k :: 0 <= k < |head| ==> head[k] == s[k];
    } else {
      NoEffectFound(s);
      assert IsOpen(s[i]) ==> o <= i;
      assert IsClose(s[j]) ==> j <= c;
    }
  }

  /** In head + [terminator] + tail, an effect lies in head or in tail. */
  lemma {:induction false} EffectOnOneSide(head: string, t: char, tail: string, i: int, j: int)
    requires IsLineTerminator(t) && 0 <= i < j < |head + [t] + tail| && NoTerminator(head + [t] + tail, i, j)
    requires IsOpen((head + [t] + tail)[i]) && IsClose((head + [t] + tail)[j])
    ensures j < |head| || (i > |head| && HasSoundEffect(tail))
  {
    var r := head + [t] + tail;
    assert r[|head|] == t;
    if i > |head| {
      var i', j' := i - |head| - 1, j - |head| - 1;
      forall k | i' <= k < j' ensures !IsLineTerminator(tail[k]) { assert tail[k] == r[k + |head| + 1]; }
      assert NoTerminator(tail, i', j') && IsOpen(tail[i']) && IsClose(tail[j']);
    }
  }

  lemma {:induction false} FilteredHasNoEffect(s: string)
    ensures !HasSoundEffect(RemoveSoundEffects(s))
    decreases |s|
  {
    hide RemoveOneEffect, FirstWhere, IsLineTerminator, IsOpen, IsClose;
    var n, r := FirstWhere(s, IsLineTerminator), RemoveSoundEffects(s);
    if n < |s| { FilteredHasNoEffect(s[n + 1..]); }
    forall i, j | 0 <= i < j < |r| && IsOpen(r[i]) && IsClose(r[j]) && NoTerminator(r, i, j) ensures false {
      if n == |s| {
        OneEffectRemoved(s, i, j);
      } else {
        EffectOnOneSide(RemoveOneEffect(s[..n]), s[n], RemoveSoundEffects(s[n + 1..]), i, j);
        OneEffectRemoved(s[..n], i, j);
      }
    }
  }

  lemma {:induction false} PartOfStretch(s: string, lo: int, hi: int, i: int, j: int)
    requires 0 <= lo <= hi <= |s| && 0 <= i < j < hi - lo && NoTerminator(s[lo..hi], i, j)
    requires IsOpen(s[lo..hi][i]) && IsClose(s[lo..hi][j])
    ensures HasSoundEffect(s)
  {
    forall k | lo + i <= k < lo + j ensures !IsLineTerminator(s[k]) { assert s[lo..hi][k - lo] == s[k]; }
    assert NoTerminator(s, lo + i, lo + j) && IsOpen(s[lo + i]) && IsClose(s[lo + j]);
  }

  /** A part of a text without sound effects has none. */
  lemma {:induction false} PartHasNoEffect(s: string, lo: int, hi: int)
    requires 0 <= lo <= hi <= |s| && !HasSoundEffect(s)
    ensures !HasSoundEffect(s[lo..hi])
  {
    var t := s[lo..hi];
    if HasSoundEffect(t) {
      var i, j :| 0 <= i < j < |t| && IsOpen(t[i]) && IsClose(t[j]) && NoTerminator(t, i, j);
      PartOfStretch(s, lo, hi, i, j);
    }
  }

  lemma {:induction false} TrimHasNoEffect(s: string)
    requires !HasSoundEffect(s)
    ensures !HasSoundEffect(Trim(s))
  {
    hide HasSoundEffect;
    var left := TrimLeft(s);
    PartHasNoEffect(s, |s| - |left|, |s|);
    assert s[|s| - |left|..|s|] == left;
    PartHasNoEffect(left, 0, |Trim(s)|);
  }

  /** What every delivered event satisfies. */
  ghost predicate Clean(filter: bool, e: Event) {
    && (filter ==> !HasSoundEffect(e.sentence))
    && Trim(e.sentence) == e.sentence
    && (e.speaker.Some? || e.sentence != "")
  }

  ghost predicate AllClean(b: Buffer) {
    forall i :: 0 <= i < |b.delivered| ==> Clean(b.filter, b.delivered[i])
  }

  lemma {:induction false} ResetIsClean(b: Buffer)
    requires AllClean(b)
    ensures AllClean(Reset(b)) && Reset(b).filter == b.filter
  {
    hide HasSoundEffect, RemoveSoundEffects, Trim;
    var text := if b.filter then RemoveSoundEffects(b.sentence) else b.sentence;
    TrimFixed(Trim(text));
    if b.filter {
      FilteredHasNoEffect(b.sentence);
      TrimHasNoEffect(text);
    }
    assert Clean(b.filter, Event(b.speaker, Trim(text), b.errors)) || (b.speaker.None? && Trim(text) == "");
  }

  lemma {:induction false} StripIsClean(b: Buffer, s: string)
    requires AllClean(b)
    ensures AllClean(StripChevrons(b, s).0)
    decreases |s|
  {
    if StartsWithChevron(s) {
      ResetIsClean(b);
      StripIsClean(Reset(b).(speaker := Some("")), Trim(s[2..]));
    }
  }

  lemma {:induction false} FindSpeakerIsClean(b: Buffer, s: string)
    requires AllClean(b)
    ensures AllClean(FindSpeaker(b, s).0)
  {
    StripIsClean(b, Trim(s));
    ResetIsClean(StripChevrons(b, Trim(s)).0);
  }

  lemma {:induction false} SplitIsClean(b: Buffer, s: string)
    requires AllClean(b)
    ensures AllClean(SplitLine(b, s))
    decreases |s|
  {
    hide Clean, Reset, FindSpeaker, EndOfLine, EndIsAbbreviation;
    var end := CutPoint(s);
    ResetIsClean(Append(b, if end < 0 then s else s[..end]));
    if end >= 0 {
      FindSpeakerIsClean(ResetUnlessAbbreviation(Append(b, s[..end])), s[end..]);
      SplitIsClean(CutStep(b, s).0, CutStep(b, s).1);
    }
  }

  lemma {:induction false} StepIsClean(b: Buffer, i: Input)
    requires AllClean(b)
    ensures AllClean(Step(b, i))
  {
    hide RemoveSoundEffects, FindSpeaker, SplitLine, StripControls, Clean, Reset;
    if i.Line? {
      ResetIsClean(b);
      var kept := StripControls(i.text);
      var text := if b.filter then RemoveSoundEffects(kept) else kept;
      FindSpeakerIsClean(b, text);
      SplitIsClean(AddSpace(FindSpeaker(b, text).0), FindSpeaker(b, text).1);
    }
  }

  /** On every run each event is trimmed, says something, and under filtering has no sound effect. */
  lemma {:induction false} EventsAreClean(b: Buffer, inputs: seq<Input>)
    requires AllClean(b)
    ensures AllClean(Run(b, inputs))
  {
    hide AllClean, Step;
    if inputs != [] {
      EventsAreClean(b, inputs[..|inputs| - 1]);
      StepIsClean(Run(b, inputs[..|inputs| - 1]), inputs[|inputs| - 1]);
    }
  }
}
