/** Which pieces of a text become sentences: those between stops that are not abbreviations. */
module SentenceExactness {
  import opened Text
  import opened Sentences
  import opened SentenceTheorems

  /** u + w + "." with w the last word: w is a known title, or ends in a dot and a letter ("U.S."). */
  predicate EndsInAbbreviation(t: string, u: string, w: string) {
    && t == u + w + "."
    && (u == "" || u[|u| - 1] == ' ')
    && ' ' !in w
    && (IsListed(w) || (|w| >= 2 && IsLetter(w[|w| - 1]) && w[|w| - 2] == '.'))
  }

  lemma {:induction false} ListedWord(w: string)
    requires IsListed(w)
    ensures |w| >= 2 && IsLetter(w[|w| - 1])
  {
    var l := Lower(w);
    assert |l| == |w| >= 2 && 'a' <= l[|l| - 1] <= 'z';
    assert l[|w| - 1] == LowerChar(w[|w| - 1]);
  }

  lemma {:induction false} LastWordOf(u: string, w: string)
    requires (u == "" || u[|u| - 1] == ' ') && ' ' !in w && |w| >= 2
    ensures var t := u + w + ".";
      && LastIndexOf(t, ' ', |t| - 1) == |u| - 1
      && t[|u|..|t| - 1] == w
      && t[|t| - 1] == '.' && t[|t| - 2] == w[|w| - 1] && t[|t| - 3] == w[|w| - 2]
  {
    hide *;
    var t := u + w + ".";
    var i := LastIndexOf(t, ' ', |t| - 1);
    assert |u| > 0 ==> t[|u| - 1] == u[|u| - 1];
    forall k | |u| <= k < |t| ensures t[k] != ' ' {
    }
    assert t[|u|..|t| - 1] == w;
    if i >= 0 { assert t[i] == ' '; }
    if |u| > 0 { assert t[|u| - 1] == ' '; }
  }

  lemma {:induction false} AbbreviationWord(t: string, u: string, w: string)
    requires EndsInAbbreviation(t, u, w)
    ensures |w| >= 2 && IsLetter(w[|w| - 1])
  {
    hide IsLetter;
    if IsListed(w) { ListedWord(w); }
  }

  lemma {:induction false} AbbreviationIsOne(s: string, u: string, w: string)
    requires EndsInAbbreviation(Trim(s), u, w)
    ensures EndIsAbbreviation(s)
  {
    hide Trim, IsListed, IsLetter, LastIndexOf, EndIsAbbreviation, EndsInAbbreviation;
    Pieces(Trim(s), u, w);
    AbbreviationWord(Trim(s), u, w);
    LastWordOf(u, w);
    AbbreviationUnfolded(s);
  }

  lemma {:induction false} Pieces(t: string, u: string, w: string)
    requires EndsInAbbreviation(t, u, w)
    ensures t == u + w + "." && (u == "" || u[|u| - 1] == ' ') && ' ' !in w
    ensures IsListed(w) || (|w| >= 2 && w[|w| - 2] == '.')
  {
    hide IsListed, IsLetter;
  }

  /** t ends in a letter and a period, and either another period precedes them or the word from sp + 1 on is listed. */
  predicate AbbreviatedFrom(t: string, sp: int) {
    && |t| >= 3 && t[|t| - 1] == '.' && IsLetter(t[|t| - 2]) && -1 <= sp < |t| - 1
    && (t[|t| - 3] == '.' || IsListed(t[sp + 1..|t| - 1]))
  }

  lemma {:induction false} AbbreviationUnfolded(s: string)
    ensures var t := Trim(s);
      EndIsAbbreviation(s) <==> |t| >= 3 && AbbreviatedFrom(t, LastIndexOf(t, ' ', |t| - 1))
  {
    hide Trim, IsListed, IsLetter, LastIndexOf;
    var t := Trim(s);
    if |t| >= 3 && t[|t| - 1] == '.' { assert LastIndexOf(t, ' ', |t| - 1) < |t| - 1; }
  }

  lemma {:induction false} LetterIsNoSpace(c: char)
    requires IsLetter(c)
    ensures c != ' '
  {}

  lemma {:induction false} AbbreviationHasOne(s: string)
    ensures EndIsAbbreviation(s) ==> exists u, w :: EndsInAbbreviation(Trim(s), u, w)
  {
    hide *;
    if EndIsAbbreviation(s) {
      AbbreviationUnfolded(s);
      var t := Trim(s);
      var u, w := WordAt(t, LastIndexOf(t, ' ', |t| - 1));
    }
  }

  lemma {:induction false} WordAt(t: string, sp: int) returns (u: string, w: string)
    requires AbbreviatedFrom(t, sp)
    requires (sp >= 0 ==> t[sp] == ' ') && forall k :: sp < k < |t| ==> t[k] != ' '
    ensures EndsInAbbreviation(t, u, w)
  {
    hide IsListed, IsLetter, EndsInAbbreviation;
    LetterIsNoSpace(t[|t| - 2]);
    u, w := t[..sp + 1], t[sp + 1..|t| - 1];
    assert t == u + w + ".";
    Assembled(t, u, w);
  }

  lemma {:induction false} Assembled(t: string, u: string, w: string)
    requires t == u + w + "." && (u == "" || u[|u| - 1] == ' ') && ' ' !in w
    requires IsListed(w) || (|w| >= 2 && IsLetter(w[|w| - 1]) && w[|w| - 2] == '.')
    ensures EndsInAbbreviation(t, u, w)
  {
    hide IsListed, IsLetter;
  }

  /** endIsAbbreviation, said without positions. */
  lemma {:induction false} AbbreviationMeaning(s: string)
    ensures EndIsAbbreviation(s) <==> exists u, w :: EndsInAbbreviation(Trim(s), u, w)
  {
    hide *;
    AbbreviationHasOne(s);
    if exists u, w :: EndsInAbbreviation(Trim(s), u, w) {
      var u, w :| EndsInAbbreviation(Trim(s), u, w);
      AbbreviationIsOne(s, u, w);
    }
  }

  lemma {:induction false} AbbreviationByTrim(x: string, y: string)
    requires Trim(x) == Trim(y)
    ensures EndIsAbbreviation(x) == EndIsAbbreviation(y)
  {
    hide Trim, IsListed, IsLetter, LastIndexOf;
  }

  // ---------- exactness ----------

  predicate Stopped(x: string) { EndsInStop(StripSpaces(x)) }

  /** Every place inside x where it could have been cut follows an abbreviation. */
  ghost predicate Whole(x: string) {
    forall c :: IsCut(x, c) ==> EndIsAbbreviation(x[..c])
  }

  /** A complete sentence: ends in a proper stop and has no other. */
  ghost predicate Exact(t: string) { EndsInStop(t) && !EndIsAbbreviation(t) && Whole(t) }

  /** A sentence still open. */
  ghost predicate Open(x: string) {
    x != "" ==> x[0] > ' ' && Whole(x) && (Stopped(x) ==> EndIsAbbreviation(x))
  }

  predicate ReadyForWord(x: string) { x == "" || x[|x| - 1] == ' ' }

  lemma {:induction false} StripAppend(x: string, t: string)
    requires t != "" && t[0] != ' '
    ensures StripSpaces(t) != "" && StripSpaces(x + t) == x + StripSpaces(t)
  {
    hide StripSpaces;
    StripConcat(x, t);
  }

  lemma {:induction false} StoppedAppend(x: string, t: string)
    requires ReadyForWord(x) && t != "" && t[0] != ' '
    ensures Stopped(x + t) == Stopped(t)
  {
    hide StripSpaces;
    StripAppend(x, t);
    var y := x + StripSpaces(t);
    assert |x| > 0 ==> y[|x| - 1] == ' ';
  }

  lemma {:induction false} CutAfterWord(x: string, t: string, j: int)
    requires ReadyForWord(x) && t != "" && t[0] != ' ' && j >= 1
    ensures IsCut(x + t, |x| + j) == IsCut(t, j)
  {
    hide StripSpaces, EndsInStop;
    if j < |t| {
      assert (x + t)[..|x| + j] == x + t[..j];
      StoppedAppend(x, t[..j]);
    }
  }

  lemma {:induction false} WholeAppend(x: string, t: string)
    requires ReadyForWord(x) && t != "" && t[0] > ' ' && Open(x)
    requires forall j :: !IsCut(t, j)
    ensures Whole(x + t) && (x + t)[0] > ' '
  {
    hide EndIsAbbreviation, StripSpaces, EndsInStop;
    forall c | IsCut(x + t, c) ensures EndIsAbbreviation((x + t)[..c]) {
      if c < |x| {
        CutInPrefix(x, t, c);
        assert (x + t)[..c] == x[..c];
      } else if c == |x| {
        assert (x + t)[..c] == x;
      } else {
        CutAfterWord(x, t, c - |x|);
      }
    }
  }

  lemma {:induction false} TrimIsStrip(y: string)
    requires y != "" && y[0] > ' ' && forall k :: 0 <= k < |y| ==> y[k] >= ' '
    ensures Trim(y) == StripSpaces(y)
    ensures Trim(Trim(y)) == Trim(y)
  {
    TrimRightIsStrip(y);
    TrimFixed(Trim(y));
  }

  lemma {:induction false} TrimRightIsStrip(y: string)
    requires forall k :: 0 <= k < |y| ==> y[k] >= ' '
    ensures TrimRight(y) == StripSpaces(y)
  {
    if y != "" { TrimRightIsStrip(y[..|y| - 1]); }
  }

  lemma {:induction false} DeliveredIsExact(y: string)
    requires y != "" && y[0] > ' ' && (forall k :: 0 <= k < |y| ==> y[k] >= ' ')
    requires Whole(y) && Stopped(y) && !EndIsAbbreviation(y)
    ensures Exact(Trim(y))
  {
    hide EndIsAbbreviation, StripSpaces, Trim, EndsInStop;
    var t := Trim(y);
    TrimIsStrip(y);
    AbbreviationByTrim(t, y);
    assert y == t + y[|t|..];
    forall c | IsCut(t, c) ensures EndIsAbbreviation(t[..c]) {
      CutInPrefix(t, y[|t|..], c);
      assert y[..c] == t[..c];
    }
  }

  ghost predicate NewEventsExact(before: seq<Event>, after: seq<Event>) {
    && before <= after
    && forall i :: |before| <= i < |after| ==> Exact(after[i].sentence)
  }

  predicate Printable(x: string) { forall k :: 0 <= k < |x| ==> x[k] >= ' ' }

  /** With filtering on, no bracket is opened. */
  predicate NoOpening(filter: bool, x: string) { filter ==> forall k :: 0 <= k < |x| ==> !IsOpen(x[k]) }

  lemma {:induction false} NothingToFilter(b: Buffer)
    requires NoOpening(b.filter, b.sentence)
    ensures Reset(b) == Reset(b.(filter := false)).(filter := b.filter)
    ensures Unfiltered(b.filter, b.sentence)
  {
    hide RemoveSoundEffects, Trim;
    if b.filter { NoEffectIsKept(b.sentence); }
  }

  /** Appending up to the next stop either completes an exact sentence or leaves it open. */
  lemma {:induction false} StopStep(b: Buffer, t: string)
    requires NoOpening(b.filter, b.sentence) && NoOpening(b.filter, t)
    requires Open(b.sentence) && ReadyForWord(b.sentence) && Printable(b.sentence)
    requires t != "" && t[0] > ' ' && Printable(t) && (forall j :: !IsCut(t, j)) && Stopped(t)
    ensures var b' := ResetUnlessAbbreviation(Append(b, t));
      && NewEventsExact(b.delivered, b'.delivered)
      && Open(b'.sentence) && Printable(b'.sentence) && NoOpening(b.filter, b'.sentence)
      && (b'.sentence == "" || b'.sentence == b.sentence + t)
  {
    hide EndIsAbbreviation, StripSpaces, EndsInStop, Trim, RemoveSoundEffects;
    var y := b.sentence + t;
    WholeAppend(b.sentence, t);
    StoppedAppend(b.sentence, t);
    assert Printable(y);
    NothingToFilter(Append(b, t));
    if !EndIsAbbreviation(y) { DeliveredIsExact(y); }
  }

  lemma {:induction false} NoEarlierCut(s: string, c: int)
    requires MidlineCut(s) == c >= 0
    ensures c < |s| && (forall j :: !IsCut(s[..c], j)) && Stopped(s[..c])
  {
    hide MidlineCut;
    forall j ensures !IsCut(s[..c], j) {
      assert s == s[..c] + s[c..];
      if j < c { CutInPrefix(s[..c], s[c..], j); }
    }
  }

  lemma {:induction false} SplitExactly(b: Buffer, s: string)
    requires NoOpening(b.filter, b.sentence) && NoOpening(b.filter, s)
    requires Open(b.sentence) && ReadyForWord(b.sentence) && Printable(b.sentence) && Plain(s)
    ensures NewEventsExact(b.delivered, SplitLine(b, s).delivered)
    ensures Open(SplitLine(b, s).sentence) && Printable(SplitLine(b, s).sentence)
    ensures NoOpening(b.filter, SplitLine(b, s).sentence)
    decreases |s|
  {
    hide SplitLine, MidlineCut, EndIsAbbreviation, Exact, StripSpaces, IsCut, EndsInStop, Reset, Open;
    var c := MidlineCut(s);
    if c >= 0 {
      MidlineCutBound(s);
      PlainCut(b, s, c);
      NoEarlierCut(s, c);
      StopStep(b, s[..c]);
      CutKeepsFilter(b, s[..c]);
      var b' := ResetUnlessAbbreviation(Append(b, s[..c]));
      CutFollowsSpace(s, c);
      SplitExactly(b', s[c..]);
    } else {
      PlainEnd(b, s);
      NoCutAtAll(s);
      PlainStopped(s);
      if EndsInStop(s) { StopStep(b, s); } else { StaysOpen(b.sentence, s); }
    }
  }

  lemma {:induction false} CutFollowsSpace(s: string, c: int)
    requires MidlineCut(s) == c >= 0
    ensures 0 < c < |s| && s[c - 1] == ' ' && s[c] != ' '
  {}

  lemma {:induction false} NoCutAtAll(s: string)
    requires MidlineCut(s) < 0
    ensures forall j :: !IsCut(s, j)
  {
    hide MidlineCut;
    forall j ensures !IsCut(s, j) { if j < 0 {} }
  }

  lemma {:induction false} PlainStopped(s: string)
    requires Plain(s)
    ensures Stopped(s) == EndsInStop(s)
  {}

  lemma {:induction false} StaysOpen(x: string, s: string)
    requires Open(x) && ReadyForWord(x) && Plain(s) && !Stopped(s) && forall j :: !IsCut(s, j)
    ensures Open(x + s)
    ensures Printable(x) ==> Printable(x + s)
  {
    hide StripSpaces, EndIsAbbreviation, EndsInStop;
    WholeAppend(x, s);
    StoppedAppend(x, s);
  }

  lemma {:induction false} SpaceStaysOpen(b: Buffer)
    requires Open(b.sentence) && Printable(b.sentence)
    ensures Open(AddSpace(b).sentence) && Printable(AddSpace(b).sentence) && ReadyForWord(AddSpace(b).sentence)
  {
    hide EndIsAbbreviation, Trim, StripSpaces, EndsInStop;
    var x := b.sentence;
    if AddSpace(b) != b {
      var y := x + " ";
      StripConcat(x, " ");
      TrimTrailingSpace(x);
      AbbreviationByTrim(x, y);
      forall c | IsCut(y, c) ensures EndIsAbbreviation(y[..c]) {
        if c < |x| { CutInPrefix(x, " ", c); assert y[..c] == x[..c]; }
      }
    }
  }

  /**
   * Plain lines from any open state, without an opening bracket if filtering is on: each event
   * delivered ends in a stop that is not an abbreviation and contains no other such stop, and what is
   * pending has none at all.
   */
  lemma {:induction false} SentencesAreExact(st: Buffer, lines: seq<string>)
    requires NoOpening(st.filter, st.sentence) && Open(st.sentence) && Printable(st.sentence)
    requires forall i :: 0 <= i < |lines| ==> Plain(lines[i]) && NoOpening(st.filter, lines[i])
    ensures NewEventsExact(st.delivered, Feed(st, lines).delivered)
    ensures Open(Feed(st, lines).sentence) && Printable(Feed(st, lines).sentence)
    ensures Feed(st, lines).filter == st.filter && NoOpening(st.filter, Feed(st, lines).sentence)
  {
    hide Open, Exact, Plain, SplitLine, LineReady;
    if lines != [] {
      var init, last := lines[..|lines| - 1], lines[|lines| - 1];
      SentencesAreExact(st, init);
      var b := Feed(st, init);
      PlainLineReady(b, last);
      SpaceStaysOpen(b);
      SplitExactly(AddSpace(b), last);
      SplitKeepsFilter(AddSpace(b), last);
    }
  }
}
