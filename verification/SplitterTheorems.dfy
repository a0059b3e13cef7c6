/** Who is speaking, what a chevron ends, and what filtering and corrupt characters do to a line. */
module SplitterTheorems {
  import opened Text
  import opened Sentences
  import opened SentenceTheorems
  import opened SentenceExactness

  // ---------- speakers ----------

  /** The event that is due when the sentence pending is cut off here. */
  function Pending(b: Buffer): seq<Event> {
    var text := Trim(if b.filter then RemoveSoundEffects(b.sentence) else b.sentence);
    if b.speaker.None? && text == "" then [] else [Event(b.speaker, text, b.errors)]
  }

  predicate Trimmed(s: string) { s != "" ==> s[0] > ' ' && s[|s| - 1] > ' ' }

  predicate EndsDark(s: string) { s != "" ==> s[|s| - 1] > ' ' }

  /** Only characters that trim() drops. */
  predicate Blank(s: string) { forall k :: 0 <= k < |s| ==> s[k] <= ' ' }

  /** Chevrons in a row, each with the blanks behind it. */
  function Chevrons(blanks: seq<string>): string {
    if blanks == [] then "" else ">>" + (blanks[0] + Chevrons(blanks[1..]))
  }

  predicate AllBlank(blanks: seq<string>) { forall i :: 0 <= i < |blanks| ==> Blank(blanks[i]) }

  /** Chevrons in a row: all but the last end a turn in which nothing was said. */
  function SilentTurns(n: nat): seq<Event> {
    if n <= 1 then [] else [Event(Some(""), "", 0)] + SilentTurns(n - 1)
  }

  lemma {:induction false} ResetDelivers(b: Buffer)
    ensures Reset(b) == Buffer(b.filter, None, "", 0, b.delivered + Pending(b))
  {
    hide Trim, RemoveSoundEffects;
  }

  /** After the last chevron. */
  function AfterChevrons(b: Buffer, n: nat): Buffer {
    if n == 0 then b else Buffer(b.filter, Some(""), "", 0, b.delivered + Pending(b) + SilentTurns(n))
  }

  lemma {:induction false} BlanksTrimmed(before: string, s: string, after: string)
    requires Blank(before) && Blank(after) && Trimmed(s) && s != ""
    ensures Trim(before + s + after) == s
  {
    hide *;
    Regroup(before, s, after);
    FirstOf(s, after);
    LeftTrimmed(before, s + after);
    RightTrimmed(s, after);
    TrimIs(before + s + after);
  }

  lemma {:induction false} TrimIs(s: string)
    ensures Trim(s) == TrimRight(TrimLeft(s))
  {}

  lemma {:induction false} Regroup(x: string, y: string, z: string)
    ensures x + y + z == x + (y + z)
  {}

  lemma {:induction false} FirstOf(s: string, after: string)
    requires Trimmed(s) && s != ""
    ensures (s + after)[0] > ' ' && EndsDark(s)
  {}

  lemma {:induction false} LeftTrimmed(before: string, s: string)
    requires Blank(before) && (s != "" ==> s[0] > ' ')
    ensures TrimLeft(before + s) == s
  {
    if before == "" {
      assert before + s == s;
    } else {
      assert (before + s)[1..] == before[1..] + s;
      LeftTrimmed(before[1..], s);
    }
  }

  lemma {:induction false} RightTrimmed(s: string, after: string)
    requires Blank(after) && EndsDark(s)
    ensures TrimRight(s + after) == s
  {
    if after == "" {
      assert s + after == s;
    } else {
      var n := |after| - 1;
      assert (s + after)[..|s| + n] == s + after[..n];
      RightTrimmed(s, after[..n]);
    }
  }

  lemma {:induction false} ChevronOnce(b: Buffer, blanks: string, s: string)
    requires Trimmed(s) && s != "" && Blank(blanks)
    ensures StripChevrons(b, ">>" + (blanks + s)) == StripChevrons(Reset(b).(speaker := Some("")), s)
  {
    hide Reset, StripChevrons, Trim;
    var t := ">>" + (blanks + s);
    BlanksTrimmed(blanks, s, "");
    assert t[2..] == blanks + s + "";
    StripStep(b, t);
  }

  lemma {:induction false} SilentTurn(b: Buffer)
    requires b.speaker == Some("") && b.sentence == "" && b.errors == 0
    ensures Pending(b) == [Event(Some(""), "", 0)]
  {
    assert RemoveSoundEffects("") == "" by { assert RemoveOneEffect("") == ""; }
  }

  lemma {:induction false} ChevronsAreStripped(b: Buffer, blanks: seq<string>, s: string)
    requires Trimmed(s) && s != "" && !StartsWithChevron(s) && AllBlank(blanks)
    ensures StripChevrons(b, Chevrons(blanks) + s) == (AfterChevrons(b, |blanks|), s)
    decreases |blanks|
  {
    hide Reset, Pending, StripChevrons, StartsWithChevron, SilentTurns, Blank;
    if blanks == [] {
      assert Chevrons(blanks) + s == s;
      NoChevronLeft(b, s);
    } else {
      var rest := Chevrons(blanks[1..]) + s;
      assert Chevrons(blanks) + s == ">>" + (blanks[0] + rest);
      ChevronsTrimmed(blanks[1..], s);
      hide AfterChevrons, Chevrons, Trimmed;
      ChevronOnce(b, blanks[0], rest);
      ChevronsAreStripped(Reset(b).(speaker := Some("")), blanks[1..], s);
      OneMoreChevron(b, |blanks|);
    }
  }

  lemma {:induction false} OneMoreChevron(b: Buffer, n: nat)
    requires n > 0
    ensures AfterChevrons(Reset(b).(speaker := Some("")), n - 1) == AfterChevrons(b, n)
  {
    hide Reset, Pending;
    ResetDelivers(b);
    SilentTurn(Reset(b).(speaker := Some("")));
    var d := b.delivered + Pending(b);
    assert n > 1 ==> d + SilentTurns(n) == d + [Event(Some(""), "", 0)] + SilentTurns(n - 1);
    assert n == 1 ==> d + SilentTurns(1) == d;
  }

  lemma {:induction false} NoChevronLeft(b: Buffer, s: string)
    requires !StartsWithChevron(s)
    ensures StripChevrons(b, s) == (b, s)
  {}

  lemma {:induction false} ChevronsTrimmed(blanks: seq<string>, s: string)
    requires Trimmed(s) && s != "" && AllBlank(blanks)
    ensures var t := Chevrons(blanks) + s; Trimmed(t) && t != "" && (StartsWithChevron(t) || blanks == [])
  {
    var t := Chevrons(blanks) + s;
    assert t[|t| - 1] == s[|s| - 1];
  }

  /** How a line may begin that names a speaker: blanks, chevrons, the name, blanks, the colon. */
  datatype Turn = Turn(lead: string, blanks: seq<string>, name: string, gap: string)

  predicate ValidTurn(t: Turn) {
    && Blank(t.lead) && AllBlank(t.blanks) && Blank(t.gap) && (t.name == "" ==> t.gap == "")
    && Trimmed(t.name) && (forall k :: 0 <= k < |t.name| ==> t.name[k] != ':') && !StartsWithChevron(t.name)
  }

  function Named(t: Turn, rest: string): string { t.name + t.gap + ":" + rest }

  /** The line: rest is what follows the colon, tail the blanks at its end. */
  function LineOf(t: Turn, rest: string, tail: string): string {
    t.lead + (Chevrons(t.blanks) + Named(t, rest)) + tail
  }

  /** The turn of that speaker begins: what was pending is delivered, and silent turns before it. */
  function Begun(b: Buffer, t: Turn): Buffer {
    Buffer(b.filter, Some(t.name), "", 0, b.delivered + Pending(b) + SilentTurns(|t.blanks|))
  }

  /**
   * The speaker's name is what stands between the chevrons and the first colon, whatever follows, and
   * the rest of the line is exactly what does; before that the sentence pending is delivered.
   */
  lemma {:induction false} SpeakerIsNamed(b: Buffer, t: Turn, rest: string, tail: string)
    requires ValidTurn(t) && EndsDark(rest) && Blank(tail)
    ensures FindSpeaker(b, LineOf(t, rest, tail)) == (Begun(b, t), rest)
  {
    hide *;
    NamedLine(t, rest);
    LineStripped(b, t, rest, tail);
    NameFound(b, LineOf(t, rest, tail), AfterChevrons(b, |t.blanks|), Named(t, rest), |t.name + t.gap|);
    BegunAfter(b, t);
  }

  lemma {:induction false} LineStripped(b: Buffer, t: Turn, rest: string, tail: string)
    requires ValidTurn(t) && EndsDark(rest) && Blank(tail)
    ensures var line := Trim(LineOf(t, rest, tail));
      && StripChevrons(b, line) == (AfterChevrons(b, |t.blanks|), Named(t, rest))
      && (StartsWithChevron(line) <==> |t.blanks| > 0)
  {
    hide *;
    var s := Named(t, rest);
    TurnFacts(t);
    NamedLine(t, rest);
    ChevronsTrimmed(t.blanks, s);
    BlanksTrimmed(t.lead, Chevrons(t.blanks) + s, tail);
    LineIs(t, rest, tail);
    ChevronsAreStripped(b, t.blanks, s);
    if t.blanks == [] { NoChevrons(s); }
  }

  lemma {:induction false} TurnFacts(t: Turn)
    requires ValidTurn(t)
    ensures Blank(t.lead) && AllBlank(t.blanks)
  {}

  lemma {:induction false} LineIs(t: Turn, rest: string, tail: string)
    ensures LineOf(t, rest, tail) == t.lead + (Chevrons(t.blanks) + Named(t, rest)) + tail
  {}

  lemma {:induction false} NameFound(b: Buffer, text: string, b1: Buffer, s: string, colon: nat)
    requires StripChevrons(b, Trim(text)) == (b1, s) && IndexOf(s, ':') == colon < |s|
    ensures FindSpeaker(b, text) ==
      ((if StartsWithChevron(Trim(text)) then b1 else Reset(b1)).(speaker := Some(Trim(s[..colon]))), s[colon + 1..])
  {
    hide Trim, Reset, StripChevrons, IndexOf;
  }

  lemma {:induction false} BegunAfter(b: Buffer, t: Turn)
    ensures var n := |t.blanks|;
      (if n > 0 then AfterChevrons(b, n) else Reset(AfterChevrons(b, n))).(speaker := Some(t.name)) == Begun(b, t)
  {
    hide Reset, Pending, SilentTurns;
    if t.blanks == [] {
      ResetDelivers(b);
      NoTurns(b.delivered + Pending(b));
    }
  }

  lemma {:induction false} NoChevrons(s: string)
    ensures Chevrons([]) + s == s
  {
    assert "" + s == s;
  }

  lemma {:induction false} NoTurns(d: seq<Event>)
    ensures d + SilentTurns(0) == d
  {}

  lemma {:induction false} NamedLine(t: Turn, rest: string)
    requires ValidTurn(t) && EndsDark(rest)
    ensures var s, n := Named(t, rest), |t.name + t.gap|;
      && s != "" && Trimmed(s) && !StartsWithChevron(s) && IndexOf(s, ':') == n < |s|
      && Trim(s[..n]) == t.name && s[n + 1..] == rest
  {
    hide IndexOf, Trim;
    var s, n := Named(t, rest), |t.name + t.gap|;
    assert s[n] == ':';
    assert forall k :: 0 <= k < |t.name| ==> s[k] == t.name[k];
    assert forall k :: |t.name| <= k < n ==> s[k] == t.gap[k - |t.name|] <= ' ';
    assert s[|s| - 1] == if rest == "" then ':' else rest[|rest| - 1];
    assert s[..n] == "" + t.name + t.gap;
    if t.name == "" { TrimFixed(""); } else { BlanksTrimmed("", t.name, t.gap); }
  }

  /** Without a colon a chevron says only that somebody else is speaking, and no chevron nothing at all. */
  lemma {:induction false} SpeakerIsUnnamed(b: Buffer, lead: string, blanks: seq<string>, text: string, tail: string)
    requires Blank(lead) && AllBlank(blanks) && Blank(tail)
    requires text != "" && Trimmed(text) && !StartsWithChevron(text) && forall k :: 0 <= k < |text| ==> text[k] != ':'
    ensures FindSpeaker(b, lead + (Chevrons(blanks) + text) + tail) == (AfterChevrons(b, |blanks|), text)
  {
    hide Reset, Pending, StripChevrons, Chevrons, IndexOf, AfterChevrons, Trim, Blank, AllBlank;
    ChevronsTrimmed(blanks, text);
    BlanksTrimmed(lead, Chevrons(blanks) + text, tail);
    ChevronsAreStripped(b, blanks, text);
  }

  predicate NoControl(s: string) { forall k :: 0 <= k < |s| ==> !IsControl(s[k]) }

  /** The same for a whole line: after the name the splitting starts with an empty sentence. */
  lemma {:induction false} LineWithSpeaker(b: Buffer, t: Turn, rest: string, tail: string)
    requires ValidTurn(t) && EndsDark(rest) && Blank(tail)
    requires NoControl(LineOf(t, rest, tail)) && Unfiltered(b.filter, LineOf(t, rest, tail))
    ensures LineReady(b, LineOf(t, rest, tail)) == SplitLine(Begun(b, t), rest)
  {
    hide FindSpeaker, LineOf, SilentTurns, Pending, SplitLine, ValidTurn, Blank, EndsDark;
    SpeakerIsNamed(b, t, rest, tail);
    LineUnfolded(b, LineOf(t, rest, tail));
  }

  lemma {:induction false} UnfilteredIsKept(filter: bool, s: string, from: nat)
    requires Unfiltered(filter, s) && from <= |s|
    ensures filter ==> RemoveSoundEffects(s[from..]) == s[from..]
  {
    hide RemoveSoundEffects, HasSoundEffect;
    if filter {
      assert s[from..|s|] == s[from..];
      PartHasNoEffect(s, from, |s|);
      NoEffectIsKept(s[from..]);
    }
  }

  /** Words without a stop, and the stop that ends the sentence, with or without a quote. */
  predicate OneSentence(words: string, stop: char, quote: string) {
    && (forall k :: 0 <= k < |words| ==> words[k] != '.' && words[k] != '?' && words[k] != '!')
    && words != "" && words[|words| - 1] != ' ' && NoChevron(words)
    && stop in {'.', '?', '!'} && quote in {"", "\""}
  }

  lemma {:induction false} OneSentenceHasNoCut(words: string, stop: char, quote: string)
    requires OneSentence(words, stop, quote)
    ensures var rest := words + [stop] + quote;
      EndsDark(rest) && NoChevron(rest) && EndsInStop(rest) && MidlineCut(rest) < 0
  {
    hide MidlineCut, IsCut;
    var rest := words + [stop] + quote;
    assert forall k :: 0 <= k < |words| ==> rest[k] == words[k];
    assert rest[|words|] == stop;
    forall k | 0 <= k && k + 1 < |rest| ensures !(rest[k] == '>' && rest[k + 1] == '>') {
      if k + 1 < |words| { assert !(words[k] == '>' && words[k + 1] == '>'); }
    }
    forall c ensures !IsCut(rest, c) { NoCutIn(words, stop, quote, c); }
  }

  lemma {:induction false} NoCutIn(words: string, stop: char, quote: string, c: int)
    requires OneSentence(words, stop, quote)
    ensures !IsCut(words + [stop] + quote, c)
  {
    hide StripSpaces;
    var rest := words + [stop] + quote;
    if 0 < c < |rest| && rest[c - 1] == ' ' {
      var head := StripSpaces(rest[..c]);
      assert c <= |words|;
      assert forall k :: 0 <= k < |head| ==> head[k] == words[k];
    }
  }

  /** A line that is one named sentence: colons and all, it is delivered at once as it stands. */
  lemma {:induction false} NamedSentenceIsDelivered(
    b: Buffer, t: Turn, words: string, stop: char, quote: string, tail: string)
    requires ValidTurn(t) && OneSentence(words, stop, quote) && Blank(tail)
    requires !EndIsAbbreviation(words + [stop] + quote)
    requires var line := LineOf(t, words + [stop] + quote, tail); NoControl(line) && Unfiltered(b.filter, line)
    ensures LineReady(b, LineOf(t, words + [stop] + quote, tail)) ==
      Buffer(b.filter, None, "", 0, Begun(b, t).delivered + [Event(Some(t.name), Trim(words + [stop] + quote), 0)])
  {
    hide *;
    var rest := words + [stop] + quote;
    OneSentenceHasNoCut(words, stop, quote);
    LineWithSpeaker(b, t, rest, tail);
    BegunFacts(b, t);
    var x := Begun(b, t);
    var y := x.(sentence := rest);
    WholeSentence(x, rest);
    ResetDelivers(y);
    RestOf(t, rest, tail);
    var line := LineOf(t, rest, tail);
    PartIsUnfiltered(b.filter, line, |line| - |rest| - |tail|, |line| - |tail|);
    UnfilteredIsKept(b.filter, rest, 0);
    assert rest[0..] == rest;
    OneEvent(y);
  }

  lemma {:induction false} BegunFacts(b: Buffer, t: Turn)
    ensures var x := Begun(b, t);
      x == Buffer(b.filter, Some(t.name), "", 0, x.delivered)
  {}

  lemma {:induction false} RestOf(t: Turn, rest: string, tail: string)
    ensures var line := LineOf(t, rest, tail);
      |line| >= |rest| + |tail| && line[|line| - |rest| - |tail|..|line| - |tail|] == rest
  {
    hide Chevrons;
  }

  lemma {:induction false} EmptyAppend(x: Buffer, s: string)
    requires x.sentence == ""
    ensures Append(x, s) == x.(sentence := s)
  {
    assert "" + s == s;
  }

  lemma {:induction false} WholeSentence(x: Buffer, s: string)
    requires EndsDark(s) && NoChevron(s) && MidlineCut(s) < 0 && EndsInStop(s) && !EndIsAbbreviation(s)
    requires x.sentence == ""
    ensures SplitLine(x, s) == Reset(x.(sentence := s))
  {
    hide EndIsAbbreviation, Reset, EndOfLine, CutPoint, Append;
    NotCut(s);
    EmptyAppend(x, s);
  }

  lemma {:induction false} NotCut(s: string)
    requires EndsDark(s) && NoChevron(s) && MidlineCut(s) < 0 && EndsInStop(s)
    ensures CutPoint(s) < 0 && EndOfLine(s)
  {
    hide EndsInStop, MidlineCut, StripSpaces;
    DarkIsKept(s);
  }

  lemma {:induction false} DarkIsKept(s: string)
    requires EndsDark(s)
    ensures StripSpaces(s) == s
  {}

  lemma {:induction false} OneEvent(b: Buffer)
    requires b.speaker.Some?
    ensures Pending(b) ==
      [Event(b.speaker, Trim(if b.filter then RemoveSoundEffects(b.sentence) else b.sentence), b.errors)]
  {
    hide Trim, RemoveSoundEffects;
  }

  // ---------- chevrons inside a line ----------

  lemma {:induction false} ResetTwice(b: Buffer)
    ensures Reset(Reset(b)) == Reset(b)
  {
    hide Pending, Reset;
    ResetDelivers(b);
    ResetDelivers(Reset(b));
    NothingPending(Reset(b));
    assert b.delivered + Pending(b) + [] == b.delivered + Pending(b);
  }

  lemma {:induction false} NothingPending(b: Buffer)
    requires b.speaker.None? && b.sentence == ""
    ensures Pending(b) == []
  {
    assert RemoveSoundEffects("") == "" by { assert RemoveOneEffect("") == ""; }
  }

  /** From a chevron on, only what resetting would deliver of the past counts. */
  lemma {:induction false} ChevronForgets(x: Buffer, y: Buffer, s: string)
    requires Reset(x) == Reset(y) && StartsWithChevron(s)
    ensures FindSpeaker(x, s) == FindSpeaker(y, s) && FindSpeaker(x, s).0.sentence == ""
  {
    hide Reset, Trim;
    TrimKeepsFirst(s);
    StripStep(x, Trim(s));
    StripStep(y, Trim(s));
    StripLeavesSpeaker(x, Trim(s));
  }

  lemma {:induction false} ChevronAt(a: string, tail: string, i: nat)
    requires NoChevron(a) && i + 1 < |tail| && tail[i] == tail[i + 1] == '>'
    requires i <= 1 && (if i == 0 then a != "" && a[|a| - 1] != '>' else tail[0] == ' ')
    ensures Chevron(a + tail) == |a| + i
  {
    hide Chevron;
    var s := a + tail;
    assert s[|a| + i] == '>' && s[|a| + i + 1] == '>';
    forall k | 0 <= k < |a| + i ensures !(s[k] == '>' && s[k + 1] == '>') {
      if k + 1 < |a| { assert !(a[k] == '>' && a[k + 1] == '>'); }
    }
  }

  /** Where a sentence is followed by chevrons, with or without a space between. */
  lemma {:induction false} CutAtChevron(a: string, space: string, rest: string)
    requires Plain(a) && space in {"", " "} && (space == "" ==> a[|a| - 1] != '>')
    ensures var s := a + space + (">>" + rest);
      CutPoint(s) == if MidlineCut(a) >= 0 then MidlineCut(a) else |a| + |space|
  {
    hide MidlineCut, Chevron, IsCut;
    var tail := space + (">>" + rest);
    var s := a + tail;
    assert s == a + space + (">>" + rest);
    ChevronAt(a, tail, |space|);
    forall c | c < |a| ensures IsCut(s, c) == IsCut(a, c) { CutInPrefix(a, tail, c); }
    MidlineCutBound(a);
    if MidlineCut(s) >= 0 && MidlineCut(a) < 0 {
      assert MidlineCut(s) >= |a|;
      NoCutAfterDark(a, tail);
    }
  }

  lemma {:induction false} NoCutAfterDark(a: string, tail: string)
    requires a != "" && a[|a| - 1] != ' '
    ensures !IsCut(a + tail, |a|)
  {}

  /** After a cut the colon is looked for in all that is left, so behind a cut rest must have none. */
  predicate Reaches(a: string, rest: string) { MidlineCut(a) >= 0 ==> ':' !in rest && EndsDark(rest) }

  lemma {:induction false} NobodyNamed(b: Buffer, s: string)
    requires Trimmed(s) && !StartsWithChevron(s) && ':' !in s
    ensures FindSpeaker(b, s) == (b, s)
  {
    hide Trim, Reset, StripChevrons;
    TrimFixed(s);
    NoChevronLeft(b, s);
  }

  lemma {:induction false} NoSpeakerBeforeChevron(b: Buffer, a: string, space: string, rest: string)
    requires Plain(a) && space in {"", " "} && (space == "" ==> a[|a| - 1] != '>')
    requires ':' !in rest && EndsDark(rest)
    ensures FindSpeaker(b, a + space + (">>" + rest)) == (b, a + space + (">>" + rest))
  {
    hide FindSpeaker;
    var s := a + space + (">>" + rest);
    assert forall k :: 0 <= k < |a| ==> s[k] == a[k];
    assert s[|s| - 1] == if rest == "" then '>' else rest[|rest| - 1];
    NobodyNamed(b, s);
  }

  lemma {:induction false} SameEnd(a: string, c: int)
    requires Plain(a) && 0 <= c < |a|
    ensures a[c..][|a[c..]| - 1] == a[|a| - 1]
  {}

  /** Up to the chevron, a line so far without a cut leaves the same to deliver as a line that ends there. */
  lemma {:induction false} SamePast(st: Buffer, a: string, space: string)
    requires Plain(a) && MidlineCut(a) < 0 && space in {"", " "}
    ensures Reset(ResetUnlessAbbreviation(Append(st, a + space))) == Reset(SplitLine(st, a))
  {
    hide EndIsAbbreviation, Reset, MidlineCut, SplitLine;
    PlainEnd(st, a);
    var x, y := Append(st, a), Append(st, a + space);
    if space == " " {
      assert y.sentence == x.sentence + " ";
      ResetIgnoresTrailingSpace(x, y);
    } else {
      assert a + space == a;
    }
    ResetTwice(x);
    ResetTwice(y);
  }

  lemma {:induction false} ChevronFirst(rest: string)
    ensures StartsWithChevron(">>" + rest)
  {}

  /** Splitting a text with chevrons in it is splitting what stands before them, then the rest as a line. */
  lemma {:induction false} SplitAtChevron(st: Buffer, a: string, space: string, rest: string)
    requires Plain(a) && space in {"", " "} && (space == "" ==> a[|a| - 1] != '>') && Reaches(a, rest)
    ensures var (b, line) := FindSpeaker(SplitLine(st, a), ">>" + rest);
      SplitLine(st, a + space + (">>" + rest)) == SplitLine(AddSpace(b), line)
    decreases |a|
  {
    hide Plain, FindSpeaker, MidlineCut, EndIsAbbreviation, ResetUnlessAbbreviation, EndOfLine;
    hide StartsWithChevron, CutPoint;
    var s, c := a + space + (">>" + rest), MidlineCut(a);
    CutAtChevron(a, space, rest);
    if c >= 0 {
      MidlineCutBound(a);
      PlainCut(st, a, c);
      var b1 := ResetUnlessAbbreviation(Append(st, a[..c]));
      assert s[..c] == a[..c] && s[c..] == a[c..] + space + (">>" + rest);
      NoSpeakerBeforeChevron(b1, a[c..], space, rest);
      SameEnd(a, c);
      SplitAtChevron(b1, a[c..], space, rest);
    } else {
      var e := |a| + |space|;
      assert s[..e] == a + space && s[e..] == ">>" + rest;
      PlainEnd(st, a);
      var x := ResetUnlessAbbreviation(Append(st, a + space));
      SamePast(st, a, space);
      ChevronFirst(rest);
      ChevronForgets(x, SplitLine(st, a), ">>" + rest);
    }
  }

  /** Plain a, then chevrons with or without a space before them, then a text without a colon. */
  predicate ChevronLine(a: string, space: string, rest: string) {
    && Plain(a) && space in {"", " "} && (space == "" ==> a[|a| - 1] != '>')
    && NoControl(rest) && ':' !in rest && EndsDark(rest)
  }

  /** Chevrons inside a line do what a line break in front of them does. */
  lemma {:induction false} ChevronIsABreak(b: Buffer, a: string, space: string, rest: string)
    requires ChevronLine(a, space, rest) && Unfiltered(b.filter, a + space + (">>" + rest))
    ensures LineReady(b, a + space + (">>" + rest)) == LineReady(LineReady(b, a), ">>" + rest)
  {
    hide *;
    var s, turn := a + space + (">>" + rest), ">>" + rest;
    ChevronParts(a, space, rest);
    assert s[0..|a|] == a && s[|a| + |space|..|s|] == turn;
    PartIsUnfiltered(b.filter, s, 0, |a|);
    PartIsUnfiltered(b.filter, s, |a| + |space|, |s|);
    PlainLineReady(b, a);
    var b1 := SplitLine(AddSpace(b), a);
    SpaceKeepsFilter(b);
    SplitKeepsFilter(AddSpace(b), a);
    LineUnfolded(b, s);
    LineUnfolded(b1, turn);
    NoSpeakerBeforeChevron(b, a, space, rest);
    SplitAtChevron(AddSpace(b), a, space, rest);
  }

  lemma {:induction false} SpaceKeepsFilter(b: Buffer)
    ensures AddSpace(b).filter == b.filter
  {}

  lemma {:induction false} ChevronParts(a: string, space: string, rest: string)
    requires ChevronLine(a, space, rest)
    ensures Plain(a) && space in {"", " "} && (space == "" ==> a[|a| - 1] != '>') && Reaches(a, rest)
    ensures ':' !in rest && EndsDark(rest) && NoControl(a + space + (">>" + rest)) && NoControl(">>" + rest)
  {
    hide MidlineCut;
  }

  lemma {:induction false} PartIsUnfiltered(filter: bool, s: string, lo: int, hi: int)
    requires Unfiltered(filter, s) && 0 <= lo <= hi <= |s|
    ensures Unfiltered(filter, s[lo..hi])
  {
    hide HasSoundEffect;
    if filter { PartHasNoEffect(s, lo, hi); }
  }

  lemma {:induction false} LineUnfolded(b: Buffer, s: string)
    requires NoControl(s) && Unfiltered(b.filter, s)
    ensures LineReady(b, s) == SplitLine(AddSpace(FindSpeaker(b, s).0), FindSpeaker(b, s).1)
  {
    hide HasSoundEffect, RemoveSoundEffects, FindSpeaker, SplitLine, StripControls;
    PlainIsKept(s);
    if b.filter { NoEffectIsKept(s); }
  }

  // ---------- corrupt lines ----------

  /** How many characters of s are control characters. */
  function ControlCount(s: string): nat {
    if s == "" then 0 else (if s[0] < ' ' || s[0] == '\U{007F}' then 1 else 0) + ControlCount(s[1..])
  }

  lemma {:induction false} StripCount(s: string)
    ensures |StripControls(s)| + ControlCount(s) == |s|
  {
    if s != "" { StripCount(s[1..]); }
  }

  lemma {:induction false} StripJoin(x: string, y: string)
    ensures StripControls(x + y) == StripControls(x) + StripControls(y)
  {
    if x == "" {
      assert x + y == y;
    } else {
      assert (x + y)[1..] == x[1..] + y;
      StripJoin(x[1..], y);
    }
  }

  /** A line with more than one control character in ten is dropped, and with it the sentence is over. */
  lemma {:induction false} CorruptLineEndsSentence(b: Buffer, line: string)
    requires 10 * ControlCount(line) > |line|
    ensures LineReady(b, line) == Buffer(b.filter, None, "", 0, b.delivered + Pending(b))
  {
    hide StripControls, Pending, Reset, ControlCount;
    StripCount(line);
    ResetDelivers(b);
  }

  /** In any other line control characters might as well not be there. */
  lemma {:induction false} ControlsAreTransparent(b: Buffer, x: string, c: char, y: string)
    requires c < ' ' || c == '\U{007F}'
    requires 10 * ControlCount(x + [c] + y) <= |x + [c] + y|
    ensures LineReady(b, x + [c] + y) == LineReady(b, x + y)
  {
    hide StripControls, Reset, ControlCount, FindSpeaker, SplitLine, RemoveSoundEffects;
    StripCount(x + [c] + y);
    StripCount(x + y);
    StripJoin(x + [c], y);
    StripJoin(x, [c]);
    StripJoin(x, y);
    NothingKept(c);
    assert StripControls(x + [c] + y) == StripControls(x + y);
  }

  lemma {:induction false} NothingKept(c: char)
    requires c < ' ' || c == '\U{007F}'
    ensures StripControls([c]) == ""
  {
    assert [c][1..] == "";
  }

  // ---------- sound effects ----------

  predicate AllSpaces(s: string) { forall k :: 0 <= k < |s| ==> s[k] == ' ' }

  /** Brackets with anything between them, spaces around them, and no other effect in the same line. */
  predicate EffectIn(h: string, before: string, open: char, mid: string, close: char, after: string, t: string) {
    && open in {'(', '['} && close in {')', ']'} && AllSpaces(before) && AllSpaces(after)
    && (h != "" ==> h[|h| - 1] != ' ') && (t != "" ==> t[0] != ' ')
    && (forall k :: 0 <= k < |h| ==> h[k] != '(' && h[k] != '[')
    && (forall k :: 0 <= k < |t| ==> t[k] != ')' && t[k] != ']')
  }

  predicate OnOneLine(s: string) { forall k :: 0 <= k < |s| ==> !IsLineTerminator(s[k]) }

  lemma {:induction false} FirstIs(s: string, p: char -> bool, i: nat)
    requires i <= |s| && (i < |s| ==> p(s[i])) && forall k :: 0 <= k < i ==> !p(s[k])
    ensures FirstWhere(s, p) == i
  {}

  lemma {:induction false} LastIs(s: string, p: char -> bool, i: nat)
    requires i < |s| && p(s[i]) && forall k :: i < k < |s| ==> !p(s[k])
    ensures LastWhere(s, p) == i
  {}

  lemma {:induction false} SpacesStripped(h: string, spaces: string)
    requires AllSpaces(spaces) && (h != "" ==> h[|h| - 1] != ' ')
    ensures StripSpaces(h + spaces) == h
  {
    hide StripSpaces, AllSpaces;
    StripConcat(h, spaces);
    OnlySpaces(spaces);
    NoSpaces(h);
  }

  lemma {:induction false} OnlySpaces(s: string)
    requires AllSpaces(s)
    ensures StripSpaces(s) == ""
  {
    if s != "" { OnlySpaces(s[..|s| - 1]); }
  }

  lemma {:induction false} NoSpaces(s: string)
    requires s != "" ==> s[|s| - 1] != ' '
    ensures StripSpaces(s) == s
  {
  }

  lemma {:induction false} SpacesDropped(spaces: string, t: string)
    requires AllSpaces(spaces) && (t != "" ==> t[0] != ' ')
    ensures DropSpaces(spaces + t) == t
  {
    if spaces == "" {
      assert spaces + t == t;
    } else {
      assert (spaces + t)[1..] == spaces[1..] + t;
      SpacesDropped(spaces[1..], t);
    }
  }

  /** From the first opening to the last closing bracket, with the spaces around, all becomes one space. */
  lemma {:induction false} EffectBecomesSpace(
    h: string, before: string, open: char, mid: string, close: char, after: string, t: string)
    requires EffectIn(h, before, open, mid, close, after, t)
    requires OnOneLine(h + before + [open] + mid + [close] + after + t)
    ensures RemoveSoundEffects(h + before + [open] + mid + [close] + after + t) == h + " " + t
  {
    hide FirstWhere, LastWhere, StripSpaces, DropSpaces, RemoveOneEffect, IsLineTerminator;
    var s := h + before + [open] + mid + [close] + after + t;
    var o := |h| + |before|;
    var c := o + 1 + |mid|;
    assert s[..o] == h + before && s[c + 1..] == after + t;
    forall k | 0 <= k < o ensures !IsOpen(s[k]) {
      assert s[k] == if k < |h| then h[k] else before[k - |h|];
    }
    forall k | c < k < |s| ensures !IsClose(s[k]) {
      assert s[k] == if k < c + 1 + |after| then after[k - c - 1] else t[k - c - 1 - |after|];
    }
    FirstIs(s, IsOpen, o);
    LastIs(s, IsClose, c);
    FirstIs(s, IsLineTerminator, |s|);
    EffectFound(s, o, c);
    SpacesStripped(h, before);
    SpacesDropped(after, t);
  }

  /** With filtering on, a line with a sound effect is a line with a space in its place. */
  lemma {:induction false} EffectIsFiltered(b: Buffer,
    h: string, before: string, open: char, mid: string, close: char, after: string, t: string)
    requires b.filter && EffectIn(h, before, open, mid, close, after, t)
    requires NoControl(h + before + [open] + mid + [close] + after + t)
    requires OnOneLine(h + before + [open] + mid + [close] + after + t)
    ensures LineReady(b, h + before + [open] + mid + [close] + after + t) == LineReady(b, h + " " + t)
  {
    hide *;
    var s, plain := h + before + [open] + mid + [close] + after + t, h + " " + t;
    EffectBecomesSpace(h, before, open, mid, close, after, t);
    FilteredHasNoEffect(s);
    assert s == h + (before + [open] + mid + [close] + after) + t;
    PartsHaveNoControl(h, before + [open] + mid + [close] + after, t);
    FilteredUnfolded(b, s);
    FilteredUnfolded(b, plain);
    NoEffectIsKept(plain);
  }

  lemma {:induction false} PartsHaveNoControl(h: string, mid: string, t: string)
    requires NoControl(h + mid + t)
    ensures NoControl(h + " " + t)
  {
    var s, plain := h + mid + t, h + " " + t;
    forall k | 0 <= k < |plain| ensures !IsControl(plain[k]) {
      if k < |h| { assert plain[k] == s[k]; }
      else if k > |h| { assert plain[k] == s[k - 1 + |mid|]; }
    }
  }

  lemma {:induction false} FilteredUnfolded(b: Buffer, s: string)
    requires b.filter && NoControl(s)
    ensures var kept := RemoveSoundEffects(s);
      LineReady(b, s) == SplitLine(AddSpace(FindSpeaker(b, kept).0), FindSpeaker(b, kept).1)
  {
    hide RemoveSoundEffects, FindSpeaker, SplitLine, StripControls;
    PlainIsKept(s);
  }
}
