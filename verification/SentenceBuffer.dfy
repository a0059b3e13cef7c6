/**
 * SentenceBuffer.java: caption lines in, (speaker, sentence, errors) events out.
 * The state is a value (Buffer) with one function per source method; class SentenceBuffer
 * is the source's object, whose methods are proved against those functions.
 */
module Sentences {
  import opened Text

  datatype Event = Event(speaker: Option<string>, sentence: string, errors: int)

  datatype Buffer = Buffer(filter: bool, speaker: Option<string>, sentence: string,
                           errors: int, delivered: seq<Event>)

  // ---------- characters and the four regular expressions ----------

  /** \p{Cntrl} */
  predicate IsControl(c: char) { c < ' ' || c == '\U{007F}' }

  /** [.?!] */
  predicate IsStop(c: char) { c == '.' || c == '?' || c == '!' }

  /** The line terminators of java.util.regex that are not in \p{Cntrl}, plus those that are. */
  predicate IsLineTerminator(c: char) {
    c == '\n' || c == '\r' || c == '\U{0085}' || c == '\U{2028}' || c == '\U{2029}'
  }

  predicate IsOpen(c: char) { c == '(' || c == '[' }
  predicate IsClose(c: char) { c == ')' || c == ']' }

  /** Character.isLetter, exact up to U+00FF and for every character the decoder produces. */
  predicate IsLetter(c: char) {
    'a' <= c <= 'z' || 'A' <= c <= 'Z' || c == '\U{00AA}' || c == '\U{00B5}' || c == '\U{00BA}' ||
    ('\U{00C0}' <= c <= '\U{00FF}' && c != '\U{00D7}' && c != '\U{00F7}')
  }

  /** garbage.matcher(line).replaceAll("") */
  function StripControls(s: string): string {
    if s == "" then "" else (if IsControl(s[0]) then "" else [s[0]]) + StripControls(s[1..])
  }

  function StripSpaces(s: string): (r: string)
    ensures r <= s && (r != "" ==> r[|r| - 1] != ' ')
    ensures forall k :: |r| <= k < |s| ==> s[k] == ' '
  {
    if s != "" && s[|s| - 1] == ' ' then StripSpaces(s[..|s| - 1]) else s
  }

  /** s ends in one of [.?!], with an optional quote after it. */
  predicate EndsInStop(s: string) {
    || (s != "" && IsStop(s[|s| - 1]))
    || (|s| >= 2 && s[|s| - 1] == '"' && IsStop(s[|s| - 2]))
  }

  /** c is the last character of a match of [.?!]+"? +[^ ], that is, m.end()-1 == c. */
  predicate IsCut(s: string, c: int) {
    0 < c < |s| && s[c] != ' ' && s[c - 1] == ' ' && EndsInStop(StripSpaces(s[..c]))
  }

  /** The first such position at or after from, or -1. */
  function MidlineCut(s: string, from: nat := 0): (c: int)
    ensures c >= 0 ==> from <= c && IsCut(s, c) && (forall k :: from <= k < c ==> !IsCut(s, k))
    ensures c < 0 ==> c == -1 && forall k :: from <= k ==> !IsCut(s, k)
    decreases |s| - from
  {
    if from >= |s| then -1
    else if IsCut(s, from) then from
    else MidlineCut(s, from + 1)
  }

  /** endofline.matcher(line).find(): $ also matches before one final line terminator. */
  predicate EndOfLine(s: string) {
    || EndsInStop(StripSpaces(s))
    || (s != "" && IsLineTerminator(s[|s| - 1]) && EndsInStop(StripSpaces(s[..|s| - 1])))
  }

  /** line.indexOf(">>") */
  function Chevron(s: string, from: nat := 0): (i: int)
    ensures i >= 0 ==> from <= i && i + 1 < |s| && s[i] == '>' && s[i + 1] == '>'
    ensures i < 0 ==> forall k :: from <= k && k + 1 < |s| ==> !(s[k] == '>' && s[k + 1] == '>')
    ensures i >= 0 ==> forall k :: from <= k < i ==> !(s[k] == '>' && s[k + 1] == '>')
    ensures -1 <= i
    decreases |s| - from
  {
    if from + 1 >= |s| then -1
    else if s[from] == '>' && s[from + 1] == '>' then from
    else Chevron(s, from + 1)
  }

  function FirstWhere(s: string, p: char -> bool): (i: nat)
    ensures i <= |s| && (i < |s| ==> p(s[i])) && (forall k :: 0 <= k < i ==> !p(s[k]))
  {
    if s == "" || p(s[0]) then 0 else 1 + FirstWhere(s[1..], p)
  }

  function LastWhere(s: string, p: char -> bool): (i: int)
    ensures -1 <= i < |s| && (i >= 0 ==> p(s[i])) && (forall k :: i < k < |s| ==> !p(s[k]))
  {
    if s == "" then -1 else if p(s[|s| - 1]) then |s| - 1 else LastWhere(s[..|s| - 1], p)
  }

  function SkipSpaces(s: string): (n: nat)
    ensures n <= |s| && (forall k :: 0 <= k < n ==> s[k] == ' ') && (n < |s| ==> s[n] != ' ')
  {
    if s != "" && s[0] == ' ' then 1 + SkipSpaces(s[1..]) else 0
  }

  /**
   * soundEffect.matcher(s).replaceAll(" "): the dot stops at line terminators, the star is
   * greedy, so in each stretch the match runs from the first bracket opened to the last closed.
   */
  function RemoveSoundEffects(s: string): string {
    var n := FirstWhere(s, IsLineTerminator);
    if n == |s| then RemoveOneEffect(s)
    else RemoveOneEffect(s[..n]) + [s[n]] + RemoveSoundEffects(s[n + 1..])
  }

  function RemoveOneEffect(s: string): string {
    var o, c := FirstWhere(s, IsOpen), LastWhere(s, IsClose);
    if o < c then StripSpaces(s[..o]) + " " + DropSpaces(s[c + 1..]) else s
  }

  function DropSpaces(s: string): (r: string)
    ensures |r| <= |s| && r == s[|s| - |r|..]
  {
    s[SkipSpaces(s)..]
  }

  const ABBREVIATIONS: set<string> := {
    "mr", "mrs", "ms", "dr", "sr", "col", "adm", "gen", "lt", "cpl", "cmd", "capt", "maj",
    "sgt", "rev", "com", "prof", "pres", "sec", "dept"
  }

  /** abbreviationSet.contains(word.toLowerCase()) */
  predicate IsListed(word: string) { Lower(word) in ABBREVIATIONS }

  // ---------- one function per method ----------

  predicate EndIsAbbreviation(sentence: string) {
    var t := Trim(sentence);
    var len := |t|;
    if len < 3 || !IsLetter(t[len - 2]) || t[len - 1] != '.' then false
    else if t[len - 3] == '.' then true
    else
      var lastSpace := LastIndexOf(t, ' ', len - 1);
      IsListed(t[lastSpace + 1..len - 1])
  }

  function Reset(b: Buffer): Buffer {
    var text := Trim(if b.filter then RemoveSoundEffects(b.sentence) else b.sentence);
    var ready := b.speaker.Some? || text != "";
    b.(speaker := None, sentence := "", errors := 0,
       delivered := b.delivered + if ready then [Event(b.speaker, text, b.errors)] else [])
  }

  predicate StartsWithChevron(s: string) { |s| >= 2 && s[0] == '>' && s[1] == '>' }

  function StripChevrons(b: Buffer, line: string): (r: (Buffer, string))
    ensures |r.1| <= |line|
    ensures StartsWithChevron(line) ==> |r.1| <= |line| - 2
    ensures !StartsWithChevron(r.1)
    decreases |line|
  {
    if StartsWithChevron(line) then
      StripChevrons(Reset(b).(speaker := Some("")), Trim(line[2..]))
    else (b, line)
  }

  function FindSpeaker(b: Buffer, line: string): (r: (Buffer, string))
    ensures |r.1| <= |line|
    ensures StartsWithChevron(line) ==> |r.1| < |line|
  {
    var trimmed := Trim(line);
    TrimKeepsFirst(line);
    var (b1, rest) := StripChevrons(b, trimmed);
    var colon := IndexOf(rest, ':');
    if colon < 0 then (b1, rest)
    else
      var b2 := (if StartsWithChevron(trimmed) then b1 else Reset(b1)).(speaker := Some(Trim(rest[..colon])));
      (b2, rest[colon + 1..])
  }

  lemma TrimKeepsFirst(s: string)
    ensures StartsWithChevron(s) ==> StartsWithChevron(Trim(s))
  {
    if StartsWithChevron(s) { TrimRightKeeps(s, 2); }
  }

  lemma {:induction false} TrimRightKeeps(s: string, n: nat)
    requires n <= |s| && (n > 0 ==> s[n - 1] > ' ')
    ensures s[..n] <= TrimRight(s)
  {
    if |s| > n && s[|s| - 1] <= ' ' {
      assert s[..|s| - 1][..n] == s[..n];
      TrimRightKeeps(s[..|s| - 1], n);
    }
  }

  function Append(b: Buffer, s: string): Buffer { b.(sentence := b.sentence + s) }

  function AddSpace(b: Buffer): Buffer {
    if b.sentence != "" && b.sentence[|b.sentence| - 1] != ' ' then Append(b, " ") else b
  }

  function ResetUnlessAbbreviation(b: Buffer): Buffer {
    if EndIsAbbreviation(b.sentence) then b else Reset(b)
  }

  /** Where the loop of lineReady cuts the line: at a midline stop or a chevron, whichever is first. */
  function CutPoint(line: string): (end: int)
    ensures -1 <= end <= |line|
    ensures end == 0 ==> StartsWithChevron(line)
  {
    var chevron, cut := Chevron(line), MidlineCut(line);
    if cut < 0 || 0 <= chevron < cut + 1 then chevron else cut
  }

  /** One pass of the loop: cut at end, then look for a speaker in what is left. */
  function CutStep(b: Buffer, line: string): (r: (Buffer, string))
    requires CutPoint(line) >= 0
    ensures |r.1| < |line|
  {
    var end := CutPoint(line);
    assert end == 0 ==> line[end..] == line;
    FindSpeaker(ResetUnlessAbbreviation(Append(b, line[..end])), line[end..])
  }

  /** The while loop of lineReady and what follows it. */
  function SplitLine(b: Buffer, line: string): Buffer
    decreases |line|
  {
    if CutPoint(line) < 0 then
      if EndOfLine(line) then ResetUnlessAbbreviation(Append(b, line)) else Append(b, line)
    else
      var (b', rest) := CutStep(b, line);
      SplitLine(b', rest)
  }

  /** More than one character in ten is a control character: length/startlen < 0.9. */
  predicate IsGarbage(line: string) {
    10 * |StripControls(line)| < 9 * |line|
  }

  function LineReady(b: Buffer, line: string): Buffer {
    if IsGarbage(line) then Reset(b)
    else
      var kept := StripControls(line);
      var (b', rest) := FindSpeaker(b, if b.filter then RemoveSoundEffects(kept) else kept);
      SplitLine(AddSpace(b'), rest)
  }

  // ---------- the object ----------

  class SentenceBuffer {
    const filterOutSoundEffects: bool
    var speaker: Option<string>
    var sentence: string
    var errors: int
    var delivered: seq<Event>   // the calls of sentenceReady, in order

    ghost function State(): Buffer
      reads this
    {
      Buffer(filterOutSoundEffects, speaker, sentence, errors, delivered)
    }

    constructor (filter: bool)
      ensures State() == Buffer(filter, None, "", 0, [])
    {
      filterOutSoundEffects := filter;
      speaker, sentence, errors, delivered := None, "", 0, [];
    }

    method ResetBuffer()
      modifies this
      ensures State() == Reset(old(State()))
    {
      hide RemoveSoundEffects, Trim;
      if filterOutSoundEffects {
        sentence := RemoveSoundEffects(sentence);
      }
      var trimmed := Trim(sentence);
      if speaker.Some? || |trimmed| > 0 {
        delivered := delivered + [Event(speaker, trimmed, errors)];
      } else {
        assert delivered + [] == delivered;
      }
      sentence := "";
      speaker := None;
      errors := 0;
    }

    method FindSpeakerIn(text: string) returns (line: string)
      modifies this
      ensures (State(), line) == FindSpeaker(old(State()), text)
    {
      line := Trim(text);
      ghost var trimmed := line;
      var reset := false;
      while StartsWithChevron(line)
        invariant reset || line == trimmed
        invariant reset ==> StartsWithChevron(trimmed)
        invariant StripChevrons(State(), line) == StripChevrons(old(State()), trimmed)
        decreases |line|
      {
        ResetBuffer();
        reset := true;
        line := Trim(line[2..]);
        speaker := Some("");
      }
      var colon := IndexOf(line, ':');
      if colon >= 0 {
        if !reset {
          ResetBuffer();
        }
        speaker := Some(Trim(line[..colon]));
        if colon == |line| - 1 {
          return "";
        }
        line := line[colon + 1..];
      }
    }

    method LineReadyCall(text: string)
      modifies this
      ensures State() == LineReady(old(State()), text)
    {
      hide RemoveSoundEffects, StripControls, FindSpeaker, EndIsAbbreviation, Reset, MidlineCut, Chevron, EndOfLine;
      var line := StripControls(text);
      if 10 * |line| < 9 * |text| {
        ResetBuffer();
        return;
      }
      if filterOutSoundEffects {
        line := RemoveSoundEffects(line);
      }
      line := FindSpeakerIn(line);
      if |sentence| > 0 && sentence[|sentence| - 1] != ' ' {
        sentence := sentence + " ";
      }
      ghost var goal := SplitLine(State(), line);
      var chevron := Chevron(line);
      var cut := MidlineCut(line);
      while cut >= 0 || chevron >= 0
        invariant chevron == Chevron(line) && cut == MidlineCut(line)
        invariant SplitLine(State(), line) == goal
        decreases |line|
      {
        ghost var next := CutStep(State(), line);
        var end := if cut < 0 || (chevron >= 0 && chevron < cut + 1) then chevron else cut;
        sentence := sentence + line[..end];
        if !EndIsAbbreviation(sentence) {
          ResetBuffer();
        }
        line := FindSpeakerIn(line[end..]);
        assert (State(), line) == next;
        chevron := Chevron(line);
        cut := MidlineCut(line);
      }
      sentence := sentence + line;
      if EndOfLine(line) && !EndIsAbbreviation(sentence) {
        ResetBuffer();
      }
    }

    method ParityError()
      modifies this
      ensures State() == old(State()).(errors := old(State()).errors + 1)
    {
      errors := errors + 1;
    }
  }
}
