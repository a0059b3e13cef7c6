/**
 * From byte pairs to sentences: a SentenceBuffer is a LineBuffer whose lines go to lineReady and
 * whose parity errors are counted. What holds of the decoder then holds of the sentences.
 */
module CaptionPipeline {
  import opened Text
  import opened Vbi
  import opened Decoding
  import opened DecoderRuns
  import opened DecoderTheorems
  import Itv
  import L = Lines
  import S = Sentences
  import T = SentenceTheorems

  /** What reaches lineReady and the overridden parityError, in order. */
  function Inputs(out: seq<L.Out>): seq<T.Input> {
    if out == [] then [] else Inputs(out[..|out| - 1]) + InputOf(out[|out| - 1])
  }

  function InputOf(o: L.Out): seq<T.Input> {
    match o
    case LineOut(line) => [T.Line(line)]
    case Parity(_, _) => [T.ParityError]
    case _ => []
  }

  lemma {:induction false} InputsOfVisible(out: seq<L.Out>)
    ensures Inputs(out) == Inputs(Visible(out))
  {
    if out != [] {
      var init, last := out[..|out| - 1], out[|out| - 1];
      InputsOfVisible(init);
      assert Visible(init) + [] == Visible(init) && Inputs(init) + [] == Inputs(init);
    }
  }

  /** The sentences, and the sentence pending, after a stream of byte pairs. */
  function Said(d: Decoder, b: L.Buffer, ps: seq<Pair>, s: S.Buffer): S.Buffer {
    T.Run(s, Inputs(Listen(b, Run(d, ps).1).out))
  }

  /** Repeating control codes changes no speaker, sentence or error count, nor what is pending. */
  lemma {:induction false} SentencesIgnoreRepetition(d: Decoder, b: L.Buffer, ps: seq<Pair>, extra: seq<nat>,
                                                     s: S.Buffer)
    requires |extra| == |ps| && forall i :: 0 <= i < |ps| && extra[i] > 0 ==> Repeatable(ps[i])
    ensures Said(d, b, Repeat(ps, extra), s) == Said(d, b, ps, s)
  {
    hide Run, Listen, Inputs, Repeatable, T.Run, Visible;
    RepetitionInvariance(d, b, ps, extra);
    InputsOfVisible(Listen(b, Run(d, ps).1).out);
    InputsOfVisible(Listen(b, Run(d, Repeat(ps, extra)).1).out);
  }

  // ---------- other channels ----------

  /** The inputs of the splitter without the parity errors. */
  function LinesOnly(inputs: seq<T.Input>): seq<T.Input> {
    if inputs == [] then []
    else LinesOnly(inputs[..|inputs| - 1]) + if inputs[|inputs| - 1].Line? then [inputs[|inputs| - 1]] else []
  }

  /** Two splitters that differ in nothing but error counts. */
  predicate SameSpeech(x: S.Buffer, y: S.Buffer) {
    && x.filter == y.filter && x.speaker == y.speaker && x.sentence == y.sentence
    && |x.delivered| == |y.delivered|
    && forall i :: 0 <= i < |x.delivered| ==>
         x.delivered[i].speaker == y.delivered[i].speaker && x.delivered[i].sentence == y.delivered[i].sentence
  }

  lemma {:induction false} ResetSame(x: S.Buffer, y: S.Buffer)
    requires SameSpeech(x, y)
    ensures SameSpeech(S.Reset(x), S.Reset(y))
  {
    hide Trim, S.RemoveSoundEffects;
  }

  lemma {:induction false} StripSame(x: S.Buffer, y: S.Buffer, s: string)
    requires SameSpeech(x, y)
    ensures SameSpeech(S.StripChevrons(x, s).0, S.StripChevrons(y, s).0)
    ensures S.StripChevrons(x, s).1 == S.StripChevrons(y, s).1
    decreases |s|
  {
    hide S.Reset, Trim;
    T.StripStep(x, s);
    T.StripStep(y, s);
    if S.StartsWithChevron(s) {
      ResetSame(x, y);
      StripSame(S.Reset(x).(speaker := Some("")), S.Reset(y).(speaker := Some("")), Trim(s[2..]));
    }
  }

  lemma {:induction false} FindSame(x: S.Buffer, y: S.Buffer, s: string)
    requires SameSpeech(x, y)
    ensures SameSpeech(S.FindSpeaker(x, s).0, S.FindSpeaker(y, s).0)
    ensures S.FindSpeaker(x, s).1 == S.FindSpeaker(y, s).1
  {
    hide S.StripChevrons, S.Reset, Trim;
    StripSame(x, y, Trim(s));
    ResetSame(S.StripChevrons(x, Trim(s)).0, S.StripChevrons(y, Trim(s)).0);
  }

  lemma {:induction false} CutSame(x: S.Buffer, y: S.Buffer, s: string)
    requires SameSpeech(x, y)
    ensures SameSpeech(S.Append(x, s), S.Append(y, s))
    ensures SameSpeech(S.ResetUnlessAbbreviation(S.Append(x, s)), S.ResetUnlessAbbreviation(S.Append(y, s)))
  {
    hide S.EndIsAbbreviation, S.Reset;
    ResetSame(S.Append(x, s), S.Append(y, s));
  }

  lemma {:induction false} SplitSame(x: S.Buffer, y: S.Buffer, s: string)
    requires SameSpeech(x, y)
    ensures SameSpeech(S.SplitLine(x, s), S.SplitLine(y, s))
    decreases |s|
  {
    hide SameSpeech, S.FindSpeaker, S.EndOfLine, S.ResetUnlessAbbreviation, S.Append;
    var end := S.CutPoint(s);
    CutSame(x, y, if end < 0 then s else s[..end]);
    if end >= 0 {
      var x1, y1 := S.ResetUnlessAbbreviation(S.Append(x, s[..end])), S.ResetUnlessAbbreviation(S.Append(y, s[..end]));
      FindSame(x1, y1, s[end..]);
      SplitSame(S.CutStep(x, s).0, S.CutStep(y, s).0, S.CutStep(x, s).1);
    }
  }

  lemma {:induction false} LineSame(x: S.Buffer, y: S.Buffer, line: string)
    requires SameSpeech(x, y)
    ensures SameSpeech(S.LineReady(x, line), S.LineReady(y, line))
  {
    hide S.StripControls, S.RemoveSoundEffects, S.FindSpeaker, S.SplitLine, S.IsGarbage, S.Reset;
    ResetSame(x, y);
    var kept := S.StripControls(line);
    var text := if x.filter then S.RemoveSoundEffects(kept) else kept;
    FindSame(x, y, text);
    SplitSame(S.AddSpace(S.FindSpeaker(x, text).0), S.AddSpace(S.FindSpeaker(y, text).0), S.FindSpeaker(x, text).1);
  }

  /** Parity errors never change what is said. */
  lemma {:induction false} ErrorsAreOnlyCounted(x: S.Buffer, y: S.Buffer, inputs: seq<T.Input>)
    requires SameSpeech(x, y)
    ensures SameSpeech(T.Run(x, inputs), T.Run(y, LinesOnly(inputs)))
  {
    hide S.LineReady;
    if inputs != [] {
      var init, last := inputs[..|inputs| - 1], inputs[|inputs| - 1];
      ErrorsAreOnlyCounted(x, y, init);
      if last.Line? {
        LineSame(T.Run(x, init), T.Run(y, LinesOnly(init)), last.text);
        assert (LinesOnly(init) + [last])[..|LinesOnly(init)|] == LinesOnly(init);
      } else {
        assert LinesOnly(init) + [] == LinesOnly(init);
      }
    }
  }

  lemma {:induction false} LinesOnlyConcat(x: seq<T.Input>, y: seq<T.Input>)
    ensures LinesOnly(x + y) == LinesOnly(x) + LinesOnly(y)
  {
    if y == [] {
      assert x + y == x;
    } else {
      assert (x + y)[..|x + y| - 1] == x + y[..|y| - 1];
      LinesOnlyConcat(x, y[..|y| - 1]);
    }
  }

  lemma {:induction false} InputsConcat(x: seq<L.Out>, y: seq<L.Out>)
    ensures Inputs(x + y) == Inputs(x) + Inputs(y)
  {
    hide InputOf;
    if y == [] {
      assert x + y == x;
    } else {
      assert (x + y)[..|x + y| - 1] == x + y[..|y| - 1];
      InputsConcat(x, y[..|y| - 1]);
    }
  }

  /** The same listener, not counting the parity errors of other channels. */
  function Plain(b: L.Buffer): L.Buffer { b.(counting := false) }

  /** b hears what c hears, parity errors aside. */
  predicate Twins(b: L.Buffer, c: L.Buffer) {
    c.(out := []) == Plain(b).(out := []) && LinesOnly(Inputs(b.out)) == LinesOnly(Inputs(c.out))
  }

  lemma {:induction false} PrintIgnoresCounting(b: L.Buffer, c: Byte)
    ensures L.Print(Plain(b), c) == Plain(L.Print(b, c)) && L.Throws(Plain(b), c) == L.Throws(b, c)
  {
    hide Itv.Accepts, Itv.SetAttribute, L.Covered, IndexOf, VbiToUnicode, VbiToAscii;
  }

  lemma {:induction false} HandleIgnoresCounting(b: L.Buffer, m: Mode, c: Call)
    requires !c.ParityError?
    ensures L.Handle(Plain(b), m, c) == Plain(L.Handle(b, m, c))
  {
    hide L.Print, L.Throws, L.Selected, L.Ends, L.Separates;
    if c.PrintChars? {
      PrintIgnoresCounting(b, c.c1);
      PrintIgnoresCounting(L.Print(b, c.c1), c.c2);
    }
  }

  lemma {:induction false} TwinsHandle(b: L.Buffer, c: L.Buffer, m: Mode, call: Call)
    requires Twins(b, c)
    ensures Twins(L.Handle(b, m, call), L.Handle(c, m, call))
  {
    hide Inputs, LinesOnly;
    HandleAppends(b, m, call);
    HandleAppends(c, m, call);
    var x, y := L.Handle(b.(out := []), m, call), L.Handle(c.(out := []), m, call);
    InputsConcat(b.out, x.out);
    InputsConcat(c.out, y.out);
    LinesOnlyConcat(Inputs(b.out), Inputs(x.out));
    LinesOnlyConcat(Inputs(c.out), Inputs(y.out));
    if call.ParityError? {
      ParityIsNoLine(call.c1, call.c2);
    } else {
      HandleIgnoresCounting(b.(out := []), m, call);
      hide L.Handle;
    }
  }

  lemma {:induction false} ParityIsNoLine(c1: Byte, c2: Byte)
    ensures LinesOnly(Inputs([L.Parity(c1, c2)])) == [] == LinesOnly(Inputs([]))
    ensures [] + [L.Parity(c1, c2)] == [L.Parity(c1, c2)]
  {
    assert [L.Parity(c1, c2)][..0] == [] && [T.ParityError][..0] == [];
    assert Inputs([L.Parity(c1, c2)]) == [T.ParityError];
  }

  lemma {:induction false} TwinsListen(b: L.Buffer, c: L.Buffer, hs: seq<Heard>)
    requires Twins(b, c)
    ensures Twins(Listen(b, hs), Listen(c, hs))
    decreases |hs|
  {
    hide L.Handle, Twins;
    if hs != [] {
      TwinsHandle(b, c, hs[0].mode, hs[0].call);
      TwinsListen(L.Handle(b, hs[0].mode, hs[0].call), L.Handle(c, hs[0].mode, hs[0].call), hs[1..]);
    }
  }

  /** Whatever is on the other channels, their segments change no line. */
  lemma {:induction false} LinesIgnoreOtherChannels(d: Decoder, b: L.Buffer, segments: seq<Segment>)
    requires forall i :: 0 <= i < |segments| ==> ValidSegment(segments[i])
    ensures LinesOnly(Inputs(Listen(b, Run(d, Stream(segments)).1).out))
         == LinesOnly(Inputs(Listen(b, Run(d, Stream(Only(b.channel, segments))).1).out))
  {
    hide Run, Listen, Inputs, LinesOnly, ValidSegment, Visible;
    var all, only := Run(d, Stream(segments)).1, Run(d, Stream(Only(b.channel, segments))).1;
    var c := Plain(b);
    TwinsListen(b, c, all);
    TwinsListen(b, c, only);
    AlikeSelf(c);
    Demultiplexing(d, d, c, c, segments);
    InputsOfVisible(Listen(c, all).out);
    InputsOfVisible(Listen(c, only).out);
  }

  /**
   * Other channels' segments, damaged or not, change no speaker and no sentence, delivered or
   * pending: at most they add to the error counts. Without parity errors they change nothing at all.
   */
  lemma {:induction false} SentencesIgnoreOtherChannels(d: Decoder, b: L.Buffer, segments: seq<Segment>, s: S.Buffer)
    requires forall i :: 0 <= i < |segments| ==> ValidSegment(segments[i])
    ensures SameSpeech(Said(d, b, Stream(segments), s), Said(d, b, Stream(Only(b.channel, segments)), s))
    ensures (forall i :: 0 <= i < |segments| ==> Tolerates(b, segments[i])) ==>
      Said(d, b, Stream(segments), s) == Said(d, b, Stream(Only(b.channel, segments)), s)
  {
    hide Run, Listen, Inputs, LinesOnly, ValidSegment, Tolerates, T.Run, Visible, SameSpeech;
    var x, y := Listen(b, Run(d, Stream(segments)).1).out, Listen(b, Run(d, Stream(Only(b.channel, segments))).1).out;
    assert SameSpeech(s, s) by { SpeechSelf(s); }
    LinesIgnoreOtherChannels(d, b, segments);
    ErrorsAreOnlyCounted(s, s, Inputs(x));
    ErrorsAreOnlyCounted(s, s, Inputs(y));
    SpeechMeets(T.Run(s, Inputs(x)), T.Run(s, Inputs(y)), T.Run(s, LinesOnly(Inputs(x))));
    if forall i :: 0 <= i < |segments| ==> Tolerates(b, segments[i]) {
      AlikeSelf(b);
      Demultiplexing(d, d, b, b, segments);
      InputsOfVisible(x);
      InputsOfVisible(y);
    }
  }

  lemma {:induction false} SpeechSelf(s: S.Buffer)
    ensures SameSpeech(s, s)
  {}

  lemma {:induction false} SpeechMeets(x: S.Buffer, y: S.Buffer, z: S.Buffer)
    requires SameSpeech(x, z) && SameSpeech(y, z)
    ensures SameSpeech(x, y)
  {}

  /** RCL on channel 2, and a pair with a parity error after it. */
  const DAMAGED_CC2 := Segment(L.DataChannel(1, 2, false), Pair(21, 0x1C, 0x20), [Pair(21, -1, 0x20)])

  /** One such segment, and a sentence of channel 1 has an error that was none of its own. */
  lemma {:induction false} ForeignErrorIsCounted(d: Decoder, s: S.Buffer)
    ensures ValidSegment(DAMAGED_CC2)
    ensures var cc1 := L.Fresh(L.DataChannel(1, 1, false), true);
      && Only(cc1.channel, [DAMAGED_CC2]) == []
      && Said(d, cc1, Stream([DAMAGED_CC2]), s) == s.(errors := s.errors + 1)
      && Said(d, cc1, Stream([]), s) == s
  {
    var cc1, m := L.Fresh(L.DataChannel(1, 1, false), true), Mode(1, 2, false);
    var head, bad := DAMAGED_CC2.head, DAMAGED_CC2.body[0];
    assert [DAMAGED_CC2][1..] == [] && Stream([DAMAGED_CC2]) == [head] + [bad];
    HearOn(d, DAMAGED_CC2.channel, head);
    var d1 := Hear(d, head).0;
    HearOn(d1, DAMAGED_CC2.channel, bad);
    RunCons(d, head, [bad]);
    RunOne(d1, bad);
    TagOne(m, ResumeCaption);
    TagOne(m, ParityError(-1, 0x20));
    var h1, h2 := Heard(m, ResumeCaption), Heard(m, ParityError(-1, 0x20));
    assert Run(d, [head] + [bad]).1 == [h1] + [h2];
    ListenConcat(cc1, [h1], [h2]);
    ListenOne(cc1, h1);
    ListenOne(cc1, h2);
    RunNothing(d);
    ListenNone(cc1);
    var out := [L.Parity(-1, 0x20)];
    assert [] + out == out && out[..0] == [];
    assert Listen(cc1, [h1] + [h2]) == cc1.(out := out);
    assert Stream([]) == [] && Run(d, []).1 == [];
    OneError(s, -1, 0x20);
  }

  lemma {:induction false} OneError(s: S.Buffer, c1: Byte, c2: Byte)
    ensures T.Run(s, Inputs([L.Parity(c1, c2)])) == s.(errors := s.errors + 1) && T.Run(s, Inputs([])) == s
  {
    assert [L.Parity(c1, c2)][..0] == [] && [T.ParityError][..0] == [];
    assert Inputs([L.Parity(c1, c2)]) == [T.ParityError];
    assert T.Run(s, []) == s;
  }

  // ---------- printed characters become sentences ----------

  function PrintedBy(dc: L.DataChannel, h: Heard): string {
    if !L.Selected(dc, h.mode) then ""
    else match h.call
      case PrintChars(c1, c2) => [VbiToUnicode(c1)] + if c2 > 0 then [VbiToUnicode(c2)] else ""
      case PrintUnicode(ch) => [ch]
      case _ => ""
  }

  /** The characters printed on the listener's channel. */
  function Printed(dc: L.DataChannel, hs: seq<Heard>): string {
    if hs == [] then ""
    else PrintedBy(dc, hs[0]) + Printed(dc, hs[1..])
  }

  /** Printable characters only, and no backspace, on the channel. */
  predicate PlainlyPrinted(dc: L.DataChannel, hs: seq<Heard>) {
    forall i :: 0 <= i < |hs| && L.Selected(dc, hs[i].mode) ==>
      match hs[i].call
      case PrintChars(c1, c2) => c1 >= 0 && c1 % 128 >= 0x20 && (c2 > 0 ==> c2 % 128 >= 0x20)
      case PrintUnicode(ch) => !S.IsControl(ch)
      case Backspace => false
      case _ => true
  }

  predicate NoControls(s: string) { forall i :: 0 <= i < |s| ==> !S.IsControl(s[i]) }

  function LinesOf(out: seq<L.Out>): string {
    if out == [] then ""
    else LinesOf(out[..|out| - 1]) + if out[|out| - 1].LineOut? then out[|out| - 1].line else ""
  }

  /** No line so far, nor the one being read, has a control character. */
  predicate Readable(b: L.Buffer) {
    NoControls(b.text) && forall i :: 0 <= i < |b.out| && b.out[i].LineOut? ==> NoControls(b.out[i].line)
  }

  /** Everything printed so far, in lines or pending. */
  function Kept(b: L.Buffer): string { T.Erase(LinesOf(b.out)) + T.Erase(b.text) }

  lemma {:induction false} PrintedIsClean(c: Byte)
    requires c >= 0 && c % 128 >= 0x20
    ensures !S.IsControl(VbiToUnicode(c))
  {}

  /** A listener on a caption channel never reads a link. */
  predicate OnCaptions(b: L.Buffer) { b.channel != L.TEXT2 && b.link.None? }

  lemma {:induction false} KeptAppend(b: L.Buffer, s: string)
    ensures Kept(b.(text := b.text + s)) == Kept(b) + T.Erase(s)
  {
    hide T.Erase, LinesOf;
    T.EraseConcat(b.text, s);
  }

  lemma {:induction false} LinesAppend(out: seq<L.Out>, o: L.Out)
    ensures LinesOf(out + [o]) == LinesOf(out) + if o.LineOut? then o.line else ""
  {
    assert (out + [o])[..|out|] == out;
  }

  lemma {:induction false} ResetKeeps(b: L.Buffer)
    requires OnCaptions(b) && Readable(b)
    ensures OnCaptions(L.Reset(b)) && Readable(L.Reset(b)) && Kept(L.Reset(b)) == Kept(b)
  {
    hide LinesOf;
    if b.text != "" {
      LinesAppend(b.out, L.LineOut(b.text));
      T.EraseConcat(LinesOf(b.out), b.text);
    }
    assert b.out + [] == b.out;
  }

  lemma {:induction false} EmitKeeps(b: L.Buffer, o: L.Out)
    requires OnCaptions(b) && Readable(b) && !o.LineOut?
    ensures OnCaptions(L.Emit(b, o)) && Readable(L.Emit(b, o)) && Kept(L.Emit(b, o)) == Kept(b)
  {
    hide T.Erase, LinesOf;
    LinesAppend(b.out, o);
    assert LinesOf(b.out) + "" == LinesOf(b.out);
  }

  /** One call: the printed character is kept, and nothing else is added or lost. */
  lemma {:induction false} HandleKeeps(b: L.Buffer, h: Heard)
    requires OnCaptions(b) && Readable(b) && PlainlyPrinted(b.channel, [h])
    ensures var b' := L.Handle(b, h.mode, h.call);
      && OnCaptions(b') && Readable(b') && b'.channel == b.channel
      && Kept(b') == Kept(b) + T.Erase(Printed(b.channel, [h]))
  {
    hide LinesOf, T.Erase, Kept, Readable;
    PrintedOne(b.channel, h);
    NothingErased();
    assert Kept(b) + "" == Kept(b);
    var c := h.call;
    if c.Unknown? {
      EmitKeeps(b, L.UnknownCommand);
    } else if c.ParityError? {
      EmitKeeps(b, L.Parity(c.c1, c.c2));
    } else if L.Selected(b.channel, h.mode) {
      if c.PrintChars? {
        BothKept(b, c.c1, c.c2);
      } else if c.PrintUnicode? {
        TextKeeps(b, c.ch);
      } else if c.TextRestart? || L.Ends(c) {
        ResetKeeps(b);
      } else if L.Separates(c) {
        SpaceKeeps(b);
      }
    }
  }

  lemma {:induction false} PrintedOne(dc: L.DataChannel, h: Heard)
    ensures Printed(dc, [h]) == PrintedBy(dc, h)
  {
    hide PrintedBy;
    assert [h][1..] == [] && Printed(dc, []) == "";
    assert PrintedBy(dc, h) + "" == PrintedBy(dc, h);
  }

  lemma {:induction false} NothingErased()
    ensures T.Erase("") == ""
  {}

  /** On a caption channel nothing printed ends in an exception. */
  lemma {:induction false} BothKept(b: L.Buffer, c1: Byte, c2: Byte)
    requires OnCaptions(b) && Readable(b) && c1 >= 0 && c1 % 128 >= 0x20 && (c2 > 0 ==> c2 % 128 >= 0x20)
    ensures var b' := L.PrintBoth(b, c1, c2);
      && OnCaptions(b') && Readable(b') && b'.channel == b.channel
      && Kept(b') == Kept(b) + T.Erase([VbiToUnicode(c1)] + if c2 > 0 then [VbiToUnicode(c2)] else "")
  {
    hide LinesOf, T.Erase, Kept, Readable, VbiToUnicode;
    var u1, u2 := VbiToUnicode(c1), VbiToUnicode(c2);
    PrintedIsClean(c1);
    TextKeeps(b, u1);
    var b1 := b.(text := b.text + [u1]);
    assert L.Print(b, c1) == b1 && !L.Throws(b, c1);
    if c2 > 0 {
      PrintedIsClean(c2);
      TextKeeps(b1, u2);
      assert L.Print(b1, c2) == b1.(text := b1.text + [u2]);
      T.EraseConcat([u1], [u2]);
      assert Kept(b) + T.Erase([u1]) + T.Erase([u2]) == Kept(b) + (T.Erase([u1]) + T.Erase([u2]));
    } else {
      assert [u1] + "" == [u1];
    }
  }

  lemma {:induction false} TextKeeps(b: L.Buffer, c: char)
    requires Readable(b) && !S.IsControl(c)
    ensures Readable(b.(text := b.text + [c])) && Kept(b.(text := b.text + [c])) == Kept(b) + T.Erase([c])
    ensures [c] + "" == [c]
  {
    hide Kept, T.Erase;
    KeptAppend(b, [c]);
  }

  lemma {:induction false} SpaceKeeps(b: L.Buffer)
    requires Readable(b)
    ensures Readable(L.AddSpace(b)) && Kept(L.AddSpace(b)) == Kept(b)
  {
    hide Kept;
    KeptAppend(b, " ");
  }

  lemma {:induction false} ListenKeeps(b: L.Buffer, hs: seq<Heard>)
    requires OnCaptions(b) && Readable(b) && PlainlyPrinted(b.channel, hs)
    ensures var b' := Listen(b, hs);
      Readable(b') && Kept(b') == Kept(b) + T.Erase(Printed(b.channel, hs))
    decreases |hs|
  {
    hide L.Handle, OnCaptions, Readable, Kept, T.Erase, L.Selected;
    NothingErased();
    if hs != [] {
      assert PlainlyPrinted(b.channel, [hs[0]]) && PlainlyPrinted(b.channel, hs[1..]);
      HandleKeeps(b, hs[0]);
      ListenKeeps(L.Handle(b, hs[0].mode, hs[0].call), hs[1..]);
      var head := Printed(b.channel, [hs[0]]);
      assert head == head + "" && [hs[0]][1..] == [] && Printed(b.channel, []) == "";
      T.EraseConcat(head, Printed(b.channel, hs[1..]));
      assert Printed(b.channel, hs) == head + Printed(b.channel, hs[1..]);
    }
  }

  /** Readable lines are all kept by the splitter. */
  lemma {:induction false} AllKept(out: seq<L.Out>)
    requires forall i :: 0 <= i < |out| && out[i].LineOut? ==> NoControls(out[i].line)
    ensures T.KeptText(Inputs(out)) == LinesOf(out)
  {
    hide S.IsGarbage, T.KeptText;
    if out != [] {
      var init, last := out[..|out| - 1], out[|out| - 1];
      AllKept(init);
      if last.LineOut? {
        NotGarbage(last.line);
        KeptOneMore(Inputs(init), T.Line(last.line));
      } else if last.Parity? {
        KeptOneMore(Inputs(init), T.ParityError);
      } else {
        assert Inputs(init) + [] == Inputs(init);
      }
      assert LinesOf(init) + "" == LinesOf(init);
    } else {
      assert T.KeptText([]) == "" by { KeptNothing(); }
    }
  }

  lemma {:induction false} KeptNothing()
    ensures T.KeptText([]) == ""
  {}

  lemma {:induction false} KeptOneMore(inputs: seq<T.Input>, i: T.Input)
    ensures T.KeptText(inputs + [i]) == T.KeptText(inputs) + if i.Line? && !S.IsGarbage(i.text) then i.text else ""
  {
    hide S.IsGarbage;
    assert (inputs + [i])[..|inputs|] == inputs;
  }

  lemma {:induction false} NotGarbage(s: string)
    requires NoControls(s)
    ensures !S.IsGarbage(s)
  {
    T.PlainIsKept(s);
  }

  /**
   * Over any stream that prints only printable characters on a caption channel and takes none back:
   * speakers and sentences delivered, then those pending, then the unfinished line spell out exactly
   * the characters printed, in order, spaces, control characters, '>' and ':' aside.
   */
  lemma {:induction false} PrintedIsSaid(d: Decoder, dc: L.DataChannel, ps: seq<Pair>)
    requires dc != L.TEXT2 && PlainlyPrinted(dc, Run(d, ps).1)
    ensures var b := Listen(L.Fresh(dc, true), Run(d, ps).1);
      T.Total(T.Run(S.Buffer(false, None, "", 0, []), Inputs(b.out))) + T.Erase(b.text)
        == T.Erase(Printed(dc, Run(d, ps).1))
  {
    hide Run, Listen, PlainlyPrinted, T.Run, T.Total, T.Erase, LinesOf, NoControls;
    var b0, s0 := L.Fresh(dc, true), S.Buffer(false, None, "", 0, []);
    var b := Listen(b0, Run(d, ps).1);
    assert NoControls("") by { NoControlsInNothing(); }
    NothingKept(dc);
    ListenKeeps(b0, Run(d, ps).1);
    T.Conservation(s0, Inputs(b.out));
    NothingSaid(s0);
    AllKept(b.out);
    assert "" + T.Erase(LinesOf(b.out)) == T.Erase(LinesOf(b.out));
    assert "" + T.Erase(Printed(dc, Run(d, ps).1)) == T.Erase(Printed(dc, Run(d, ps).1));
  }

  lemma {:induction false} NoControlsInNothing()
    ensures NoControls("")
  {}

  lemma {:induction false} NothingKept(dc: L.DataChannel)
    ensures Kept(L.Fresh(dc, true)) == ""
  {}

  lemma {:induction false} NothingSaid(s: S.Buffer)
    requires s == S.Buffer(false, None, "", 0, [])
    ensures T.Total(s) == ""
  {}
}
