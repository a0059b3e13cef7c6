/** Repetition, demultiplexing and reachability of the line-21 decoder. */
module DecoderTheorems {
  import opened Text
  import opened Vbi
  import opened XdsPackets
  import opened Decoding
  import opened DecoderRuns
  import opened Lines
  import Itv

  // ---------- several listeners on one pair ----------

  /** Running executeCommand again changes nothing and repeats every call but the XDS update. */
  lemma {:induction false} ReExecute(d: Decoder, p: Pair)
    requires !d.processed
    ensures var (d1, calls) := Execute(d, p);
      Execute(d1, p) == (d1, if |calls| == 1 && calls[0].UpdatedXds? then [] else calls)
  {
    hide ControlCall, EndPacket, SetCode;
    if p.line == 284 && 0 < p.c1 < 0x10 && p.c2 >= 0 {
      RepeatedXds(d, p);
    } else if 0 < p.c1 < 0x20 && p.c2 >= 0 {
      ControlIsControl(p.c1, p.c2);
    }
  }

  lemma {:induction false} RepeatedXds(d: Decoder, p: Pair)
    requires !d.processed && p.line == 284 && 0 < p.c1 < 0x10 && 0 <= p.c2
    ensures var (d1, calls) := Execute(d, p);
      Execute(d1, p) == (d1, if |calls| == 1 && calls[0].UpdatedXds? then [] else calls)
  {}

  /** The calls that n listeners get from one pair, listener by listener. */
  function ExecuteFor(d: Decoder, p: Pair, n: nat): (Decoder, seq<seq<Call>>)
    decreases n
  {
    if n == 0 then (d, [])
    else
      var (d0, heard) := ExecuteFor(d, p, n - 1);
      var (d1, calls) := Execute(d0, p);
      (d1, heard + [calls])
  }

  /** However many listeners there are, the decoder moves once and each hears what the first heard. */
  lemma {:induction false} AllListenersAgree(d: Decoder, p: Pair, n: nat)
    requires !d.processed && n >= 1
    ensures ExecuteFor(d, p, n).0 == Execute(d, p).0
    ensures var calls := Execute(d, p).1;
      && |ExecuteFor(d, p, n).1| == n && ExecuteFor(d, p, n).1[0] == calls
      && forall i :: 1 <= i < n ==>
           ExecuteFor(d, p, n).1[i] == if |calls| == 1 && calls[0].UpdatedXds? then [] else calls
    decreases n
  {
    hide Execute;
    ReExecute(d, p);
    if n == 1 {
      assert ExecuteFor(d, p, 0) == (d, []);
    } else {
      AllListenersAgree(d, p, n - 1);
    }
  }

  // ---------- the outputs that count ----------

  /** Everything but the mode-independent "unknown command" errors. */
  function Visible(out: seq<Out>): seq<Out> {
    if out == [] then []
    else Visible(out[..|out| - 1]) + if out[|out| - 1].UnknownCommand? then [] else [out[|out| - 1]]
  }

  lemma {:induction false} VisibleConcat(x: seq<Out>, y: seq<Out>)
    ensures Visible(x + y) == Visible(x) + Visible(y)
  {
    if y == [] {
      assert x + y == x;
    } else {
      assert (x + y)[..|x + y| - 1] == x + y[..|y| - 1];
      VisibleConcat(x, y[..|y| - 1]);
    }
  }

  /** Same buffers, same visible outputs. */
  predicate Alike(b: Buffer, b': Buffer) {
    b'.(out := []) == b.(out := []) && Visible(b.out) == Visible(b'.out)
  }

  /** A call only appends to the outputs, and what it does does not depend on them. */
  lemma {:induction false} HandleAppends(b: Buffer, m: Mode, c: Call)
    ensures var r := Handle(b.(out := []), m, c); Handle(b, m, c) == r.(out := b.out + r.out)
  {
    hide PrintBoth, Selected, Reset, AddSpace, Ends, Separates;
    var e := b.(out := []);
    if c.PrintChars? {
      BothAppend(b, c.c1, c.c2);
    } else if c.TextRestart? {
      ResetAppends(if b.link.Some? then b.(text := "") else b);
      assert (if e.link.Some? then e.(text := "") else e) == (if b.link.Some? then b.(text := "") else b).(out := []);
    } else {
      ResetAppends(b);
      SpaceAppends(b);
    }
    assert b.out + [] == b.out;
  }

  lemma {:induction false} ResetAppends(b: Buffer)
    ensures var r := Reset(b.(out := [])); Reset(b) == r.(out := b.out + r.out)
  {}

  lemma {:induction false} SpaceAppends(b: Buffer)
    ensures var r := AddSpace(b.(out := [])); AddSpace(b) == r.(out := b.out + r.out)
  {
    assert b.out + [] == b.out;
  }

  lemma {:induction false} BothAppend(b: Buffer, c1: Byte, c2: Byte)
    ensures var r := PrintBoth(b.(out := []), c1, c2); PrintBoth(b, c1, c2) == r.(out := b.out + r.out)
  {
    hide Print, Itv.SetAttribute, IndexOf;
    PrintAppends(b, c1);
    var r := Print(b.(out := []), c1);
    PrintAppends(r, c2);
    PrintAppends(Print(b, c1), c2);
    assert Print(b, c1).(out := []) == r.(out := []);
    var q := Print(r.(out := []), c2);
    assert b.out + r.out + q.out == b.out + (r.out + q.out);
  }

  lemma {:induction false} PrintAppends(b: Buffer, c: Byte)
    ensures var r := Print(b.(out := []), c); Print(b, c) == r.(out := b.out + r.out)
  {
    hide Itv.Accepts, Itv.SetAttribute, Covered, IndexOf, VbiToUnicode, VbiToAscii;
    var e := b.(out := []);
    var b1 := b.(text := b.text + [if b.link.Some? then VbiToAscii(c) else VbiToUnicode(c)]);
    if b1.link.Some? {
      CloseAppends(b1);
      assert b1.(out := []) == e.(text := b1.text);
    }
  }

  lemma {:induction false} CloseAppends(b: Buffer)
    requires b.link.Some? && b.text != ""
    ensures var r := CloseBracket(b.(out := [])); CloseBracket(b) == r.(out := b.out + r.out)
  {
    hide Itv.Accepts, Itv.SetAttribute, Covered, IndexOf;
  }

  lemma {:induction false} AlikeHandle(b: Buffer, b': Buffer, m: Mode, c: Call)
    requires Alike(b, b')
    ensures Alike(Handle(b, m, c), Handle(b', m, c))
  {
    hide Handle;
    HandleAppends(b, m, c);
    HandleAppends(b', m, c);
    var r := Handle(b.(out := []), m, c);
    VisibleConcat(b.out, r.out);
    VisibleConcat(b'.out, r.out);
  }

  lemma {:induction false} AlikeListen(b: Buffer, b': Buffer, hs: seq<Heard>)
    requires Alike(b, b')
    ensures Alike(Listen(b, hs), Listen(b', hs))
    decreases |hs|
  {
    hide Handle, Alike;
    if hs != [] {
      AlikeHandle(b, b', hs[0].mode, hs[0].call);
      AlikeListen(Handle(b, hs[0].mode, hs[0].call), Handle(b', hs[0].mode, hs[0].call), hs[1..]);
    }
  }

  /** The run does not depend on the processed flag, which setC1 clears. */
  lemma {:induction false} RunIgnoresProcessed(d: Decoder, d': Decoder, ps: seq<Pair>)
    requires d.(processed := false) == d'.(processed := false)
    ensures Run(d, ps).1 == Run(d', ps).1
    ensures Run(d, ps).0.(processed := false) == Run(d', ps).0.(processed := false)
  {
    hide Execute, Run;
    if ps == [] {
      RunNothing(d);
      RunNothing(d');
    } else {
      assert ps == [ps[0]] + ps[1..];
      RunCons(d, ps[0], ps[1..]);
      RunCons(d', ps[0], ps[1..]);
    }
  }

  // ---------- repeated control codes ----------

  predicate IsControlPair(p: Pair) {
    0 < p.c1 < 0x20 && 0 <= p.c2 && !(p.line == 284 && p.c1 < 0x10)
  }

  /** Control codes except backspace and the extended characters. */
  predicate Repeatable(p: Pair) {
    IsControlPair(p) && var c := ControlCall(p.c1, p.c2); !c.Backspace? && !c.PrintUnicode?
  }

  /** Each pair i of the stream sent 1 + extra[i] times. */
  function Repeat(ps: seq<Pair>, extra: seq<nat>): seq<Pair>
    requires |extra| == |ps|
    decreases |ps|, if extra == [] then 0 else extra[0]
  {
    if ps == [] then []
    else if extra[0] == 0 then [ps[0]] + Repeat(ps[1..], extra[1..])
    else [ps[0]] + Repeat(ps, [extra[0] - 1] + extra[1..])
  }

  lemma {:induction false} HandleTwice(b: Buffer, m: Mode, c: Call)
    requires !c.Backspace? && !c.PrintUnicode? && !c.PrintChars? && !c.ParityError?
    ensures Alike(Handle(b, m, c), Handle(Handle(b, m, c), m, c))
  {
    hide PrintBoth, Selected;
    if c.Unknown? {
      VisibleConcat(b.out + [UnknownCommand], [UnknownCommand]);
      assert Visible([UnknownCommand]) == [] by { assert [UnknownCommand][..0] == []; assert Visible([]) == []; }
    } else if Ends(c) && Selected(b.channel, m) {
      var r := Handle(b, m, c);
      assert r.text == "" && r.link.None? && r.linkText == "";
      assert r.out + [] == r.out;
    }
  }

  lemma {:induction false} ControlIsControl(c1: Byte, c2: Byte)
    requires 0 <= c1 < 0x20 && 0 <= c2
    ensures var c := ControlCall(c1, c2); !c.PrintChars? && !c.ParityError? && !c.UpdatedXds? && !c.Crash?
    ensures !ControlCall(c1, c2).Nothing?
  {}

  /** A control pair: one call, the channel and mode it selects, no XDS packet open any more. */
  lemma {:induction false} HearControl(d: Decoder, p: Pair)
    requires IsControlPair(p)
    ensures var c := ControlCall(p.c1, p.c2);
      var d1 := SetChannel(d.(xds := Interrupt(d.xds)), p.line, ChannelBit(p.c1))
        .(textMode := TextModeAfter(c, d.textMode));
      && Hear(d, p).0.(processed := false) == d1.(processed := false)
      && Hear(d, p).1 == [Heard(ModeOf(d1, p.line), c)]
  {
    hide ControlCall;
    TagOne(ModeOf(Step(d, p).0, p.line), ControlCall(p.c1, p.c2));
  }

  lemma {:induction false} SecondSending(d: Decoder, b: Buffer, p: Pair)
    requires Repeatable(p)
    ensures var (d1, h) := Hear(d, p);
      && Hear(d1, p).0.(processed := false) == d1.(processed := false) && Hear(d1, p).1 == h
      && Alike(Listen(b, h), Listen(Listen(b, h), h))
  {
    hide ControlCall, Hear, Handle, Alike, Listen;
    var (d1, h) := Hear(d, p);
    HearControl(d, p);
    HearControl(d1, p);
    ControlIsControl(p.c1, p.c2);
    ListenOne(b, h[0]);
    ListenOne(Listen(b, h), h[0]);
    HandleTwice(b, h[0].mode, h[0].call);
  }

  /** Sending control codes any number of extra times leaves every visible output unchanged. */
  lemma {:induction false} RepetitionInvariance(d: Decoder, b: Buffer, ps: seq<Pair>, extra: seq<nat>)
    requires |extra| == |ps| && forall i :: 0 <= i < |ps| && extra[i] > 0 ==> Repeatable(ps[i])
    ensures Alike(Listen(b, Run(d, ps).1), Listen(b, Run(d, Repeat(ps, extra)).1))
    ensures Run(d, ps).0.(processed := false) == Run(d, Repeat(ps, extra)).0.(processed := false)
    decreases |ps|, if extra == [] then 0 else extra[0]
  {
    hide Run, Hear, Listen, Alike, Repeatable;
    if ps == [] {
      AlikeSelf(Listen(b, Run(d, ps).1));
    } else {
      var p, rest, d1, h := ps[0], ps[1..], Hear(d, ps[0]).0, Hear(d, ps[0]).1;
      assert ps == [p] + rest;
      RunCons(d, p, rest);
      ListenConcat(b, h, Run(d1, rest).1);
      if extra[0] == 0 {
        RepetitionInvariance(d1, Listen(b, h), rest, extra[1..]);
        RunCons(d, p, Repeat(rest, extra[1..]));
        ListenConcat(b, h, Run(d1, Repeat(rest, extra[1..])).1);
      } else {
        var fewer := [extra[0] - 1] + extra[1..];
        SecondSending(d, b, p);
        RepetitionInvariance(d1, Listen(b, h), ps, fewer);
        var again := Repeat(ps, fewer);
        RunCons(d, p, again);
        ListenConcat(b, h, Run(d1, again).1);
        // the same stream from d1 starts by hearing p a second time
        RunCons(d1, p, rest);
        ListenConcat(Listen(b, h), h, Run(Hear(d1, p).0, rest).1);
        RunIgnoresProcessed(d1, Hear(d1, p).0, rest);
        AlikeListen(Listen(b, h), Listen(Listen(b, h), h), Run(d1, rest).1);
        var once, twice := Listen(b, Run(d, ps).1), Listen(Listen(b, h), Run(d1, ps).1);
        AlikeTransitive(once, twice, Listen(b, Run(d, Repeat(ps, extra)).1));
      }
    }
  }

  lemma {:induction false} AlikeSelf(b: Buffer)
    ensures Alike(b, b)
  {}

  lemma {:induction false} AlikeTransitive(x: Buffer, y: Buffer, z: Buffer)
    requires Alike(x, y) && Alike(y, z)
    ensures Alike(x, z)
  {}

  // ---------- demultiplexing ----------

  /** A stretch of the line-21 stream that belongs to one data channel. */
  datatype Segment = Segment(channel: DataChannel, head: Pair, body: seq<Pair>)

  /** Stays on the channel: any control code in it selects the same channel and mode. */
  predicate StaysOn(dc: DataChannel, p: Pair) {
    && p.line == 21
    && (IsControlPair(p) ==>
          && ChannelBit(p.c1) == dc.code
          && TextModeAfter(ControlCall(p.c1, p.c2), dc.textMode) == dc.textMode)
  }

  /** RCL, RU2-4, RDC, EOC, TR or RTD for the channel. */
  predicate Selects(dc: DataChannel, p: Pair) {
    && StaysOn(dc, p) && IsControlPair(p)
    && (StartsCaptions(ControlCall(p.c1, p.c2)) || StartsText(ControlCall(p.c1, p.c2)))
  }

  predicate ValidSegment(s: Segment) {
    && s.channel.field == 1 && Selects(s.channel, s.head)
    && forall i :: 0 <= i < |s.body| ==> StaysOn(s.channel, s.body[i])
  }

  function Stream(segments: seq<Segment>): seq<Pair> {
    if segments == [] then [] else [segments[0].head] + segments[0].body + Stream(segments[1..])
  }

  function Only(dc: DataChannel, segments: seq<Segment>): seq<Segment> {
    if segments == [] then []
    else (if segments[0].channel == dc then [segments[0]] else []) + Only(dc, segments[1..])
  }

  predicate On(d: Decoder, dc: DataChannel) { d.channel1 == dc.code && d.textMode == dc.textMode }

  /** On line 21 the calls of a pair do not depend on the decoder, only their mode does. */
  function Line21Calls(p: Pair): seq<Call> {
    if p.c1 == 0 then [Nothing]
    else if p.c1 < 0 || p.c2 < 0 then [ParityError(p.c1, p.c2)]
    else if p.c1 >= 0x20 then [PrintChars(p.c1, p.c2)]
    else [ControlCall(p.c1, p.c2)]
  }

  lemma {:induction false} HearOn(d: Decoder, dc: DataChannel, p: Pair)
    requires StaysOn(dc, p) && (On(d, dc) || Selects(dc, p))
    ensures On(Hear(d, p).0, dc)
    ensures Hear(d, p).1 == Tag(Mode(1, dc.code, dc.textMode), Line21Calls(p))
  {
    hide ControlCall, Tag;
  }

  /** What one data channel's stretch sounds like from any decoder that is on the channel. */
  function Sound(dc: DataChannel, ps: seq<Pair>): seq<Heard> {
    if ps == [] then [] else Tag(Mode(1, dc.code, dc.textMode), Line21Calls(ps[0])) + Sound(dc, ps[1..])
  }

  lemma {:induction false} RunOn(d: Decoder, dc: DataChannel, ps: seq<Pair>)
    requires forall i :: 0 <= i < |ps| ==> StaysOn(dc, ps[i])
    requires On(d, dc) || (ps != [] && Selects(dc, ps[0]))
    ensures On(Run(d, ps).0, dc) && Run(d, ps).1 == Sound(dc, ps)
    decreases |ps|
  {
    hide Hear, StaysOn, Selects, Line21Calls, Tag, On;
    if ps != [] {
      HearOn(d, dc, ps[0]);
      RunOn(Hear(d, ps[0]).0, dc, ps[1..]);
    }
  }

  lemma {:induction false} ForeignHandle(b: Buffer, m: Mode, c: Call)
    requires !Selected(b.channel, m) && (b.counting ==> !c.ParityError?)
    ensures Alike(Handle(b, m, c), b)
  {
    if c.Unknown? {
      VisibleConcat(b.out, [UnknownCommand]);
      assert Visible([UnknownCommand]) == [] by { assert [UnknownCommand][..0] == []; assert Visible([]) == []; }
    }
  }

  lemma {:induction false} ForeignListen(b: Buffer, m: Mode, hs: seq<Heard>)
    requires !Selected(b.channel, m) && forall i :: 0 <= i < |hs| ==> hs[i].mode == m
    requires b.counting ==> forall i :: 0 <= i < |hs| ==> !hs[i].call.ParityError?
    ensures Alike(Listen(b, hs), b)
    decreases |hs|
  {
    hide Handle, Alike, Selected;
    if hs == [] {
      AlikeSelf(b);
    } else {
      ForeignHandle(b, m, hs[0].call);
      var b1 := Handle(b, m, hs[0].call);
      assert b1.channel == b.channel && b1.counting == b.counting by { AlikeChannel(b1, b); }
      ForeignListen(b1, m, hs[1..]);
      AlikeTransitive(Listen(b1, hs[1..]), b1, b);
    }
  }

  lemma {:induction false} AlikeChannel(x: Buffer, y: Buffer)
    requires Alike(x, y)
    ensures x.channel == y.channel && x.counting == y.counting && Alike(y, x)
  {}

  lemma {:induction false} SoundMode(dc: DataChannel, ps: seq<Pair>)
    ensures forall i :: 0 <= i < |Sound(dc, ps)| ==> Sound(dc, ps)[i].mode == Mode(1, dc.code, dc.textMode)
  {
    if ps != [] {
      TagMode(Mode(1, dc.code, dc.textMode), Line21Calls(ps[0]));
      SoundMode(dc, ps[1..]);
    }
  }

  lemma {:induction false} TagMode(m: Mode, calls: seq<Call>)
    ensures forall i :: 0 <= i < |Tag(m, calls)| ==> Tag(m, calls)[i].mode == m
  {
    if calls != [] { TagMode(m, calls[1..]); }
  }

  /** No parity error. */
  predicate Undamaged(ps: seq<Pair>) { forall i :: 0 <= i < |ps| ==> ps[i].c1 == 0 || (ps[i].c1 >= 0 && ps[i].c2 >= 0) }

  lemma {:induction false} SoundUndamaged(dc: DataChannel, ps: seq<Pair>)
    requires Undamaged(ps)
    ensures forall i :: 0 <= i < |Sound(dc, ps)| ==> !Sound(dc, ps)[i].call.ParityError?
  {
    if ps != [] {
      UndamagedCalls(Mode(1, dc.code, dc.textMode), ps[0]);
      hide Line21Calls, Tag;
      SoundUndamaged(dc, ps[1..]);
    }
  }

  lemma {:induction false} UndamagedCalls(m: Mode, p: Pair)
    requires p.c1 == 0 || (p.c1 >= 0 && p.c2 >= 0)
    ensures forall i :: 0 <= i < |Tag(m, Line21Calls(p))| ==> !Tag(m, Line21Calls(p))[i].call.ParityError?
  {
    if 0 < p.c1 < 0x20 { ControlIsControl(p.c1, p.c2); }
    hide ControlCall;
    TagParity(m, Line21Calls(p));
  }

  lemma {:induction false} TagParity(m: Mode, calls: seq<Call>)
    requires forall i :: 0 <= i < |calls| ==> !calls[i].ParityError?
    ensures forall i :: 0 <= i < |Tag(m, calls)| ==> !Tag(m, calls)[i].call.ParityError?
  {
    if calls != [] { TagParity(m, calls[1..]); }
  }

  /** A listener that counts every parity error cannot miss those of other channels; there must be none. */
  predicate Tolerates(b: Buffer, s: Segment) {
    b.counting && s.channel != b.channel ==> Undamaged([s.head] + s.body)
  }

  /** One segment: its sound, whatever the decoder was doing before. */
  lemma {:induction false} RunSegment(d: Decoder, s: Segment, rest: seq<Pair>)
    requires ValidSegment(s)
    ensures var d1 := Run(d, [s.head] + s.body).0;
      Run(d, [s.head] + s.body + rest).1 == Sound(s.channel, [s.head] + s.body) + Run(d1, rest).1
  {
    hide Run, Selects, StaysOn, Sound;
    var ps := [s.head] + s.body;
    assert StaysOn(s.channel, s.head) by { SelectsStays(s.channel, s.head); }
    RunOn(d, s.channel, ps);
    RunConcat(d, ps, rest);
  }

  lemma {:induction false} SelectsStays(dc: DataChannel, p: Pair)
    requires Selects(dc, p)
    ensures StaysOn(dc, p)
  {}

  /**
   * A data channel's listener cannot tell whether the other channels' segments are there, except by
   * their parity errors if it is a SentenceBuffer.
   */
  lemma {:induction false} Demultiplexing(d: Decoder, d': Decoder, b: Buffer, b': Buffer, segments: seq<Segment>)
    requires forall i :: 0 <= i < |segments| ==> ValidSegment(segments[i])
    requires Alike(b, b') && forall i :: 0 <= i < |segments| ==> Tolerates(b, segments[i])
    ensures Alike(Listen(b, Run(d, Stream(segments)).1), Listen(b', Run(d', Stream(Only(b.channel, segments))).1))
    decreases |segments|
  {
    hide Run, Listen, Alike, ValidSegment, Sound, Undamaged;
    var dc := b.channel;
    if segments == [] {
      RunNothing(d);
      RunNothing(d');
      assert Listen(b, []) == b && Listen(b', []) == b' by { ListenNone(b); ListenNone(b'); }
    } else {
      var s, rest := segments[0], segments[1..];
      var sound := Sound(s.channel, [s.head] + s.body);
      RunSegment(d, s, Stream(rest));
      var d1 := Run(d, [s.head] + s.body).0;
      ListenConcat(b, sound, Run(d1, Stream(rest)).1);
      var b1 := Listen(b, sound);
      if s.channel == dc {
        assert Only(dc, segments) == [s] + Only(dc, rest);
        assert ([s] + Only(dc, rest))[1..] == Only(dc, rest);
        RunSegment(d', s, Stream(Only(dc, rest)));
        var d1' := Run(d', [s.head] + s.body).0;
        ListenConcat(b', sound, Run(d1', Stream(Only(dc, rest))).1);
        AlikeListen(b, b', sound);
        ListenKeepsChannel(b, sound);
        Demultiplexing(d1, d1', b1, Listen(b', sound), rest);
      } else {
        assert Only(dc, segments) == Only(dc, rest);
        SoundMode(s.channel, [s.head] + s.body);
        if b.counting { SoundUndamaged(s.channel, [s.head] + s.body); }
        assert !Selected(dc, Mode(1, s.channel.code, s.channel.textMode)) by { FieldOne(s, dc); }
        ForeignListen(b, Mode(1, s.channel.code, s.channel.textMode), sound);
        AlikeTransitive(b1, b, b');
        AlikeChannel(b1, b);
        Demultiplexing(d1, d', b1, b', rest);
      }
    }
  }

  lemma {:induction false} FieldOne(s: Segment, dc: DataChannel)
    requires ValidSegment(s) && s.channel != dc
    ensures !Selected(dc, Mode(1, s.channel.code, s.channel.textMode))
  {}

  lemma {:induction false} ListenKeepsChannel(b: Buffer, hs: seq<Heard>)
    ensures Listen(b, hs).channel == b.channel && Listen(b, hs).counting == b.counting
    decreases |hs|
  {
    if hs != [] {
      HandleKeepsChannel(b, hs[0].mode, hs[0].call);
      hide Handle;
      ListenKeepsChannel(Handle(b, hs[0].mode, hs[0].call), hs[1..]);
    }
  }

  lemma {:induction false} HandleKeepsChannel(b: Buffer, m: Mode, c: Call)
    ensures Handle(b, m, c).channel == b.channel && Handle(b, m, c).counting == b.counting
  {
    hide Print, Throws, Selected, Ends, Separates;
    if c.PrintChars? {
      PrintKeepsListener(b, c.c1);
      PrintKeepsListener(Print(b, c.c1), c.c2);
    }
  }

  lemma {:induction false} PrintKeepsListener(b: Buffer, c: Byte)
    ensures Print(b, c).channel == b.channel && Print(b, c).counting == b.counting
  {
    hide Itv.Accepts, Itv.SetAttribute, Covered, IndexOf, VbiToUnicode, VbiToAscii;
  }
}
