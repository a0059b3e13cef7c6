/** The parity errors a listener reports, and exactly when demultiplexing is perfect. */
module ParityTheorems {
  import opened Vbi
  import opened Decoding
  import opened DecoderRuns
  import opened DecoderTheorems
  import opened Lines
  import Itv

  function Parities(out: seq<Out>): nat {
    if out == [] then 0 else Parities(out[..|out| - 1]) + if out[|out| - 1].Parity? then 1 else 0
  }

  lemma {:induction false} ParitiesConcat(x: seq<Out>, y: seq<Out>)
    ensures Parities(x + y) == Parities(x) + Parities(y)
  {
    if y == [] {
      assert x + y == x;
    } else {
      assert (x + y)[..|x + y| - 1] == x + y[..|y| - 1];
      ParitiesConcat(x, y[..|y| - 1]);
    }
  }

  lemma {:induction false} ParitiesAreVisible(out: seq<Out>)
    ensures Parities(Visible(out)) == Parities(out)
  {
    if out != [] {
      var init, last := out[..|out| - 1], out[|out| - 1];
      ParitiesAreVisible(init);
      assert last.UnknownCommand? ==> Visible(out) == Visible(init);
      assert (Visible(init) + [last])[..|Visible(init)|] == Visible(init);
    }
  }

  function ErrorOf(c: Call): nat { if c.ParityError? then 1 else 0 }

  /** The parity errors among some calls. */
  function Errors(hs: seq<Heard>): nat {
    if hs == [] then 0 else ErrorOf(hs[0].call) + Errors(hs[1..])
  }

  lemma {:induction false} ErrorsConcat(x: seq<Heard>, y: seq<Heard>)
    ensures Errors(x + y) == Errors(x) + Errors(y)
  {
    if x == [] {
      assert x + y == y;
    } else {
      assert (x + y)[1..] == x[1..] + y;
      ErrorsConcat(x[1..], y);
    }
  }

  /** What one call puts out, when it is no parity error. */
  predicate NoParity(out: seq<Out>) { forall i :: 0 <= i < |out| ==> !out[i].Parity? }

  lemma {:induction false} NoneCounted(out: seq<Out>)
    requires NoParity(out)
    ensures Parities(out) == 0
  {
    if out != [] { NoneCounted(out[..|out| - 1]); }
  }

  lemma {:induction false} PrintPutsNoParity(b: Buffer, c: Byte)
    requires NoParity(b.out)
    ensures NoParity(Print(b, c).out)
  {
    hide Itv.Accepts, Itv.SetAttribute, Covered, VbiToUnicode, VbiToAscii;
  }

  lemma {:induction false} ResetPutsNoParity(b: Buffer)
    requires b.out == []
    ensures NoParity(Reset(b).out) && NoParity(AddSpace(b).out)
  {}

  lemma {:induction false} OnePutsNoParity(c: Call)
    ensures NoParity([]) && NoParity([] + [UnknownCommand])
  {}

  lemma {:induction false} HandlePutsNoParity(b: Buffer, m: Mode, c: Call)
    requires b.out == [] && !c.ParityError?
    ensures NoParity(Handle(b, m, c).out)
  {
    hide Print, Selected, Throws, Ends, Separates, NoParity;
    OnePutsNoParity(c);
    if c.PrintChars? {
      PrintPutsNoParity(b, c.c1);
      PrintPutsNoParity(Print(b, c.c1), c.c2);
    } else {
      ResetPutsNoParity(b);
      ResetPutsNoParity(b.(text := ""));
    }
  }

  lemma {:induction false} HandleCounts(b: Buffer, m: Mode, c: Call)
    requires b.counting
    ensures Parities(Handle(b, m, c).out) == Parities(b.out) + ErrorOf(c)
  {
    hide Parities;
    HandleAppends(b, m, c);
    var e := b.(out := []);
    ParitiesConcat(b.out, Handle(e, m, c).out);
    if c.ParityError? {
      assert Handle(e, m, c).out == [Parity(c.c1, c.c2)];
      OneParity(c.c1, c.c2);
    } else {
      hide Handle;
      HandlePutsNoParity(e, m, c);
      NoneCounted(Handle(e, m, c).out);
    }
  }

  lemma {:induction false} OneParity(c1: Byte, c2: Byte)
    ensures Parities([Parity(c1, c2)]) == 1
  {
    assert [Parity(c1, c2)][..0] == [];
  }

  lemma {:induction false} ListenCounts(b: Buffer, hs: seq<Heard>)
    requires b.counting
    ensures Parities(Listen(b, hs).out) == Parities(b.out) + Errors(hs)
    decreases |hs|
  {
    hide Handle, Parities;
    if hs != [] {
      HandleCounts(b, hs[0].mode, hs[0].call);
      HandleKeepsChannel(b, hs[0].mode, hs[0].call);
      ListenCounts(Handle(b, hs[0].mode, hs[0].call), hs[1..]);
    }
  }

  /** A parity error makes one call, any other pair none of that kind. */
  lemma {:induction false} PairErrors(m: Mode, p: Pair)
    ensures Errors(Tag(m, Line21Calls(p))) == if p.c1 == 0 || (p.c1 >= 0 && p.c2 >= 0) then 0 else 1
  {
    if 0 < p.c1 < 0x20 && 0 <= p.c2 { ControlIsControl(p.c1, p.c2); }
    hide ControlCall;
    TagOne(m, Line21Calls(p)[0]);
    var h := Heard(m, Line21Calls(p)[0]);
    assert [h][1..] == [] && Errors([h]) == ErrorOf(h.call) + Errors([]);
  }

  lemma {:induction false} SoundErrors(dc: DataChannel, ps: seq<Pair>)
    ensures Errors(Sound(dc, ps)) == 0 <==> Undamaged(ps)
  {
    hide Line21Calls, Tag;
    if ps != [] {
      PairErrors(Mode(1, dc.code, dc.textMode), ps[0]);
      SoundErrors(dc, ps[1..]);
      ErrorsConcat(Tag(Mode(1, dc.code, dc.textMode), Line21Calls(ps[0])), Sound(dc, ps[1..]));
      assert Undamaged(ps) ==> Undamaged(ps[1..]);
      assert Undamaged(ps[1..]) ==> forall i :: 1 <= i < |ps| ==> ps[i] == ps[1..][i - 1];
    }
  }

  function SegmentErrors(s: Segment): nat { Errors(Sound(s.channel, [s.head] + s.body)) }

  /** The parity errors of all segments, and of those of other channels. */
  function AllErrors(segments: seq<Segment>): nat {
    if segments == [] then 0 else SegmentErrors(segments[0]) + AllErrors(segments[1..])
  }

  function ForeignErrors(dc: DataChannel, segments: seq<Segment>): nat {
    if segments == [] then 0
    else (if segments[0].channel == dc then 0 else SegmentErrors(segments[0])) + ForeignErrors(dc, segments[1..])
  }

  lemma {:induction false} StreamErrors(d: Decoder, segments: seq<Segment>)
    requires forall i :: 0 <= i < |segments| ==> ValidSegment(segments[i])
    ensures Errors(Run(d, Stream(segments)).1) == AllErrors(segments)
    decreases |segments|
  {
    hide Run, ValidSegment, Sound;
    if segments == [] {
      RunNothing(d);
    } else {
      var s := segments[0];
      RunSegment(d, s, Stream(segments[1..]));
      var d1 := Run(d, [s.head] + s.body).0;
      StreamErrors(d1, segments[1..]);
      ErrorsConcat(Sound(s.channel, [s.head] + s.body), Run(d1, Stream(segments[1..])).1);
    }
  }

  lemma {:induction false} OnlyErrors(dc: DataChannel, segments: seq<Segment>)
    requires forall i :: 0 <= i < |segments| ==> ValidSegment(segments[i])
    ensures AllErrors(segments) == AllErrors(Only(dc, segments)) + ForeignErrors(dc, segments)
    ensures forall i :: 0 <= i < |Only(dc, segments)| ==> ValidSegment(Only(dc, segments)[i])
  {
    hide ValidSegment, SegmentErrors;
    if segments != [] {
      OnlyErrors(dc, segments[1..]);
      if segments[0].channel == dc {
        assert ([segments[0]] + Only(dc, segments[1..]))[1..] == Only(dc, segments[1..]);
      } else {
        assert [] + Only(dc, segments[1..]) == Only(dc, segments[1..]);
      }
    }
  }

  lemma {:induction false} NoForeignErrors(b: Buffer, segments: seq<Segment>)
    requires b.counting
    ensures ForeignErrors(b.channel, segments) == 0 <==> forall i :: 0 <= i < |segments| ==> Tolerates(b, segments[i])
  {
    hide Sound, Undamaged;
    if segments != [] {
      NoForeignErrors(b, segments[1..]);
      SoundErrors(segments[0].channel, [segments[0].head] + segments[0].body);
      assert forall i :: 1 <= i < |segments| ==> segments[i] == segments[1..][i - 1];
      assert forall i :: 0 <= i < |segments| - 1 ==> segments[1..][i] == segments[i + 1];
    }
  }

  /** A SentenceBuffer reports exactly the other channels' parity errors more than without their segments. */
  lemma {:induction false} ForeignErrorsAreCounted(d: Decoder, d': Decoder, b: Buffer, b': Buffer,
                                                   segments: seq<Segment>)
    requires b.counting && forall i :: 0 <= i < |segments| ==> ValidSegment(segments[i])
    requires Alike(b, b')
    ensures Parities(Listen(b, Run(d, Stream(segments)).1).out)
         == Parities(Listen(b', Run(d', Stream(Only(b.channel, segments))).1).out) + ForeignErrors(b.channel, segments)
  {
    hide Run, Listen, ValidSegment, Parities, Visible, Errors, AllErrors, ForeignErrors;
    OnlyErrors(b.channel, segments);
    StreamErrors(d, segments);
    StreamErrors(d', Only(b.channel, segments));
    ListenCounts(b, Run(d, Stream(segments)).1);
    ListenCounts(b', Run(d', Stream(Only(b.channel, segments))).1);
    ParitiesAreVisible(b.out);
    ParitiesAreVisible(b'.out);
  }

  /**
   * Exactly when the other channels' segments cannot be told to be there: always for a LineBuffer,
   * and for a SentenceBuffer if and only if none of them has a parity error.
   */
  lemma {:induction false} DemultiplexingIff(d: Decoder, d': Decoder, b: Buffer, b': Buffer, segments: seq<Segment>)
    requires (forall i :: 0 <= i < |segments| ==> ValidSegment(segments[i])) && Alike(b, b')
    ensures Alike(Listen(b, Run(d, Stream(segments)).1), Listen(b', Run(d', Stream(Only(b.channel, segments))).1))
       <==> forall i :: 0 <= i < |segments| ==> Tolerates(b, segments[i])
  {
    hide Run, Listen, ValidSegment, Parities, Visible, ForeignErrors, Undamaged;
    if forall i :: 0 <= i < |segments| ==> Tolerates(b, segments[i]) {
      Demultiplexing(d, d', b, b', segments);
    } else {
      assert b.counting;
      NoForeignErrors(b, segments);
      ForeignErrorsAreCounted(d, d', b, b', segments);
      var x, y := Listen(b, Run(d, Stream(segments)).1), Listen(b', Run(d', Stream(Only(b.channel, segments))).1);
      ParitiesAreVisible(x.out);
      ParitiesAreVisible(y.out);
    }
  }
}
