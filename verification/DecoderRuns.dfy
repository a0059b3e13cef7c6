/** Streams of byte pairs through the decoder, and what a listener makes of them. */
module DecoderRuns {
  import opened Vbi
  import opened Decoding
  import Lines

  /** A call together with the mode the listener sees while it is made. */
  datatype Heard = Heard(mode: Mode, call: Call)

  function Tag(m: Mode, calls: seq<Call>): seq<Heard> {
    if calls == [] then [] else [Heard(m, calls[0])] + Tag(m, calls[1..])
  }

  function Hear(d: Decoder, p: Pair): (Decoder, seq<Heard>) {
    var (d', calls) := Step(d, p);
    (d', Tag(ModeOf(d', p.line), calls))
  }

  /** setValues and executeCommand for each pair in turn. */
  function Run(d: Decoder, ps: seq<Pair>): (Decoder, seq<Heard>)
    decreases |ps|
  {
    if ps == [] then (d, [])
    else
      var (d1, h1) := Hear(d, ps[0]);
      var (d2, h2) := Run(d1, ps[1..]);
      (d2, h1 + h2)
  }

  function Listen(b: Lines.Buffer, hs: seq<Heard>): Lines.Buffer
    decreases |hs|
  {
    if hs == [] then b else Listen(Lines.Handle(b, hs[0].mode, hs[0].call), hs[1..])
  }

  lemma {:induction false} RunConcat(d: Decoder, x: seq<Pair>, y: seq<Pair>)
    ensures Run(d, x + y) == (Run(Run(d, x).0, y).0, Run(d, x).1 + Run(Run(d, x).0, y).1)
    decreases |x|
  {
    hide Hear;
    if x == [] {
      assert x + y == y;
      assert [] + Run(d, y).1 == Run(d, y).1;
    } else {
      assert (x + y)[0] == x[0] && (x + y)[1..] == x[1..] + y;
      var d1 := Hear(d, x[0]).0;
      RunConcat(d1, x[1..], y);
      assert Hear(d, x[0]).1 + (Run(d1, x[1..]).1 + Run(Run(d, x).0, y).1)
          == (Hear(d, x[0]).1 + Run(d1, x[1..]).1) + Run(Run(d, x).0, y).1;
    }
  }

  lemma {:induction false} RunNothing(d: Decoder)
    ensures Run(d, []) == (d, [])
  {}

  lemma {:induction false} RunOne(d: Decoder, p: Pair)
    ensures Run(d, [p]) == Hear(d, p)
  {
    hide Hear;
    assert [p][1..] == [];
    assert Hear(d, p).1 + [] == Hear(d, p).1;
  }

  lemma {:induction false} RunCons(d: Decoder, p: Pair, ps: seq<Pair>)
    ensures Run(d, [p] + ps) == (Run(Hear(d, p).0, ps).0, Hear(d, p).1 + Run(Hear(d, p).0, ps).1)
  {
    hide Hear;
    assert ([p] + ps)[1..] == ps;
  }

  lemma {:induction false} ListenConcat(b: Lines.Buffer, x: seq<Heard>, y: seq<Heard>)
    ensures Listen(b, x + y) == Listen(Listen(b, x), y)
    decreases |x|
  {
    hide Lines.Handle;
    if x == [] {
      assert x + y == y;
    } else {
      assert (x + y)[1..] == x[1..] + y;
      ListenConcat(Lines.Handle(b, x[0].mode, x[0].call), x[1..], y);
    }
  }

  lemma {:induction false} TagOne(m: Mode, c: Call)
    ensures Tag(m, [c]) == [Heard(m, c)]
  {
    assert [c][1..] == [];
  }

  lemma {:induction false} ListenOne(b: Lines.Buffer, h: Heard)
    ensures Listen(b, [h]) == Lines.Handle(b, h.mode, h.call)
  {
    hide Lines.Handle;
    assert [h][1..] == [];
  }

  /** The run functions describe exactly what the objects do: HandleAll is Listen of the tagged calls. */
  lemma {:induction false} ListenIsHandleAll(b: Lines.Buffer, m: Mode, calls: seq<Call>)
    ensures Lines.HandleAll(b, m, calls) == Listen(b, Tag(m, calls))
  {
    hide Lines.Handle;
    if calls != [] {
      var init, last := calls[..|calls| - 1], calls[|calls| - 1];
      ListenIsHandleAll(b, m, init);
      TagConcat(m, init, [last]);
      TagOne(m, last);
      assert calls == init + [last];
      ListenConcat(b, Tag(m, init), [Heard(m, last)]);
      ListenOne(Listen(b, Tag(m, init)), Heard(m, last));
    }
  }

  lemma {:induction false} TagConcat(m: Mode, x: seq<Call>, y: seq<Call>)
    ensures Tag(m, x + y) == Tag(m, x) + Tag(m, y)
  {
    if x == [] {
      assert x + y == y;
    } else {
      assert (x + y)[1..] == x[1..] + y;
      TagConcat(m, x[1..], y);
    }
  }

  /** A capture loop over the real objects does what Run and Listen say. */
  method Capture(line: VbiLine, listener: Lines.LineBuffer, ps: seq<Pair>)
    requires line.Valid() && listener.Repr() !! {line, line.channel, line.xds}
    modifies line, line.channel, line.xds, listener.Repr()
    ensures line.Valid() && fresh(listener.Repr() - old(listener.Repr()))
    ensures line.State() == Run(old(line.State()), ps).0
    ensures listener.State() == Listen(old(listener.State()), Run(old(line.State()), ps).1)
  {
    hide Lines.Handle, Execute, Lines.HandleAll, Listen, Tag;
    ghost var d0, b0 := line.State(), listener.State();
    var i := 0;
    assert ps[..0] == [];
    assert Listen(b0, []) == b0 by { ListenNone(b0); }
    while i < |ps|
      invariant 0 <= i <= |ps|
      invariant line.Valid() && listener.Repr() !! {line, line.channel, line.xds}
      invariant fresh(listener.Repr() - old(listener.Repr()))
      invariant line.State() == Run(d0, ps[..i]).0
      invariant listener.State() == Listen(b0, Run(d0, ps[..i]).1)
    {
      ghost var d, b := line.State(), listener.State();
      line.SetValues(ps[i].line, ps[i].c1, ps[i].c2);
      line.ExecuteCommand(listener);
      ListenIsHandleAll(b, ModeOf(Step(d, ps[i]).0, ps[i].line), Step(d, ps[i]).1);
      RunConcat(d0, ps[..i], [ps[i]]);
      RunOne(d, ps[i]);
      assert ps[..i + 1] == ps[..i] + [ps[i]];
      ListenConcat(b0, Run(d0, ps[..i]).1, Hear(d, ps[i]).1);
      i := i + 1;
    }
    assert ps[..i] == ps;
  }

  lemma {:induction false} ListenNone(b: Lines.Buffer)
    ensures Listen(b, []) == b
  {}
}
