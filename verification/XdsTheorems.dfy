/** Extended-data packets survive interruption, and damaged ones are dropped. */
module XdsTheorems {
  import opened Vbi
  import opened XdsPackets
  import opened Decoding
  import opened DecoderRuns

  // ---------- reachable states ----------

  /** control is 0 or one of the seven classes, and nothing is kept without a class. */
  predicate Sound(x: Xds) {
    && (x.control == 0 || IsClass(x.control))
    && (x.active ==> x.control > 0)
    && (x.control == 0 ==> x.buffer == "")
  }

  lemma {:induction false} StepKeepsSound(d: Decoder, p: Pair)
    requires Sound(d.xds)
    ensures Sound(Step(d, p).0.xds)
    ensures forall i :: 0 <= i < |Step(d, p).1| ==> !Step(d, p).1[i].Crash?
  {
    hide ToUnicode, Sum, Target;
    if 0 < p.c1 < 0x20 && 0 <= p.c2 { DecodedControl(p.c1, p.c2); }
    hide ControlCall;
  }

  lemma {:induction false} DecodedControl(c1: Byte, c2: Byte)
    requires 0 <= c1 < 0x20 && 0 <= c2
    ensures var c := ControlCall(c1, c2); !c.Crash? && !c.UpdatedXds?
  {}

  lemma {:induction false} TagCalls(m: Mode, calls: seq<Call>)
    ensures |Tag(m, calls)| == |calls| && forall i :: 0 <= i < |calls| ==> Tag(m, calls)[i] == Heard(m, calls[i])
  {
    if calls != [] { TagCalls(m, calls[1..]); }
  }

  /** From any sound state, so from the initial one, the "should be impossible" error is impossible. */
  lemma {:induction false} ReachableStatesAreSound(d: Decoder, ps: seq<Pair>)
    requires Sound(d.xds)
    ensures Sound(Run(d, ps).0.xds)
    ensures forall i :: 0 <= i < |Run(d, ps).1| ==> !Run(d, ps).1[i].call.Crash?
    decreases |ps|
  {
    hide Execute, Sound, Tag;
    if ps != [] {
      StepKeepsSound(d, ps[0]);
      var d1 := Step(d, ps[0]).0;
      TagCalls(ModeOf(d1, ps[0].line), Step(d, ps[0]).1);
      ReachableStatesAreSound(d1, ps[1..]);
    }
  }

  // ---------- a packet and what may come between its parts ----------

  datatype Packet = Packet(control: int, kind: Byte)

  datatype Piece =
    | Payload(c1: Byte, c2: Byte)
    | Noise(pair: Pair)
    | Break(control: Pair, captions: seq<Pair>)

  predicate IsXdsCode(p: Pair) { p.line == 284 && 0 < p.c1 < 0x10 && 0 <= p.c2 }

  /** A null pair or a parity error. */
  predicate IsNoise(p: Pair) { p.c1 <= 0 || p.c2 < 0 }

  predicate IsControl(p: Pair) { 0x10 <= p.c1 < 0x20 && 0 <= p.c2 }

  predicate ValidPiece(piece: Piece) {
    match piece
    case Payload(c1, c2) => 0x20 <= c1 && 0 <= c2
    case Noise(p) => p.line == 284 && IsNoise(p)
    case Break(p, captions) =>
      && p.line == 284 && IsControl(p)
      && forall i :: 0 <= i < |captions| ==> captions[i].line == 284 && !IsXdsCode(captions[i])
  }

  predicate ValidPacket(k: Packet) { IsClass(k.control) && 0 <= k.kind }

  predicate ValidPieces(pieces: seq<Piece>) { forall i :: 0 <= i < |pieces| ==> ValidPiece(pieces[i]) }

  function PieceStream(k: Packet, piece: Piece): seq<Pair>
    requires ValidPacket(k)
  {
    match piece
    case Payload(c1, c2) => [Pair(284, c1, c2)]
    case Noise(p) => [p]
    case Break(p, captions) => [p] + captions + [Pair(284, k.control + 1, k.kind)]
  }

  function Captions(piece: Piece): seq<Pair> {
    match piece
    case Payload(_, _) => []
    case Noise(p) => [p]
    case Break(p, captions) => [p] + captions
  }

  function PieceText(piece: Piece): string
    requires ValidPiece(piece)
  {
    if piece.Payload? then [piece.c1 as char] + if piece.c2 > 0 then [piece.c2 as char] else "" else ""
  }

  function Streams(k: Packet, pieces: seq<Piece>): seq<Pair>
    requires ValidPacket(k)
  {
    if pieces == [] then [] else PieceStream(k, pieces[0]) + Streams(k, pieces[1..])
  }

  function AllCaptions(pieces: seq<Piece>): seq<Pair> {
    if pieces == [] then [] else Captions(pieces[0]) + AllCaptions(pieces[1..])
  }

  function AllText(pieces: seq<Piece>): string
    requires ValidPieces(pieces)
  {
    if pieces == [] then "" else PieceText(pieces[0]) + AllText(pieces[1..])
  }

  /** Start code, pieces, end code with checksum. */
  function PacketStream(k: Packet, pieces: seq<Piece>, checksum: Byte): seq<Pair>
    requires ValidPacket(k)
  {
    [Pair(284, k.control, k.kind)] + (Streams(k, pieces) + [Pair(284, 0x0F, checksum)])
  }

  predicate Matches(k: Packet, text: string, checksum: int) {
    (Sum(text) + k.control + k.kind + 0x0F + checksum) % 128 == 0
  }

  // ---------- running a packet ----------

  predicate SameMode(d: Decoder, e: Decoder) {
    d.channel1 == e.channel1 && d.channel2 == e.channel2 && d.textMode == e.textMode
  }

  /** The packet is open, holding this text. */
  predicate Holds(x: Xds, k: Packet, text: string) {
    x.control == k.control && x.kind == k.kind && x.buffer == text
  }

  /** Without an open packet, captions are decoded the same whatever the packet data. */
  lemma {:induction false} QuietRun(d: Decoder, e: Decoder, ps: seq<Pair>)
    requires !d.xds.active && !e.xds.active && SameMode(d, e)
    requires forall i :: 0 <= i < |ps| ==> ps[i].line == 284 && !IsXdsCode(ps[i])
    ensures Run(d, ps).1 == Run(e, ps).1 && SameMode(Run(d, ps).0, Run(e, ps).0)
    ensures Run(d, ps).0.xds == d.xds && !Run(e, ps).0.xds.active
    decreases |ps|
  {
    if ps != [] {
      QuietStep(d, e, ps[0]);
      hide Hear;
      QuietRun(Hear(d, ps[0]).0, Hear(e, ps[0]).0, ps[1..]);
    }
  }

  lemma {:induction false} QuietStep(d: Decoder, e: Decoder, p: Pair)
    requires !d.xds.active && !e.xds.active && SameMode(d, e) && p.line == 284 && !IsXdsCode(p)
    ensures Hear(d, p).1 == Hear(e, p).1 && SameMode(Hear(d, p).0, Hear(e, p).0)
    ensures Hear(d, p).0.xds == d.xds && Hear(e, p).0.xds == e.xds
  {
    hide ControlCall, Tag;
  }

  /** A control code closes the packet for the time being and is otherwise decoded as usual. */
  lemma {:induction false} InterruptStep(d: Decoder, e: Decoder, p: Pair)
    requires d.xds.active && !e.xds.active && SameMode(d, e) && p.line == 284 && IsControl(p)
    ensures Hear(d, p).1 == Hear(e, p).1 && SameMode(Hear(d, p).0, Hear(e, p).0)
    ensures Hear(d, p).0.xds == Interrupt(d.xds) && Hear(e, p).0.xds == e.xds
  {
    hide ControlCall, Tag;
  }

  lemma {:induction false} ContinueStep(d: Decoder, k: Packet, text: string)
    requires Holds(d.xds, k, text) && ValidPacket(k)
    ensures var (d1, h) := Hear(d, Pair(284, k.control + 1, k.kind));
      && h == [] && SameMode(d1, d) && d1.xds == d.xds.(active := true)
  {}

  /** One piece: its text is added to the packet, its captions are heard, and nothing else. */
  lemma {:induction false} PieceRun(d: Decoder, e: Decoder, k: Packet, text: string, piece: Piece)
    requires ValidPacket(k) && ValidPiece(piece) && Holds(d.xds, k, text) && d.xds.active
    requires !e.xds.active && SameMode(d, e)
    ensures var (d1, h) := Run(d, PieceStream(k, piece)); var (e1, g) := Run(e, Captions(piece));
      && h == g && SameMode(d1, e1) && !e1.xds.active
      && Holds(d1.xds, k, text + PieceText(piece)) && d1.xds.active && d1.xds.fields == d.xds.fields
  {
    match piece {
      case Payload(c1, c2) =>
        PayloadStep(d, k, text, c1, c2);
        RunOne(d, Pair(284, c1, c2));
      case Noise(p) =>
        NoiseStep(d, e, p);
        RunOne(d, p);
        RunOne(e, p);
      case Break(p, captions) =>
        BreakRun(d, e, k, text, p, captions);
    }
  }

  lemma {:induction false} PayloadStep(d: Decoder, k: Packet, text: string, c1: Byte, c2: Byte)
    requires 0x20 <= c1 && 0 <= c2 && Holds(d.xds, k, text) && d.xds.active
    ensures var (d1, h) := Hear(d, Pair(284, c1, c2));
      && h == [] && SameMode(d1, d) && d1.xds.active && d1.xds.fields == d.xds.fields
      && Holds(d1.xds, k, text + ([c1 as char] + if c2 > 0 then [c2 as char] else ""))
  {
    var tail := if c2 > 0 then [c2 as char] else "";
    assert text + ([c1 as char] + tail) == text + [c1 as char] + tail;
  }

  lemma {:induction false} NoiseStep(d: Decoder, e: Decoder, p: Pair)
    requires IsNoise(p) && SameMode(d, e)
    ensures Hear(d, p).1 == Hear(e, p).1
    ensures Hear(d, p).0 == d.(processed := false) && Hear(e, p).0 == e.(processed := false)
  {}

  lemma {:induction false} BreakRun(d: Decoder, e: Decoder, k: Packet, text: string, p: Pair, captions: seq<Pair>)
    requires ValidPacket(k) && ValidPiece(Break(p, captions)) && Holds(d.xds, k, text) && d.xds.active
    requires !e.xds.active && SameMode(d, e)
    ensures var (d1, h) := Run(d, [p] + captions + [Pair(284, k.control + 1, k.kind)]);
      var (e1, g) := Run(e, [p] + captions);
      && h == g && SameMode(d1, e1) && !e1.xds.active
      && Holds(d1.xds, k, text) && d1.xds.active && d1.xds.fields == d.xds.fields
  {
    hide Hear, Run;
    var resume := Pair(284, k.control + 1, k.kind);
    InterruptStep(d, e, p);
    var d1, e1 := Hear(d, p).0, Hear(e, p).0;
    RunCons(d, p, captions);
    RunCons(e, p, captions);
    QuietRun(d1, e1, captions);
    RunConcat(d, [p] + captions, [resume]);
    var d2 := Run(d1, captions).0;
    ContinueStep(d2, k, text);
    RunOne(d2, resume);
    assert Run(d, [p] + captions).1 + [] == Run(d, [p] + captions).1;
  }

  lemma {:induction false} PiecesRun(d: Decoder, e: Decoder, k: Packet, text: string, pieces: seq<Piece>)
    requires ValidPacket(k) && ValidPieces(pieces) && Holds(d.xds, k, text) && d.xds.active
    requires !e.xds.active && SameMode(d, e)
    ensures var (d1, h) := Run(d, Streams(k, pieces)); var (e1, g) := Run(e, AllCaptions(pieces));
      && h == g && SameMode(d1, e1) && !e1.xds.active
      && Holds(d1.xds, k, text + AllText(pieces)) && d1.xds.active && d1.xds.fields == d.xds.fields
    decreases |pieces|
  {
    hide Run, PieceStream, Captions, PieceText, ValidPiece, Holds, ValidPacket;
    if pieces == [] {
      RunNothing(d);
      RunNothing(e);
      assert text + "" == text;
    } else {
      var first, rest := pieces[0], pieces[1..];
      PieceRun(d, e, k, text, first);
      var d1, e1 := Run(d, PieceStream(k, first)).0, Run(e, Captions(first)).0;
      PiecesRun(d1, e1, k, text + PieceText(first), rest);
      RunConcat(d, PieceStream(k, first), Streams(k, rest));
      RunConcat(e, Captions(first), AllCaptions(rest));
      assert text + (PieceText(first) + AllText(rest)) == text + PieceText(first) + AllText(rest);
    }
  }

  lemma {:induction false} StartStep(d: Decoder, k: Packet)
    requires ValidPacket(k)
    ensures var (d1, h) := Hear(d, Pair(284, k.control, k.kind));
      && h == [] && SameMode(d1, d) && Holds(d1.xds, k, "") && d1.xds.active && d1.xds.fields == d.xds.fields
  {}

  /** What the end code does to an open packet. */
  function FieldsAfter(fields: map<XdsField, string>, k: Packet, text: string, checksum: int): map<XdsField, string> {
    var f := Target(k.control, k.kind);
    if Matches(k, text, checksum) && f != NoField then fields[f := if IsMapped(f) then ToUnicode(text) else text]
    else fields
  }

  function Announced(m: Mode, k: Packet, text: string, checksum: int): seq<Heard> {
    var f := Target(k.control, k.kind);
    if Matches(k, text, checksum) && f != NoField then [Heard(m, UpdatedXds(f))] else []
  }

  lemma {:induction false} EndStep(d: Decoder, k: Packet, text: string, checksum: Byte)
    requires ValidPacket(k) && Holds(d.xds, k, text) && 0 <= checksum
    ensures var (d1, h) := Hear(d, Pair(284, 0x0F, checksum));
      && SameMode(d1, d) && d1.xds.fields == FieldsAfter(d.xds.fields, k, text, checksum)
      && h == Announced(ModeOf(d, 284), k, text, checksum)
  {
    hide Target, ToUnicode, Sum;
    var f := Target(k.control, k.kind);
    TagOne(ModeOf(d, 284), UpdatedXds(f));
  }

  /**
   * A packet broken any number of times by captions and resumed: the end code stores exactly the
   * payload if the checksum matches and nothing otherwise, and a listener hears exactly what it
   * would have heard from the captions alone, then the update if there is one.
   */
  lemma {:induction false} PacketRun(d: Decoder, k: Packet, pieces: seq<Piece>, checksum: Byte)
    requires ValidPacket(k) && ValidPieces(pieces) && 0 <= checksum
    ensures var (d1, h) := Run(d, PacketStream(k, pieces, checksum));
      var (e1, g) := Run(d.(xds := Interrupt(d.xds)), AllCaptions(pieces));
      && d1.xds.fields == FieldsAfter(d.xds.fields, k, AllText(pieces), checksum)
      && h == g + Announced(ModeOf(d1, 284), k, AllText(pieces), checksum)
      && SameMode(d1, e1)
  {
    hide Run, Hear, Holds, FieldsAfter, Announced;
    var e := d.(xds := Interrupt(d.xds));
    var start, end := Pair(284, k.control, k.kind), Pair(284, 0x0F, checksum);
    StartStep(d, k);
    var d0 := Hear(d, start).0;
    RunCons(d, start, Streams(k, pieces) + [end]);
    PiecesRun(d0, e, k, "", pieces);
    assert "" + AllText(pieces) == AllText(pieces);
    RunConcat(d0, Streams(k, pieces), [end]);
    var d2 := Run(d0, Streams(k, pieces)).0;
    EndStep(d2, k, AllText(pieces), checksum);
    RunOne(d2, end);
    var tail := Run(d0, Streams(k, pieces) + [end]).1;
    assert [] + tail == tail;
  }

  /** The round trip: with the right checksum the field becomes the payload. */
  lemma {:induction false} PacketRoundTrip(d: Decoder, k: Packet, pieces: seq<Piece>, checksum: Byte)
    requires ValidPacket(k) && ValidPieces(pieces) && 0 <= checksum
    requires Matches(k, AllText(pieces), checksum) && Target(k.control, k.kind) != NoField
    ensures var (f, text) := (Target(k.control, k.kind), AllText(pieces));
      var (d1, h) := Run(d, PacketStream(k, pieces, checksum));
      && d1.xds.fields == d.xds.fields[f := if IsMapped(f) then ToUnicode(text) else text]
      && h == Run(d.(xds := Interrupt(d.xds)), AllCaptions(pieces)).1 + [Heard(ModeOf(d1, 284), UpdatedXds(f))]
  {
    hide Run, Target, ToUnicode, AllText;
    PacketRun(d, k, pieces, checksum);
  }

  // ---------- damage ----------

  lemma {:induction false} SumConcat(x: string, y: string)
    ensures Sum(x + y) == Sum(x) + Sum(y)
  {
    if y == "" {
      assert x + y == x;
    } else {
      assert (x + y)[..|x + y| - 1] == x + y[..|y| - 1];
      SumConcat(x, y[..|y| - 1]);
    }
  }

  lemma {:induction false} SumOne(c: char)
    ensures Sum([c]) == c as int
  {
    assert [c][..0] == "";
  }

  /** An absent second byte counts as zero. */
  lemma {:induction false} PieceSum(piece: Piece)
    requires ValidPiece(piece)
    ensures Sum(PieceText(piece)) == if piece.Payload? then piece.c1 + piece.c2 else 0
  {
    if piece.Payload? {
      SumOne(piece.c1 as char);
      if piece.c2 > 0 {
        SumOne(piece.c2 as char);
        SumConcat([piece.c1 as char], [piece.c2 as char]);
      } else {
        assert PieceText(piece) == [piece.c1 as char];
      }
    }
  }

  /** pieces with byte one of payload i (or byte two) replaced. */
  function Damage(pieces: seq<Piece>, i: nat, first: bool, b: Byte): seq<Piece>
    requires i < |pieces| && pieces[i].Payload?
  {
    pieces[i := if first then Payload(b, pieces[i].c2) else Payload(pieces[i].c1, b)]
  }

  lemma {:induction false} DamagedSum(pieces: seq<Piece>, i: nat, first: bool, b: Byte)
    requires ValidPieces(pieces) && i < |pieces| && pieces[i].Payload?
    requires ValidPieces(Damage(pieces, i, first, b))
    ensures var sent := if first then pieces[i].c1 else pieces[i].c2;
      Sum(AllText(Damage(pieces, i, first, b))) == Sum(AllText(pieces)) + b - sent
  {
    hide PieceText, ValidPiece;
    var damaged := Damage(pieces, i, first, b);
    SumConcat(PieceText(pieces[0]), AllText(pieces[1..]));
    SumConcat(PieceText(damaged[0]), AllText(damaged[1..]));
    if i == 0 {
      PieceSum(pieces[0]);
      PieceSum(damaged[0]);
      assert damaged[1..] == pieces[1..];
    } else {
      assert damaged[1..] == Damage(pieces[1..], i - 1, first, b);
      DamagedSum(pieces[1..], i - 1, first, b);
    }
  }

  /** One payload byte replaced by another 7-bit one: the packet is dropped and nobody is told. */
  lemma {:induction false} DamagedPacketIsDropped(d: Decoder, k: Packet, pieces: seq<Piece>, checksum: Byte,
                                                  i: nat, first: bool, b: Byte)
    requires ValidPacket(k) && ValidPieces(pieces) && 0 <= checksum && Matches(k, AllText(pieces), checksum)
    requires i < |pieces| && pieces[i].Payload? && ValidPieces(Damage(pieces, i, first, b))
    requires var sent := if first then pieces[i].c1 else pieces[i].c2; b != sent && 0 <= sent < 128 && 0 <= b < 128
    ensures var (d1, h) := Run(d, PacketStream(k, Damage(pieces, i, first, b), checksum));
      && d1.xds.fields == d.xds.fields
      && h == Run(d.(xds := Interrupt(d.xds)), AllCaptions(pieces)).1
  {
    hide Run, AllText, Sum, Target, ValidPiece;
    var damaged := Damage(pieces, i, first, b);
    DamagedSum(pieces, i, first, b);
    assert !Matches(k, AllText(damaged), checksum);
    PacketRun(d, k, damaged, checksum);
    SameCaptions(pieces, i, first, b);
    var g := Run(d.(xds := Interrupt(d.xds)), AllCaptions(pieces)).1;
    assert g + [] == g;
  }

  lemma {:induction false} SameCaptions(pieces: seq<Piece>, i: nat, first: bool, b: Byte)
    requires i < |pieces| && pieces[i].Payload?
    ensures AllCaptions(Damage(pieces, i, first, b)) == AllCaptions(pieces)
  {
    var damaged := Damage(pieces, i, first, b);
    if i == 0 {
      assert damaged[1..] == pieces[1..];
    } else {
      assert damaged[1..] == Damage(pieces[1..], i - 1, first, b);
      SameCaptions(pieces[1..], i - 1, first, b);
    }
  }

  // ---------- arbitrary streams ----------

  /** Characters that arrive while the packet is open; open is switched by control and continue codes. */
  function Received(ps: seq<Pair>, open: bool): string {
    if ps == [] then ""
    else
      var Pair(line, c1, c2) := ps[0];
      var text := if line == 284 && c1 >= 0x20 && 0 <= c2 && open
                  then [c1 as char] + (if c2 > 0 then [c2 as char] else "") else "";
      var open' := if IsNoise(ps[0]) || c1 >= 0x20 then open
                   else if IsXdsCode(ps[0]) then open || c1 != 0x0F
                   else false;
      text + Received(ps[1..], open')
  }

  /** No start code, and no continue code of another packet. */
  predicate Continues(k: Packet, ps: seq<Pair>) {
    forall i :: 0 <= i < |ps| && IsXdsCode(ps[i]) && ps[i].c1 != 0x0F ==>
      ps[i].c1 == k.control + 1 && ps[i].c2 == k.kind
  }

  predicate NoUpdate(hs: seq<Heard>) { forall i :: 0 <= i < |hs| ==> !hs[i].call.UpdatedXds? }

  lemma {:induction false} ReceivedStep(d: Decoder, k: Packet, text: string, p: Pair)
    requires ValidPacket(k) && Holds(d.xds, k, text) && Continues(k, [p]) && NoUpdate(Hear(d, p).1)
    ensures Holds(Hear(d, p).0.xds, k, text + Received([p], d.xds.active))
    ensures Hear(d, p).0.xds.active ==
      if IsNoise(p) || p.c1 >= 0x20 then d.xds.active
      else if IsXdsCode(p) then d.xds.active || p.c1 != 0x0F else false
  {
    hide ControlCall, Target, Sum, ToUnicode, ChecksumHolds;
    assert [p][0] == p && Received([p][1..], false) == "" && Received([p][1..], true) == "";
    if IsXdsCode(p) && p.c1 == 0x0F {
      TagCalls(ModeOf(Step(d, p).0, 284), Step(d, p).1);
      assert Step(d, p).1 != [] ==> !Hear(d, p).1[0].call.UpdatedXds?;
      assert text + Received([p], d.xds.active) == text;
    } else if p.line == 284 && p.c1 >= 0x20 && 0 <= p.c2 && d.xds.active {
      PayloadStep(d, k, text, p.c1, p.c2);
      var t := [p.c1 as char] + if p.c2 > 0 then [p.c2 as char] else "";
      assert Received([p], true) == t + "" == t;
    } else {
      assert Received([p], d.xds.active) == "";
      assert text + "" == text;
    }
  }

  /** Until a packet is accepted, its buffer is what arrived in it since the start code, in any stream. */
  lemma {:induction false} BufferIsWhatArrived(d: Decoder, k: Packet, text: string, ps: seq<Pair>)
    requires ValidPacket(k) && Holds(d.xds, k, text) && Continues(k, ps) && NoUpdate(Run(d, ps).1)
    ensures Holds(Run(d, ps).0.xds, k, text + Received(ps, d.xds.active))
    decreases |ps|
  {
    hide Hear, Holds, ValidPacket, IsNoise, IsXdsCode;
    if ps == [] {
      assert text + "" == text;
    } else {
      var p, rest := ps[0], ps[1..];
      var (d1, h) := Hear(d, p);
      assert forall i :: 0 <= i < |rest| ==> rest[i] == ps[i + 1];
      assert Continues(k, [p]) && Continues(k, rest);
      assert Run(d, ps).1 == h + Run(d1, rest).1;
      assert forall i :: 0 <= i < |h| ==> Run(d, ps).1[i] == h[i];
      assert forall i :: 0 <= i < |Run(d1, rest).1| ==> Run(d, ps).1[|h| + i] == Run(d1, rest).1[i];
      ReceivedStep(d, k, text, p);
      BufferIsWhatArrived(d1, k, text + Received([p], d.xds.active), rest);
      ReceivedCons(ps, d.xds.active, d1.xds.active);
      assert text + (Received([p], d.xds.active) + Received(rest, d1.xds.active))
          == text + Received([p], d.xds.active) + Received(rest, d1.xds.active);
    }
  }

  lemma {:induction false} ReceivedCons(ps: seq<Pair>, open: bool, open': bool)
    requires ps != []
    requires open' == if IsNoise(ps[0]) || ps[0].c1 >= 0x20 then open
                      else if IsXdsCode(ps[0]) then open || ps[0].c1 != 0x0F else false
    ensures Received(ps, open) == Received([ps[0]], open) + Received(ps[1..], open')
  {
    var one := [ps[0]];
    assert one[1..] == [] && Received(one[1..], open') == "";
    assert Received(one, open) + "" == Received(one, open);
  }
}
