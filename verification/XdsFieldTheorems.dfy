/** Which field each packet fills, byte by byte of the stream that carries it. */
module XdsFieldTheorems {
  import opened Text
  import opened Vbi
  import opened XdsPackets
  import opened Decoding
  import opened DecoderRuns
  import opened XdsTheorems
  import ControlTheorems

  /** The seven class and type bytes that are handled (section 9.5.1 of EIA-608). */
  const FIELD_CODES: set<(int, int, XdsField)> := {
    (0x01, 0x01, ProgramStartTimeId), (0x01, 0x02, ProgramLength), (0x01, 0x03, ProgramName),
    (0x01, 0x04, ProgramType), (0x01, 0x07, CaptionServices),
    (0x05, 0x01, NetworkName), (0x05, 0x02, CallLetters)
  }

  predicate IsHandled(k: Packet) { exists c :: c in FIELD_CODES && c.0 == k.control && c.1 == k.kind }

  /** What a byte of a text field is shown as: seven bits of it, ten of them replaced, none below the blank. */
  function Viewed(c: char): char {
    var low := (c as int % 128) as char;
    var special := IndexOf(ControlTheorems.SPECIAL, low);
    if low < ' ' then '\0' else if special >= 0 then ControlTheorems.VIEWED[special] else low
  }

  /** What is kept of the payload: the program type and the caption services as sent, the others as viewed. */
  predicate IsStoredAs(f: XdsField, payload: string, stored: string) {
    && |stored| == |payload|
    && forall i :: 0 <= i < |payload| ==>
        stored[i] == if f in {ProgramType, CaptionServices} then payload[i] else Viewed(payload[i])
  }

  /** The bytes between start and end code that are part of the packet, added up. */
  function PayloadSum(pieces: seq<Piece>): int {
    if pieces == [] then 0
    else (if pieces[0].Payload? then pieces[0].c1 + pieces[0].c2 else 0) + PayloadSum(pieces[1..])
  }

  /** All bytes of the packet, its start and end code included, add up to 0 modulo 128. */
  predicate AddsUp(k: Packet, pieces: seq<Piece>, checksum: int) {
    (k.control + k.kind + PayloadSum(pieces) + 0x0F + checksum) % 128 == 0
  }

  lemma {:induction false} PayloadSumIsSum(pieces: seq<Piece>)
    requires ValidPieces(pieces)
    ensures Sum(AllText(pieces)) == PayloadSum(pieces)
  {
    hide Sum, PieceText, ValidPiece;
    if pieces == [] {
      assert Sum("") == 0 by { NoSum(); }
    } else {
      PieceSum(pieces[0]);
      PayloadSumIsSum(pieces[1..]);
      SumConcat(PieceText(pieces[0]), AllText(pieces[1..]));
    }
  }

  lemma {:induction false} NoSum()
    ensures Sum("") == 0
  {}

  lemma {:induction false} AddsUpIsMatch(k: Packet, pieces: seq<Piece>, checksum: Byte)
    requires ValidPieces(pieces)
    ensures Matches(k, AllText(pieces), checksum) == AddsUp(k, pieces, checksum)
  {
    hide Sum, PayloadSum;
    PayloadSumIsSum(pieces);
  }

  lemma {:induction false} ByteIsViewed(c: char)
    ensures CharToUnicode(c) == Viewed(c)
  {
    hide IndexOf;
    var low := (c as int % 128) as char;
    SpecialAt(low);
  }

  lemma {:induction false} SpecialAt(c: char)
    requires c as int < 128
    ensures var i := IndexOf(ControlTheorems.SPECIAL, c);
      Modified(c) == if i >= 0 then ControlTheorems.VIEWED[i] else c
  {
    hide IndexOf;
    var special := ControlTheorems.SPECIAL;
    var i := IndexOf(special, c);
    assert special == ['*', '\\', '^', '_', '`', '{', '|', '}', '~', '\U{007F}'];
    if i < 0 {
      assert special[0] != c && special[1] != c && special[2] != c && special[3] != c && special[4] != c;
      assert special[5] != c && special[6] != c && special[7] != c && special[8] != c && special[9] != c;
    }
  }

  /** The code decides the field. */
  lemma {:induction false} TargetByCode(k: Packet, f: XdsField)
    requires (k.control, k.kind, f) in FIELD_CODES
    ensures Target(k.control, k.kind) == f != NoField
    ensures IsMapped(f) <==> f !in {ProgramType, CaptionServices}
  {}

  lemma {:induction false} NoTarget(k: Packet)
    requires ValidPacket(k)
    ensures Target(k.control, k.kind) != NoField ==> IsHandled(k)
  {
    var f := Target(k.control, k.kind);
    if f != NoField { assert (k.control, k.kind as int, f) in FIELD_CODES; }
  }

  /**
   * A packet of a handled class and type whose bytes add up, however often it is broken off for
   * captions: its field becomes the payload, no other field changes, that one field is announced
   * behind the captions, and nothing else is.
   */
  lemma {:induction false} FieldIsStored(d: Decoder, k: Packet, pieces: seq<Piece>, checksum: Byte, f: XdsField)
    requires ValidPacket(k) && ValidPieces(pieces) && 0 <= checksum
    requires (k.control, k.kind, f) in FIELD_CODES && AddsUp(k, pieces, checksum)
    ensures var (d1, h) := Run(d, PacketStream(k, pieces, checksum));
      && f in d1.xds.fields && IsStoredAs(f, AllText(pieces), d1.xds.fields[f])
      && d1.xds.fields.Keys == d.xds.fields.Keys + {f}
      && (forall g :: g in d.xds.fields && g != f ==> d1.xds.fields[g] == d.xds.fields[g])
      && h == Run(d.(xds := Interrupt(d.xds)), AllCaptions(pieces)).1
              + [Heard(Mode(2, d1.channel2, d1.textMode), UpdatedXds(f))]
  {
    hide *;
    var text := AllText(pieces);
    AddsUpIsMatch(k, pieces, checksum);
    TargetByCode(k, f);
    PacketRoundTrip(d, k, pieces, checksum);
    var d1 := Run(d, PacketStream(k, pieces, checksum)).0;
    var stored := if IsMapped(f) then ToUnicode(text) else text;
    StoredAs(f, text);
    assert d1.xds.fields == d.xds.fields[f := stored];
    ModeOnField2(d1);
  }

  lemma {:induction false} ModeOnField2(d: Decoder)
    ensures ModeOf(d, 284) == Mode(2, d.channel2, d.textMode)
  {}

  lemma {:induction false} StoredAs(f: XdsField, text: string)
    requires IsMapped(f) <==> f !in {ProgramType, CaptionServices}
    ensures IsStoredAs(f, text, if IsMapped(f) then ToUnicode(text) else text)
  {
    hide IsMapped, Viewed, CharToUnicode;
    forall i | 0 <= i < |text| ensures CharToUnicode(text[i]) == Viewed(text[i]) { ByteIsViewed(text[i]); }
  }

  /** Any other packet, or one whose bytes do not add up, changes nothing and nobody is told. */
  lemma {:induction false} OtherPacketIsSilent(d: Decoder, k: Packet, pieces: seq<Piece>, checksum: Byte)
    requires ValidPacket(k) && ValidPieces(pieces) && 0 <= checksum
    requires !IsHandled(k) || !AddsUp(k, pieces, checksum)
    ensures var (d1, h) := Run(d, PacketStream(k, pieces, checksum));
      && d1.xds.fields == d.xds.fields
      && h == Run(d.(xds := Interrupt(d.xds)), AllCaptions(pieces)).1
  {
    hide *;
    var text := AllText(pieces);
    AddsUpIsMatch(k, pieces, checksum);
    NoTarget(k);
    PacketRun(d, k, pieces, checksum);
    NothingStored(d.xds.fields, k, text, checksum);
    var d1 := Run(d, PacketStream(k, pieces, checksum)).0;
    NothingAnnounced(ModeOf(d1, 284), k, text, checksum);
    var g := Run(d.(xds := Interrupt(d.xds)), AllCaptions(pieces)).1;
    assert g + [] == g;
  }

  // ---------- packets that are given up or repeated ----------

  /** The start code of a packet. */
  predicate IsStart(p: Pair) { p.line == 284 && 0 < p.c1 < 0x0F && p.c1 % 2 == 1 && 0 <= p.c2 }

  lemma {:induction false} NoPacketStep(d: Decoder, p: Pair)
    requires d.xds.control == 0 && !d.xds.active && !IsStart(p)
    ensures var (d1, h) := Hear(d, p);
      && d1.xds.control == 0 && !d1.xds.active && d1.xds.fields == d.xds.fields
      && forall i :: 0 <= i < |h| ==> !h[i].call.UpdatedXds?
  {
    hide ToUnicode, Sum, Target;
    if 0 < p.c1 < 0x20 && 0 <= p.c2 { DecodedControl(p.c1, p.c2); }
    hide ControlCall;
    TagCalls(ModeOf(Step(d, p).0, p.line), Step(d, p).1);
  }

  /** Without a start code no packet is completed. */
  lemma {:induction false} NoPacketRun(d: Decoder, ps: seq<Pair>)
    requires d.xds.control == 0 && !d.xds.active && forall i :: 0 <= i < |ps| ==> !IsStart(ps[i])
    ensures var (d1, h) := Run(d, ps); d1.xds.fields == d.xds.fields && NoUpdate(h)
    decreases |ps|
  {
    hide Hear, IsStart;
    if ps != [] {
      NoPacketStep(d, ps[0]);
      NoPacketRun(Hear(d, ps[0]).0, ps[1..]);
    }
  }

  /**
   * A continue code that is not the open packet's gives the packet up: until another is started no
   * field changes and nothing is announced, whatever arrives.
   */
  lemma {:induction false} ForeignContinueGivesUp(d: Decoder, k: Packet, text: string, p: Pair, ps: seq<Pair>)
    requires ValidPacket(k) && Holds(d.xds, k, text)
    requires p.line == 284 && 0 < p.c1 < 0x0F && p.c1 % 2 == 0 && 0 <= p.c2
    requires p.c1 != k.control + 1 || p.c2 != k.kind
    requires forall i :: 0 <= i < |ps| ==> !IsStart(ps[i])
    ensures var (d1, h) := Run(d, [p] + ps); d1.xds.fields == d.xds.fields && NoUpdate(h)
  {
    hide Run, IsStart;
    var d1 := Hear(d, p).0;
    assert Hear(d, p) == (d1, []) && d1.xds == ResetPacket(d.xds) by { GivenUp(d, k, text, p); }
    NoPacketRun(d1, ps);
    RunCons(d, p, ps);
    var tail := Run(d1, ps).1;
    assert [] + tail == tail;
  }

  lemma {:induction false} GivenUp(d: Decoder, k: Packet, text: string, p: Pair)
    requires ValidPacket(k) && Holds(d.xds, k, text)
    requires p.line == 284 && 0 < p.c1 < 0x0F && p.c1 % 2 == 0 && 0 <= p.c2
    requires p.c1 != k.control + 1 || p.c2 != k.kind
    ensures Hear(d, p).1 == [] && Hear(d, p).0.xds == ResetPacket(d.xds)
  {}

  /** After its end code the packet is still there, holding what was stored. */
  lemma {:induction false} PacketOutlivesItsEnd(d: Decoder, k: Packet, text: string, checksum: Byte, f: XdsField)
    requires ValidPacket(k) && Holds(d.xds, k, text) && 0 <= checksum
    requires (k.control, k.kind, f) in FIELD_CODES && Matches(k, text, checksum)
    ensures var x := Hear(d, Pair(284, 0x0F, checksum)).0.xds;
      && f in x.fields && IsStoredAs(f, text, x.fields[f])
      && Holds(x, k, x.fields[f]) && x.active == d.xds.active
  {
    hide Target, ToUnicode, Sum, IsStoredAs, IsMapped;
    TargetByCode(k, f);
    StoredAs(f, text);
  }

  lemma {:induction false} NothingStored(fields: map<XdsField, string>, k: Packet, text: string, checksum: int)
    requires !Matches(k, text, checksum) || Target(k.control, k.kind) == NoField
    ensures FieldsAfter(fields, k, text, checksum) == fields
  {
    hide Matches, Target;
  }

  lemma {:induction false} NothingAnnounced(m: Mode, k: Packet, text: string, checksum: int)
    requires !Matches(k, text, checksum) || Target(k.control, k.kind) == NoField
    ensures Announced(m, k, text, checksum) == []
  {
    hide Matches, Target;
  }
}
