/** What each control code does to a listener's text, by its two bytes, and the rows this delivers. */
module ControlTheorems {
  import opened Text
  import opened Vbi
  import opened Decoding
  import opened DecoderRuns
  import opened DecoderTheorems
  import opened Lines
  import opened ItvTheorems

  // ---------- byte by byte ----------

  datatype Effect = Finish | Restart | Separate | Erase | Letter(ch: char) | Leave | Report

  /** By the low three bits of the first byte and the low five of the second (section 15.119 of 47 CFR). */
  function EffectOf(c1: Byte, c2: Byte): Effect {
    var kind, code := c1 % 8, c2 % 32;
    if c2 >= 0x40 then Finish                                                         // preamble address codes
    else if kind == 1 then if code >= 0x10 then Letter(EXTENDED[c2 % 16]) else Separate  // mid-row codes
    else if kind in {4, 5} then
      if code in {0x00, 0x0C, 0x0D, 0x0F} then Finish                                 // RCL, EDM, CR, EOC
      else if code == 0x0A then Restart                                               // TR
      else if code == 0x01 then Erase                                                 // BS
      else if code < 0x10 then Leave            // AOF, AON, DER, RU2, RU3, RU4, FON, RDC, RTD, ENM
      else Report
    else if kind == 7 then
      if c2 in {0x21, 0x22, 0x23} then Separate                                       // TO1, TO2, TO3
      else if c2 in {0x2D, 0x2E, 0x2F} then Leave                                   // backgrounds
      else Report
    else if kind == 0 && code < 0x10 then Leave
    else Report
  }

  /** RCL, RU2, RU3, RU4, RDC and EOC set caption mode, TR and RTD text mode; nothing else does either. */
  function TextModeBy(c1: Byte, c2: Byte, before: bool): bool {
    if c2 >= 0x40 || c1 % 8 !in {4, 5} then before
    else if c2 % 32 in {0x00, 0x05, 0x06, 0x07, 0x09, 0x0F} then false
    else if c2 % 32 in {0x0A, 0x0B} then true
    else before
  }

  function ChannelBy(c1: Byte): int { if c1 % 16 < 8 then 1 else 2 }

  function Delivered(text: string): seq<Out> { if text == "" then [] else [LineOut(text)] }

  /** Unknown codes are reported whatever the mode; the other effects are for the selected listener. */
  function Effected(b: Buffer, selected: bool, e: Effect): Buffer {
    var Buffer(dc, counting, text, link, linkText, out) := b;
    if e.Report? then b.(out := out + [UnknownCommand])
    else if !selected then b
    else match e
      case Finish => Buffer(dc, counting, "", None, "", out + Delivered(text))
      case Restart => Buffer(dc, counting, "", None, "", out + if link.Some? then [] else Delivered(text))
      case Separate => if |text| > 1 && text[|text| - 1] != ' ' then b.(text := text + " ") else b
      case Erase => if text == "" then b else b.(text := text[..|text| - 1])
      case Letter(ch) => b.(text := text + [ch])
      case _ => b
  }

  predicate OnChannel(d: Decoder, line: LineNumber, dc: DataChannel) {
    dc == DataChannel(if line == 21 then 1 else 2, if line == 21 then d.channel1 else d.channel2, d.textMode)
  }

  /** A code, by its bytes, and what the listener makes of the call it becomes. */
  lemma {:induction false} CallDecides(b: Buffer, m: Mode, c1: Byte, c2: Byte)
    requires 0 <= c1 < 0x20 && 0 <= c2
    ensures Handle(b, m, ControlCall(c1, c2)) == Effected(b, Selected(b.channel, m), EffectOf(c1, c2))
  {
    hide Selected;
    var c := ControlCall(c1, c2);
    CodeClass(c1, c2);
    hide ControlCall, EffectOf;
    assert b.out + [] == b.out;
  }

  /** Which call a code becomes, as far as the text is concerned. */
  lemma {:induction false} CodeClass(c1: Byte, c2: Byte)
    requires 0 <= c1 < 0x20 && 0 <= c2
    ensures var c := ControlCall(c1, c2);
      match EffectOf(c1, c2)
      case Finish => Ends(c) && !c.TextRestart?
      case Restart => c.TextRestart?
      case Separate => Separates(c)
      case Erase => c.Backspace?
      case Letter(ch) => c == PrintUnicode(ch)
      case Leave =>
        && !Ends(c) && !Separates(c) && !c.Backspace? && !c.PrintUnicode? && !c.Unknown? && !c.ParityError?
        && !c.PrintChars?
      case Report => c.Unknown?
  {
    LowBits(c2);
  }

  lemma {:induction false} LowBits(c: Byte)
    requires 0 <= c
    ensures c / 16 % 2 != 0 <==> c % 32 >= 0x10
    ensures c % 16 == c % 32 % 16 && c % 8 == c % 32 % 8
  {
    var q, r := c / 32, c % 32;
    assert c == 32 * q + r && c / 16 == 2 * q + r / 16;
  }

  lemma {:induction false} ModeDecides(c1: Byte, c2: Byte, before: bool)
    requires 0 <= c1 < 0x20 && 0 <= c2
    ensures TextModeAfter(ControlCall(c1, c2), before) == TextModeBy(c1, c2, before)
    ensures ChannelBit(c1) == ChannelBy(c1)
  {
    ChannelDecides(c1);
    hide ChannelBit, ChannelBy;
    LowBits(c2);
  }

  lemma {:induction false} ChannelDecides(c1: Byte)
    requires 0 <= c1
    ensures ChannelBit(c1) == ChannelBy(c1)
  {
    var q, r := c1 / 16, c1 % 16;
    assert c1 / 8 == 2 * q + r / 8;
  }

  /**
   * Every control code on either field: the channel and text mode it leaves, and exactly what it does
   * to the text, the link and the outputs of any listener.
   */
  lemma {:induction false} BytesDecide(d: Decoder, b: Buffer, p: Pair)
    requires IsControlPair(p)
    ensures var (d1, h) := Hear(d, p);
      && (if p.line == 21 then d1.channel1 else d1.channel2) == ChannelBy(p.c1)
      && (if p.line == 21 then d1.channel2 == d.channel2 else d1.channel1 == d.channel1)
      && d1.textMode == TextModeBy(p.c1, p.c2, d.textMode)
      && Listen(b, h) == Effected(b, OnChannel(d1, p.line, b.channel), EffectOf(p.c1, p.c2))
  {
    hide ControlCall, EffectOf, Effected, TextModeAfter, TextModeBy, Handle;
    var (d1, h) := Hear(d, p);
    HearControl(d, p);
    ModeDecides(p.c1, p.c2, d.textMode);
    ListenOne(b, h[0]);
    CallDecides(b, h[0].mode, p.c1, p.c2);
  }

  // ---------- rows ----------

  /** The characters as the viewer sees them. */
  function Shown(text: string): (r: string)
    requires Printable(text)
    ensures |r| == |text| && forall i :: 0 <= i < |text| ==> r[i] == VbiToUnicode(text[i] as int)
  {
    seq(|text|, i requires 0 <= i < |text| => VbiToUnicode(text[i] as int))
  }

  const SPECIAL := "*\\^_`{|}~\U{007F}"
  const VIEWED := "\U{00E1}\U{00E9}\U{00ED}\U{00F3}\U{00FA}\U{00E7}\U{00F7}\U{00D1}\U{00F1}\U{2588}"

  /** Letters, digits and most marks are themselves; ten characters are replaced by their VBI forms. */
  lemma {:induction false} ShownAs(c: int)
    requires 0x20 <= c <= 0x7F
    ensures VbiToUnicode(c) == VbiToUnicode(c + 0x80)
    ensures c !in {0x2A, 0x5C, 0x5E, 0x5F, 0x60, 0x7B, 0x7C, 0x7D, 0x7E, 0x7F} ==> VbiToUnicode(c) == c as char
    ensures Printable(SPECIAL) && Shown(SPECIAL) == VIEWED
  {}

  /** A listener that cannot be reading a link. */
  predicate Linkless(b: Buffer) { b.channel != TEXT2 && b.link.None? }

  function Printed(c1: Byte, c2: Byte): string {
    [VbiToUnicode(c1)] + if c2 > 0 then [VbiToUnicode(c2)] else ""
  }

  lemma {:induction false} HearPrinted(d: Decoder, b: Buffer, c1: Byte, c2: Byte)
    requires OnChannel(d, 21, b.channel) && Linkless(b) && c1 >= 0x20 && c2 >= 0
    ensures var (d1, h) := Hear(d, Pair(21, c1, c2));
      && OnChannel(d1, 21, b.channel)
      && Listen(b, h) == b.(text := b.text + Printed(c1, c2))
  {
    hide VbiToUnicode;
    var h := Heard(Mode(1, b.channel.code, b.channel.textMode), PrintChars(c1, c2));
    TagOne(h.mode, h.call);
    ListenOne(b, h);
    assert Print(b, c1) == b.(text := b.text + [VbiToUnicode(c1)]);
    assert b.text + [VbiToUnicode(c1)] + "" == b.text + [VbiToUnicode(c1)];
    if c2 > 0 {
      assert b.text + [VbiToUnicode(c1)] + [VbiToUnicode(c2)] == b.text + Printed(c1, c2);
    }
  }

  /** The first pair of a text, and what it shows. */
  lemma {:induction false} FirstPair(text: string) returns (p: Pair, rest: string)
    requires Printable(text) && text != ""
    ensures |rest| < |text| && Printable(rest) && p.line == 21 && p.c1 >= 0x20 && p.c2 >= 0
    ensures Send(text) == [p] + Send(rest) && Shown(text) == Printed(p.c1, p.c2) + Shown(rest)
  {
    hide VbiToUnicode;
    if |text| == 1 {
      p, rest := Pair(21, text[0] as int, 0), "";
      assert Send(rest) == [];
      assert [p] + [] == [p];
      assert Shown(rest) == "";
    } else {
      p, rest := Pair(21, text[0] as int, text[1] as int), text[2..];
    }
  }

  lemma {:induction false} TextIsPrinted(d: Decoder, b: Buffer, text: string)
    requires OnChannel(d, 21, b.channel) && Linkless(b) && Printable(text)
    ensures var (d1, h) := Run(d, Send(text));
      OnChannel(d1, 21, b.channel) && Listen(b, h) == b.(text := b.text + Shown(text))
    decreases |text|
  {
    hide Hear, VbiToUnicode, OnChannel, Linkless, Printed, Run, Listen, Send, Printable;
    if text == "" {
      NothingSent(d, b);
      assert b.text + Shown(text) == b.text;
    } else {
      var p, rest := FirstPair(text);
      HearPrinted(d, b, p.c1, p.c2);
      var (d1, h) := Hear(d, p);
      var head := Printed(p.c1, p.c2);
      var b1 := b.(text := b.text + head);
      StillLinkless(b, b1.text);
      TextIsPrinted(d1, b1, rest);
      RunCons(d, p, Send(rest));
      ListenConcat(b, h, Run(d1, Send(rest)).1);
      assert b.text + head + Shown(rest) == b.text + (head + Shown(rest));
    }
  }

  lemma {:induction false} NothingSent(d: Decoder, b: Buffer)
    ensures Printable("") && Send("") == [] && Run(d, Send("")) == (d, []) && Listen(b, []) == b
  {}

  lemma {:induction false} StillLinkless(b: Buffer, text: string)
    requires Linkless(b)
    ensures Linkless(b.(text := text))
  {}

  /** A code of line 21 after which the channel is selected, from any mode. */
  predicate Selecting(dc: DataChannel, p: Pair) {
    && p.line == 21 && IsControlPair(p) && ChannelBy(p.c1) == dc.code
    && p.c2 < 0x40 && p.c1 % 8 in {4, 5}
    && (if dc.textMode then p.c2 % 32 in {0x0A, 0x0B} else p.c2 % 32 in {0x00, 0x05, 0x06, 0x07, 0x09, 0x0F})
  }

  /** EDM, CR or any preamble code, and RCL and EOC in captions, TR in text: ends the row, stays on the channel. */
  predicate EndsRow(dc: DataChannel, p: Pair) {
    && p.line == 21 && IsControlPair(p) && ChannelBy(p.c1) == dc.code
    && (|| p.c2 >= 0x40
        || (p.c1 % 8 in {4, 5} && p.c2 % 32 in {0x0C, 0x0D})
        || (p.c1 % 8 in {4, 5} && p.c2 % 32 in (if dc.textMode then {0x0A} else {0x00, 0x0F})))
  }

  /** RCL, EOC and TR also deliver what is pending; roll-up, RDC and RTD keep it in front of the row. */
  predicate Flushes(p: Pair) { p.c2 % 32 in {0x00, 0x0A, 0x0F} }

  /**
   * Selecting code, text, end of row: whatever the decoder was doing, the listener of the channel
   * delivers exactly that text as the viewer sees it, and its buffer is empty.
   */
  lemma {:induction false} RowIsDelivered(d: Decoder, b: Buffer, select: Pair, text: string, end: Pair)
    requires b.channel.field == 1 && Linkless(b) && Printable(text) && text != ""
    requires Selecting(b.channel, select) && EndsRow(b.channel, end)
    ensures var pending := if Flushes(select) then "" else b.text;
      Listen(b, Run(d, [select] + Send(text) + [end]).1) ==
        b.(text := "", linkText := "",
           out := b.out + (if Flushes(select) then Delivered(b.text) else []) + [LineOut(pending + Shown(text))])
  {
    hide Hear, Run, VbiToUnicode, Selecting, EndsRow, IsControlPair, Listen;
    SelectFacts(b, select);
    BytesDecide(d, b, select);
    var (d1, h1) := Hear(d, select);
    var b1 := Listen(b, h1);
    AfterSelect(b, select);
    assert OnChannel(d1, 21, b.channel) by { SelectMode(b.channel, select, d.textMode); }
    TextIsPrinted(d1, b1, text);
    var (d2, h2) := Run(d1, Send(text));
    var b2 := Listen(b1, h2);
    EndFacts(b.channel, end);
    BytesDecide(d2, b2, end);
    var (d3, h3) := Hear(d2, end);
    assert OnChannel(d3, 21, b.channel);
    AfterEnd(b2, b.channel, end);
    RunConcat(d, [select] + Send(text), [end]);
    RunCons(d, select, Send(text));
    RunOne(d2, end);
    ListenConcat(b, h1 + h2, h3);
    ListenConcat(b, h1, h2);
  }

  lemma {:induction false} SelectFacts(b: Buffer, p: Pair)
    requires Selecting(b.channel, p)
    ensures IsControlPair(p) && p.line == 21 && ChannelBy(p.c1) == b.channel.code
  {}

  lemma {:induction false} SelectMode(dc: DataChannel, p: Pair, before: bool)
    requires Selecting(dc, p)
    ensures TextModeBy(p.c1, p.c2, before) == dc.textMode
  {}

  lemma {:induction false} AfterSelect(b: Buffer, p: Pair)
    requires Selecting(b.channel, p) && Linkless(b)
    ensures Effected(b, true, EffectOf(p.c1, p.c2)) ==
      if Flushes(p) then b.(text := "", linkText := "", out := b.out + Delivered(b.text)) else b
  {}

  lemma {:induction false} EndFacts(dc: DataChannel, p: Pair)
    requires EndsRow(dc, p)
    ensures IsControlPair(p) && p.line == 21 && ChannelBy(p.c1) == dc.code
    ensures TextModeBy(p.c1, p.c2, dc.textMode) == dc.textMode
  {}

  lemma {:induction false} AfterEnd(b: Buffer, dc: DataChannel, p: Pair)
    requires EndsRow(dc, p) && Linkless(b)
    ensures Effected(b, true, EffectOf(p.c1, p.c2))
      == b.(text := "", linkText := "", out := b.out + Delivered(b.text))
  {}

  // ---------- preamble address codes ----------

  /** Where the standard puts the row number: three bits of the first byte and one of the second. */
  function RowCode(row: int): int {
    if row == 10 then 0 else if row < 4 then row + 2 else if row < 10 then row + 6 else row - 5
  }

  /** Each of the 15 rows has its code, and each attribute its column or colour and underline. */
  lemma {:induction false} PreambleIsRead(row: int, channel: int, attribute: int)
    requires 0 <= row < 15 && channel in {1, 2} && 0 <= attribute < 32
    ensures var c1, c2 := 0x10 + 8 * (channel - 1) + RowCode(row) / 2, 0x40 + 0x20 * (RowCode(row) % 2) + attribute;
      ControlCall(c1, c2) ==
        Pac(row, if attribute < 16 then attribute / 2 else 4 * ((attribute - 16) / 2), attribute % 2 == 1)
  {
    var half, bit := RowCode(row) / 2, RowCode(row) % 2;
    PreambleBits(half, bit, channel, attribute);
    assert 2 * half + bit == RowCode(row);
    RowTable(row);
    hide RowCode;
  }

  lemma {:induction false} RowTable(row: int)
    requires 0 <= row < 15
    ensures 0 <= RowCode(row) < 16 && ROW[RowCode(row)] == row
  {}

  lemma {:induction false} PreambleBits(half: int, bit: int, channel: int, attribute: int)
    requires 0 <= half < 8 && 0 <= bit < 2 && channel in {1, 2} && 0 <= attribute < 32
    ensures (0x10 + 8 * (channel - 1) + half) % 8 == half
    ensures var c2 := 0x40 + 0x20 * bit + attribute;
      && c2 / 32 % 2 == bit && c2 % 2 == attribute % 2
      && (c2 / 16 % 2 != 0 <==> attribute >= 16)
      && c2 / 2 % 8 == if attribute < 16 then attribute / 2 else (attribute - 16) / 2
  {}
}
