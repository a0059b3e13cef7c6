/** CommandCode.java and ExtendedChar.java, the senders of control codes, and what VBILine makes of them. */
module CommandCodes {
  import opened Vbi
  import opened Decoding
  import opened DecoderRuns
  import opened DecoderTheorems
  import opened Lines

  datatype CommandCode =
    | RCL | BS | AOF | AON | DER | RU2 | RU3 | RU4 | FON | RDC | TR | RTD | EDM | CR | ENM | EOC | TO1 | TO2 | TO3

  datatype ExtendedChar =
    | RegisteredTrademark | Degree | OneHalf | InvertedQuestionMark | Trademark | Cents | PoundsSterling | MusicNote
    | AWithGrave | TransparentSpace | EWithGrave | AWithCircumflex | EWithCircumflex | IWithCircumflex
    | OWithCircumflex | UWithCircumflex

  datatype TwoByteCode = Command(command: CommandCode) | Extended(extended: ExtendedChar)

  function CommandByte(c: CommandCode): Byte {
    match c
    case RCL => 0x20 case BS => 0x21 case AOF => 0x22 case AON => 0x23
    case DER => 0x24 case RU2 => 0x25 case RU3 => 0x26 case RU4 => 0x27
    case FON => 0x28 case RDC => 0x29 case TR => 0x2A case RTD => 0x2B
    case EDM => 0x2C case CR => 0x2D case ENM => 0x2E case EOC => 0x2F
    case TO1 => 0x21 case TO2 => 0x22 case TO3 => 0x23
  }

  function ExtendedByte(c: ExtendedChar): Byte {
    match c
    case RegisteredTrademark => 0x30 case Degree => 0x31
    case OneHalf => 0x32 case InvertedQuestionMark => 0x33
    case Trademark => 0x34 case Cents => 0x35
    case PoundsSterling => 0x36 case MusicNote => 0x37
    case AWithGrave => 0x38 case TransparentSpace => 0x39
    case EWithGrave => 0x3A case AWithCircumflex => 0x3B
    case EWithCircumflex => 0x3C case IWithCircumflex => 0x3D
    case OWithCircumflex => 0x3E case UWithCircumflex => 0x3F
  }

  /** getC1 and getC2. */
  function Bytes(code: TwoByteCode, channel: int): (Byte, Byte) {
    match code
    case Command(c) =>
      (if c in {TO1, TO2, TO3} then if channel == 1 then 0x17 else 0x1F else if channel == 1 then 0x14 else 0x1C,
       CommandByte(c))
    case Extended(c) => (if channel == 1 then 0x11 else 0x19, ExtendedByte(c))
  }

  /** setValues(DataChannel, TwoByteCode). */
  function PairOf(dc: DataChannel, code: TwoByteCode): Pair {
    var (c1, c2) := Bytes(code, dc.code);
    Pair(if dc.field == 1 then 21 else 284, c1, c2)
  }

  /** The call that carries the code to a listener. */
  function CallOf(code: TwoByteCode): Call {
    match code
    case Command(RCL) => ResumeCaption
    case Command(BS) => Backspace
    case Command(AOF) => AlarmOff
    case Command(AON) => AlarmOn
    case Command(DER) => DeleteToEndOfRow
    case Command(RU2) => RollUpCaption(2)
    case Command(RU3) => RollUpCaption(3)
    case Command(RU4) => RollUpCaption(4)
    case Command(FON) => FlashOn
    case Command(RDC) => ResumeDirect
    case Command(TR) => TextRestart
    case Command(RTD) => ResumeText
    case Command(EDM) => EraseDisplayed
    case Command(CR) => CarriageReturn
    case Command(ENM) => EraseNonDisplayed
    case Command(EOC) => EndOfCaption
    case Command(TO1) => Tab(1)
    case Command(TO2) => Tab(2)
    case Command(TO3) => Tab(3)
    case Extended(RegisteredTrademark) => PrintUnicode('\U{00AE}')
    case Extended(Degree) => PrintUnicode('\U{00B0}')
    case Extended(OneHalf) => PrintUnicode('\U{00BD}')
    case Extended(InvertedQuestionMark) => PrintUnicode('\U{00BF}')
    case Extended(Trademark) => PrintUnicode('\U{2122}')
    case Extended(Cents) => PrintUnicode('\U{00A2}')
    case Extended(PoundsSterling) => PrintUnicode('\U{00A3}')
    case Extended(MusicNote) => PrintUnicode('\U{266A}')
    case Extended(AWithGrave) => PrintUnicode('\U{00E0}')
    case Extended(TransparentSpace) => PrintUnicode(' ')
    case Extended(EWithGrave) => PrintUnicode('\U{00E8}')
    case Extended(AWithCircumflex) => PrintUnicode('\U{00E2}')
    case Extended(EWithCircumflex) => PrintUnicode('\U{00EA}')
    case Extended(IWithCircumflex) => PrintUnicode('\U{00EE}')
    case Extended(OWithCircumflex) => PrintUnicode('\U{00F4}')
    case Extended(UWithCircumflex) => PrintUnicode('\U{00FB}')
  }

  /** Caption codes leave text mode, text codes enter it, others keep it. */
  function ModeSet(code: TwoByteCode, before: bool): bool {
    if code.Command? && code.command in {RCL, RU2, RU3, RU4, RDC, EOC} then false
    else if code.Command? && code.command in {TR, RTD} then true
    else before
  }

  predicate IsChannel(dc: DataChannel) { dc.field in {1, 2} && dc.code in {1, 2} }

  lemma {:induction false} CommandIsDecoded(c: CommandCode, channel: int, before: bool)
    requires channel in {1, 2}
    ensures var (c1, c2) := Bytes(Command(c), channel);
      && 0x10 <= c1 < 0x20 && ChannelBit(c1) == channel
      && ControlCall(c1, c2) == CallOf(Command(c))
      && TextModeAfter(ControlCall(c1, c2), before) == ModeSet(Command(c), before)
  {}

  lemma {:induction false} ExtendedIsDecoded(c: ExtendedChar, channel: int, before: bool)
    requires channel in {1, 2}
    ensures var (c1, c2) := Bytes(Extended(c), channel);
      && 0x10 <= c1 < 0x20 && ChannelBit(c1) == channel
      && ControlCall(c1, c2) == CallOf(Extended(c))
      && TextModeAfter(ControlCall(c1, c2), before) == before
  {}

  /**
   * Sender and decoder: whatever went before, a code sent on a data channel's line becomes the call of its
   * name, under that field and channel and the mode the code sets, and nothing else.
   */
  lemma {:induction false} CodeRoundTrip(d: Decoder, dc: DataChannel, code: TwoByteCode)
    requires IsChannel(dc)
    ensures var (d1, h) := Hear(d, PairOf(dc, code));
      && h == [Heard(Mode(dc.field, dc.code, ModeSet(code, d.textMode)), CallOf(code))]
      && d1.textMode == ModeSet(code, d.textMode)
  {
    if code.Command? {
      CommandIsDecoded(code.command, dc.code, d.textMode);
    } else {
      ExtendedIsDecoded(code.extended, dc.code, d.textMode);
    }
    hide Bytes, CallOf, ControlCall, TextModeAfter, ModeSet, ChannelBit, CommandByte, ExtendedByte;
    var p := PairOf(dc, code);
    HearControl(d, p);
  }

  /** Mid-row codes and backgrounds, which have no sender: style or colour and the last bit. */
  lemma {:induction false} AttributesAreRead(channel: int, value: int, bit: bool)
    requires channel in {1, 2} && 0 <= value < 8
    ensures var (first, last) := (8 * (channel - 1), if bit then 1 else 0);
      && ControlCall(0x11 + first, 0x20 + 2 * value + last) == MidRow(value, bit)
      && ControlCall(0x10 + first, 0x20 + 2 * value + last) == BackgroundColor(value, bit)
      && ControlCall(0x17 + first, 0x2D) == TransparentBackground
      && ControlCall(0x17 + first, 0x2E + last) == BlackBackground(bit)
  {}
}
