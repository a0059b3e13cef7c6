/** The values that travel between VBILine, XDSData and the listeners. */
module Vbi {

  /** A byte as the device delivers it; negative marks a parity error. */
  type Byte = b: int | b <= 255

  /** NTSC lines: 21 is field 1, 284 is field 2. */
  type LineNumber = n: int | n == 21 || n == 284 witness 21

  datatype Pair = Pair(line: LineNumber, c1: Byte, c2: Byte)

  function Field(line: LineNumber): int { if line == 21 then 1 else 2 }

  /** ModifiedChar.java */
  function Modified(c: char): char {
    match c
    case '*' => '\U{00E1}'
    case '\\' => '\U{00E9}'
    case '^' => '\U{00ED}'
    case '_' => '\U{00F3}'
    case '`' => '\U{00FA}'
    case '{' => '\U{00E7}'
    case '|' => '\U{00F7}'
    case '}' => '\U{00D1}'
    case '~' => '\U{00F1}'
    case '\U{007F}' => '\U{2588}'
    case _ => c
  }

  /** ExtendedChar.java, by the low four bits of the second byte. */
  const EXTENDED: seq<char> := [
    '\U{00AE}', '\U{00B0}', '\U{00BD}', '\U{00BF}', '\U{2122}', '\U{00A2}', '\U{00A3}', '\U{266A}',
    '\U{00E0}', ' ', '\U{00E8}', '\U{00E2}', '\U{00EA}', '\U{00EE}', '\U{00F4}', '\U{00FB}'
  ]

  function VbiToAscii(c: Byte): char {
    if c < 0 || c % 128 < 0x20 then '\0' else (c % 128) as char
  }

  function VbiToUnicode(c: Byte): char {
    if c < 0 || c % 128 < 0x20 then '\0' else Modified((c % 128) as char)
  }

  // PROGRAM_START_TIME_ID ... CAPTION_SERVICES of XDSField.java
  datatype XdsField =
    | ProgramStartTimeId | ProgramLength | ProgramName | NoField
    | NetworkName | CallLetters | ProgramType | CaptionServices

  /**
   * The methods of VBICommand that VBILine calls, one for each executeCommand; PrintChars stands for
   * printChar(c1) and then printChar(c2), which is left out if c2 is 0 or the first call threw.
   * Crash is the Error thrown by endPacket.
   */
  datatype Call =
    | Nothing
    | ParityError(c1: Byte, c2: Byte)
    | UpdatedXds(change: XdsField)
    | PrintChars(c1: Byte, c2: Byte)
    | PrintUnicode(ch: char)
    | Pac(row: int, column: int, underline: bool)
    | BackgroundColor(color: int, translucent: bool)
    | MidRow(style: int, underline: bool)
    | ResumeCaption
    | Backspace
    | AlarmOff
    | AlarmOn
    | DeleteToEndOfRow
    | RollUpCaption(rows: int)
    | FlashOn
    | ResumeDirect
    | TextRestart
    | ResumeText
    | EraseDisplayed
    | CarriageReturn
    | EraseNonDisplayed
    | EndOfCaption
    | Tab(offset: int)
    | TransparentBackground
    | BlackBackground(underline: bool)
    | Unknown
    | Crash

  /** What a listener can ask the line while it is being called. */
  datatype Mode = Mode(field: int, channel: int, textMode: bool)
}
