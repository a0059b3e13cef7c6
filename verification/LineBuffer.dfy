/**
 * LineBuffer.java: collects the characters of one data channel into lines and, on TEXT2,
 * parses interactive-TV links. Buffer is the state as a value, class LineBuffer the object.
 */
module Lines {
  import opened Text
  import opened Vbi
  import opened Itv

  datatype DataChannel = DataChannel(field: int, code: int, textMode: bool)

  const TEXT2 := DataChannel(1, 2, true)

  /** What a listener's user sees. Thrown is the exception escaping from setAttribute. */
  datatype Out =
    | LineOut(line: string)
    | LinkOut(link: Link)
    | InvalidLink(link: Link)
    | ChecksumError
    | Parity(c1: Byte, c2: Byte)
    | UnknownCommand
    | Thrown

  /**
   * linkText is "" while link is None (both fields are null in the source). counting: this is a
   * SentenceBuffer, whose parityError counts every error, whatever the selected mode.
   */
  datatype Buffer = Buffer(channel: DataChannel, counting: bool, text: string, link: Option<Link>, linkText: string,
                           out: seq<Out>)

  function Fresh(dc: DataChannel, counting: bool): Buffer { Buffer(dc, counting, "", None, "", []) }

  predicate Selected(dc: DataChannel, m: Mode) {
    m.channel == dc.code && m.field == dc.field && m.textMode == dc.textMode
  }

  function Emit(b: Buffer, o: Out): Buffer { b.(out := b.out + [o]) }

  function Reset(b: Buffer): Buffer {
    b.(text := "", link := None, linkText := "", out := b.out + if b.text != "" then [LineOut(b.text)] else [])
  }

  function AddSpace(b: Buffer): Buffer {
    if |b.text| > 1 && b.text[|b.text| - 1] != ' ' then b.(text := b.text + " ") else b
  }

  /** The part of the text that the checksum covers: up to the bracket before the last one. */
  function Covered(text: string): string
    requires text != ""
  {
    text[..LastIndexOf(text, ']', |text| - 2) + 1]
  }

  /** A closing bracket while the attributes of a link are being read. */
  function CloseBracket(b: Buffer): Buffer
    requires b.link.Some? && b.text != ""
  {
    if IndexOf(b.linkText, ':') >= 0 then
      match SetAttribute(b.link.value, b.linkText)
      case None => Emit(b, Thrown)
      case Some(l) => b.(link := Some(l), linkText := "")
    else
      var result := if Accepts(Covered(b.text), b.linkText) then LinkOut(b.link.value) else ChecksumError;
      Reset(Emit(b, result).(text := ""))
  }

  /** printChar for a selected channel. */
  function Print(b: Buffer, c: Byte): Buffer {
    var b1 := b.(text := b.text + [if b.link.Some? then VbiToAscii(c) else VbiToUnicode(c)]);
    if b.channel == TEXT2 && |b1.text| == 1 && c == '<' as int then
      (if b1.link.Some? then Emit(b1, InvalidLink(b1.link.value)) else b1).(link := Some(EMPTY_LINK), linkText := "")
    else if b1.link.None? then b1
    else if b1.link.value.url.None? && c == '>' as int then
      b1.(link := Some(b1.link.value.(url := Some(b1.linkText))), linkText := "")
    else if b1.link.value.url.Some? && c == '[' as int then b1
    else if b1.link.value.url.Some? && c == ']' as int then CloseBracket(b1)
    else b1.(linkText := b1.linkText + [VbiToAscii(c)])
  }

  /** printChar ends with the exception of setAttribute. */
  predicate Throws(b: Buffer, c: Byte) {
    && c == ']' as int && b.link.Some? && b.link.value.url.Some?
    && IndexOf(b.linkText, ':') >= 0 && SetAttribute(b.link.value, b.linkText).None?
  }

  /** The characters of one pair; an exception leaves executeCommand before the second. */
  function PrintBoth(b: Buffer, c1: Byte, c2: Byte): Buffer {
    if c2 <= 0 || Throws(b, c1) then Print(b, c1) else Print(Print(b, c1), c2)
  }

  /** Calls that finish the line, and calls that separate words. */
  predicate Ends(c: Call) {
    c.CarriageReturn? || c.ResumeCaption? || c.TextRestart? || c.EraseDisplayed? || c.EndOfCaption? || c.Pac?
  }

  predicate Separates(c: Call) { c.MidRow? || c.Tab? }

  function Handle(b: Buffer, m: Mode, c: Call): Buffer {
    if c.Unknown? then Emit(b, UnknownCommand)
    else if c.ParityError? && b.counting then Emit(b, Parity(c.c1, c.c2))
    else if !Selected(b.channel, m) then b
    else match c
      case ParityError(c1, c2) => Emit(b, Parity(c1, c2))
      case PrintUnicode(ch) => b.(text := b.text + [ch])
      case PrintChars(c1, c2) => PrintBoth(b, c1, c2)
      case Backspace => if b.text != "" then b.(text := b.text[..|b.text| - 1]) else b
      case TextRestart => Reset(if b.link.Some? then b.(text := "") else b)
      case _ => if Ends(c) then Reset(b) else if Separates(c) then AddSpace(b) else b
  }

  function HandleAll(b: Buffer, m: Mode, calls: seq<Call>): Buffer {
    if calls == [] then b else Handle(HandleAll(b, m, calls[..|calls| - 1]), m, calls[|calls| - 1])
  }

  lemma {:induction false} HandledAs(b: Buffer, m: Mode, c: Call)
    ensures c.Unknown? ==> Handle(b, m, c) == Emit(b, UnknownCommand)
    ensures c.CarriageReturn? || c.ResumeCaption? || c.EraseDisplayed? || c.EndOfCaption? || c.Pac? ==>
      Handle(b, m, c) == if Selected(b.channel, m) then Reset(b) else b
    ensures c.MidRow? || c.Tab? ==> Handle(b, m, c) == if Selected(b.channel, m) then AddSpace(b) else b
    ensures (!c.Unknown? && !c.ParityError? && !c.PrintUnicode? && !c.PrintChars? && !c.Backspace?) ==>
      !Ends(c) && !Separates(c) ==> Handle(b, m, c) == b
    ensures Ends(c) <==>
      c.CarriageReturn? || c.ResumeCaption? || c.TextRestart? || c.EraseDisplayed? || c.EndOfCaption? || c.Pac?
    ensures Separates(c) <==> c.MidRow? || c.Tab?
  {
    hide PrintBoth, Reset, AddSpace, Selected;
  }

  class LineBuffer {
    const dataChannel: DataChannel
    const counting: bool
    var buffer: string
    var itvLink: ItvLink?
    var itvLinkBuffer: string
    var out: seq<Out>

    ghost function State(): (b: Buffer)
      reads this, itvLink
      ensures b.channel == dataChannel && b.counting == counting
    {
      Buffer(dataChannel, counting, buffer, if itvLink == null then None else Some(itvLink.Value()), itvLinkBuffer, out)
    }

    ghost function Repr(): set<object>
      reads this
    {
      if itvLink == null then {this} else {this, itvLink}
    }

    constructor (dc: DataChannel, counting: bool)
      ensures State() == Fresh(dc, counting) && fresh(Repr())
    {
      dataChannel, this.counting := dc, counting;
      buffer, itvLink, itvLinkBuffer, out := "", null, "", [];
    }

    predicate IsSelectedMode(m: Mode)
    {
      m.channel == dataChannel.code && m.field == dataChannel.field && m.textMode == dataChannel.textMode
    }

    method Notify(o: Out)
      modifies this`out
      ensures out == old(out) + [o] && State() == Emit(old(State()), o)
    {
      out := out + [o];
    }

    method ResetBuffer()
      modifies this
      ensures State() == Reset(old(State())) && itvLink == null
    {
      if |buffer| > 0 {
        Notify(LineOut(buffer));
      } else {
        assert out + [] == out;
      }
      buffer := "";
      itvLink := null;
      itvLinkBuffer := "";
    }

    method AddSpaceToBuffer()
      modifies this`buffer
      ensures State() == AddSpace(old(State()))
    {
      var buflen := |buffer|;
      if buflen > 1 && buffer[buflen - 1] != ' ' {
        buffer := buffer + " ";
      }
    }

    /** threw: setAttribute ended with an exception. */
    method ReadBracket() returns (threw: bool)
      requires itvLink != null && buffer != ""
      modifies Repr()
      ensures threw <==>
        IndexOf(old(itvLinkBuffer), ':') >= 0 && SetAttribute(old(itvLink.Value()), old(itvLinkBuffer)).None?
      ensures State() == CloseBracket(old(State()))
      ensures fresh(Repr() - old(Repr()))
    {
      hide Accepts, SetAttribute, IndexOf, LastIndexOf;
      threw := false;
      var value := itvLinkBuffer;
      if IndexOf(value, ':') >= 0 {
        var ok := itvLink.SetAttributeFrom(value);
        if ok {
          itvLinkBuffer := "";
        } else {
          Notify(Thrown);
          threw := true;
        }
      } else {
        var lastAttribute := LastIndexOf(buffer, ']', |buffer| - 2);
        var ok := itvLink.Checksum(buffer[..lastAttribute + 1], value);
        if ok {
          Notify(LinkOut(Link(itvLink.url, itvLink.name, itvLink.expires, itvLink.script, itvLink.kind, itvLink.view)));
        } else {
          Notify(ChecksumError);
        }
        buffer := "";
        ResetBuffer();
      }
    }

    method PrintCharacter(m: Mode, c: Byte) returns (threw: bool)
      modifies Repr()
      ensures State() == if Selected(dataChannel, m) then Print(old(State()), c) else old(State())
      ensures threw <==> Selected(dataChannel, m) && Throws(old(State()), c)
      ensures fresh(Repr() - old(Repr()))
    {
      threw := false;
      if !IsSelectedMode(m) {
        return;
      }
      if itvLink != null {
        buffer := buffer + [VbiToAscii(c)];
      } else {
        buffer := buffer + [VbiToUnicode(c)];
      }
      if dataChannel == TEXT2 && |buffer| == 1 && c == '<' as int {
        if itvLink != null {
          var l := itvLink;
          Notify(InvalidLink(Link(l.url, l.name, l.expires, l.script, l.kind, l.view)));
        }
        itvLink := new ItvLink();
        itvLinkBuffer := "";
        return;
      }
      if itvLink != null {
        if itvLink.url == None {
          if c == '>' as int {
            itvLink.SetURL(itvLinkBuffer);
            itvLinkBuffer := "";
            return;
          }
        } else {
          if c == '[' as int {
            return;
          }
          if c == ']' as int {
            threw := ReadBracket();
            return;
          }
        }
        itvLinkBuffer := itvLinkBuffer + [VbiToAscii(c)];
      }
    }

    method EraseLast(m: Mode)
      modifies this`buffer
      ensures State() == Handle(old(State()), m, Backspace)
    {
      if IsSelectedMode(m) && |buffer| > 0 {
        buffer := buffer[..|buffer| - 1];
      }
    }

    method RestartText(m: Mode)
      modifies this
      ensures State() == Handle(old(State()), m, TextRestart)
      ensures fresh(Repr() - old(Repr()))
    {
      if IsSelectedMode(m) {
        if itvLink != null {
          buffer := "";
        }
        ResetBuffer();
      }
    }

    /** parityError; a SentenceBuffer overrides it and counts the error whatever the mode. */
    method ReportParity(m: Mode, c1: Byte, c2: Byte)
      modifies this`out
      ensures State() == Handle(old(State()), m, ParityError(c1, c2))
    {
      if counting || IsSelectedMode(m) {
        Notify(Parity(c1, c2));
      }
    }

    /** printUnicode */
    method PrintUnicodeCharacter(m: Mode, ch: char)
      modifies this`buffer
      ensures State() == Handle(old(State()), m, PrintUnicode(ch))
    {
      if IsSelectedMode(m) {
        buffer := buffer + [ch];
      }
    }

    /** carriageReturn, resumeCaption, eraseDisplayed, endOfCaption and pac */
    method FinishLine(m: Mode)
      modifies this
      ensures State() == if Selected(dataChannel, m) then Reset(old(State())) else old(State())
      ensures fresh(Repr() - old(Repr()))
    {
      if IsSelectedMode(m) {
        ResetBuffer();
      }
    }

    /** midRow and tab */
    method Separate(m: Mode)
      modifies this`buffer
      ensures State() == if Selected(dataChannel, m) then AddSpace(old(State())) else old(State())
    {
      if IsSelectedMode(m) {
        AddSpaceToBuffer();
      }
    }

    /** One call from the line other than printChar, as VBICommandAdapter and LineBuffer implement it. */
    method Receive(m: Mode, c: Call)
      requires !c.PrintChars?
      modifies Repr()
      ensures State() == Handle(old(State()), m, c)
      ensures fresh(Repr() - old(Repr()))
    {
      hide Handle, State, PrintBoth, Reset, AddSpace, Selected, Ends, Separates, Emit;
      HandledAs(State(), m, c);
      match c {
        case Unknown => Notify(UnknownCommand);
        case ParityError(c1, c2) => ReportParity(m, c1, c2);
        case PrintUnicode(ch) => PrintUnicodeCharacter(m, ch);
        case Backspace => EraseLast(m);
        case TextRestart => RestartText(m);
        case CarriageReturn | ResumeCaption | EraseDisplayed | EndOfCaption | Pac(_, _, _) => FinishLine(m);
        case MidRow(_, _) | Tab(_) => Separate(m);
        case _ =>
      }
    }
  }
}
