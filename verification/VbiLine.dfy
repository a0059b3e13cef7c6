/** VBILine.java: the byte-pair decoder. Decoder is its state as a value, class VbiLine the object. */
module Decoding {
  import Itv
  import opened Vbi
  import opened XdsPackets
  import Lines

  datatype Decoder = Decoder(channel1: int, channel2: int, textMode: bool, xds: Xds, processed: bool)

  const INITIAL := Decoder(1, 1, false, EMPTY_XDS, false)

  function ModeOf(d: Decoder, line: LineNumber): Mode {
    Mode(Field(line), if line == 21 then d.channel1 else d.channel2, d.textMode)
  }

  /** Row numbers of preamble address codes. */
  const ROW: seq<int> := [10, -1, 0, 1, 2, 3, 11, 12, 13, 14, 4, 5, 6, 7, 8, 9]

  function ChannelBit(c1: Byte): int { c1 / 8 % 2 + 1 }

  /** The switch over control codes. */
  function ControlCall(c1: Byte, c2: Byte): (call: Call)
    requires 0 <= c1 < 0x20 && 0 <= c2
    ensures !call.PrintChars?
  {
    var a7, b7, low, underline := c1 % 8, c2 / 2 % 8, c2 % 16, c2 % 2 != 0;
    var bit4 := c2 / 16 % 2 != 0;
    if c2 >= 0x40 then Pac(ROW[a7 * 2 + c2 / 32 % 2], if bit4 then b7 * 4 else b7, underline)
    else if a7 == 0 then if bit4 then Unknown else BackgroundColor(b7, underline)
    else if a7 == 1 then if bit4 then PrintUnicode(EXTENDED[low]) else MidRow(b7, underline)
    else if a7 == 4 || a7 == 5 then
      if bit4 then Unknown
      else match low
        case 0 => ResumeCaption
        case 1 => Backspace
        case 2 => AlarmOff
        case 3 => AlarmOn
        case 4 => DeleteToEndOfRow
        case 5 | 6 | 7 => RollUpCaption(c2 % 8 - 3)
        case 8 => FlashOn
        case 9 => ResumeDirect
        case 10 => TextRestart
        case 11 => ResumeText
        case 12 => EraseDisplayed
        case 13 => CarriageReturn
        case 14 => EraseNonDisplayed
        case _ => EndOfCaption
    else if a7 == 7 then
      if 0x21 <= c2 <= 0x23 then Tab(c2 % 4)
      else if c2 == 0x2D then TransparentBackground
      else if c2 == 0x2E || c2 == 0x2F then BlackBackground(underline)
      else Unknown
    else Unknown
  }

  predicate StartsCaptions(c: Call) { c.ResumeCaption? || c.RollUpCaption? || c.ResumeDirect? || c.EndOfCaption? }
  predicate StartsText(c: Call) { c.TextRestart? || c.ResumeText? }

  function TextModeAfter(c: Call, before: bool): bool {
    if StartsCaptions(c) then false else if StartsText(c) then true else before
  }

  function SetChannel(d: Decoder, line: LineNumber, ch: int): Decoder {
    if line == 21 then d.(channel1 := ch) else d.(channel2 := ch)
  }

  /** One executeCommand: the new state and the calls made on the listener, all under the new mode. */
  function Execute(d: Decoder, p: Pair): (Decoder, seq<Call>) {
    var Pair(line, c1, c2) := p;
    if c1 == 0 then (d, [Nothing])
    else if c1 < 0 || c2 < 0 then (d, [ParityError(c1, c2)])
    else if line == 284 && c1 < 0x10 then
      if d.processed then (d, [])
      else if c1 == 0x0F then
        var (x, r) := EndPacket(d.xds, c2);
        if r.InvalidCode? then (d.(xds := x), [Crash])
        else (d.(xds := x, processed := true), if r.field == NoField then [] else [UpdatedXds(r.field)])
      else (d.(xds := SetCode(d.xds, c1, c2), processed := true), [])
    else if c1 >= 0x20 then
      if line == 284 && d.xds.active then
        if d.processed then (d, []) else (d.(xds := AddCharacters(d.xds, c1, c2), processed := true), [])
      else (d, [PrintChars(c1, c2)])
    else if d.xds.active && d.processed then (d, [])
    else
      var d1 := if d.xds.active then d.(xds := Interrupt(d.xds), processed := true) else d;
      var call := ControlCall(c1, c2);
      (SetChannel(d1, line, ChannelBit(c1)).(textMode := TextModeAfter(call, d.textMode)), [call])
  }

  /** setValues followed by executeCommand for one listener. */
  function Step(d: Decoder, p: Pair): (Decoder, seq<Call>) { Execute(d.(processed := false), p) }

  class VbiLine {
    var line: LineNumber
    var c1: Byte
    var c2: Byte
    const channel: array<int>
    var textMode: bool
    const xds: XdsData
    var processedXDS: bool

    ghost predicate Valid()
      reads this
    {
      channel.Length == 2
    }

    ghost function State(): Decoder
      requires Valid()
      reads this, channel, xds
    {
      Decoder(channel[0], channel[1], textMode, xds.State(), processedXDS)
    }

    ghost function Current(): Pair
      reads this
    {
      Pair(line, c1, c2)
    }

    constructor ()
      ensures Valid() && State() == INITIAL && fresh(channel) && fresh(xds)
    {
      channel := new int[2][1, 1];
      xds := new XdsData();
      line, c1, c2, textMode, processedXDS := 21, 0, 0, false, false;
    }

    method SetValues(n: LineNumber, b1: Byte, b2: Byte)
      requires Valid()
      modifies this
      ensures Valid() && Current() == Pair(n, b1, b2)
      ensures State() == old(State()).(processed := false)
    {
      line := n;
      c1 := b1;
      processedXDS := false;
      c2 := b2;
    }

    function GetMode(): Mode
      requires Valid()
      reads this, channel
    {
      Mode(Field(line), channel[Field(line) - 1], textMode)
    }

    method ExecuteCommand(listener: Lines.LineBuffer)
      requires Valid() && listener.Repr() !! {this, channel, xds}
      modifies this, channel, xds, listener.Repr()
      ensures Valid() && Current() == old(Current())
      ensures State() == Execute(old(State()), Current()).0
      ensures listener.State() ==
        Lines.HandleAll(old(listener.State()), ModeOf(State(), line), Execute(old(State()), Current()).1)
      ensures fresh(listener.Repr() - old(listener.Repr()))
    {
      if c1 == 0 {
        Call1(listener, Nothing);
      } else if c1 < 0 || c2 < 0 {
        Call1(listener, ParityError(c1, c2));
      } else if line == 284 && c1 < 0x10 {
        ExecuteXds(listener);
      } else if c1 >= 0x20 {
        ExecuteText(listener);
      } else {
        ExecuteControl(listener);
      }
    }

    method Call1(listener: Lines.LineBuffer, call: Call)
      requires !call.PrintChars?
      requires Valid() && listener.Repr() !! {this, channel, xds}
      modifies listener.Repr()
      ensures listener.State() == Lines.HandleAll(old(listener.State()), GetMode(), [call])
      ensures fresh(listener.Repr() - old(listener.Repr()))
    {
      OneCall(listener.State(), GetMode(), call);
      listener.Receive(GetMode(), call);
    }

    method ExecuteXds(listener: Lines.LineBuffer)
      requires Valid() && listener.Repr() !! {this, channel, xds}
      requires line == 284 && 0 < c1 < 0x10 && 0 <= c2
      modifies this, channel, xds, listener.Repr()
      ensures Valid() && Current() == old(Current())
      ensures State() == Execute(old(State()), Current()).0
      ensures listener.State() ==
        Lines.HandleAll(old(listener.State()), ModeOf(State(), line), Execute(old(State()), Current()).1)
      ensures fresh(listener.Repr() - old(listener.Repr()))
    {
      hide Lines.Handle, EndPacket, SetCode, Lines.HandleAll;
      NoCalls(listener.State(), GetMode());
      if processedXDS {
        return;
      }
      if c1 == 0x0F {
        var change := xds.End(c2);
        if change.InvalidCode? {
          Call1(listener, Crash);
          return;
        }
        if change.field != NoField {
          Call1(listener, UpdatedXds(change.field));
        }
      } else {
        var inPacket := xds.SetCodes(c1, c2);
      }
      processedXDS := true;
    }

    method ExecuteText(listener: Lines.LineBuffer)
      requires Valid() && listener.Repr() !! {this, channel, xds}
      requires c1 >= 0x20 && 0 <= c2
      modifies this, channel, xds, listener.Repr()
      ensures Valid() && Current() == old(Current())
      ensures State() == Execute(old(State()), Current()).0
      ensures listener.State() ==
        Lines.HandleAll(old(listener.State()), ModeOf(State(), line), Execute(old(State()), Current()).1)
      ensures fresh(listener.Repr() - old(listener.Repr()))
    {
      hide Lines.Handle, AddCharacters, Lines.HandleAll;
      NoCalls(listener.State(), GetMode());
      if line == 284 && xds.activePacket {
        if processedXDS {
          return;
        }
        xds.Add(c1, c2);
        processedXDS := true;
      } else {
        OneCall(listener.State(), GetMode(), PrintChars(c1, c2));
        BothPrinted(listener.State(), GetMode(), c1, c2);
        var threw := listener.PrintCharacter(GetMode(), c1);
        if !threw && c2 > 0 {
          threw := listener.PrintCharacter(GetMode(), c2);
        }
      }
    }

    method ExecuteControl(listener: Lines.LineBuffer)
      requires Valid() && listener.Repr() !! {this, channel, xds}
      requires 0 < c1 < 0x20 && 0 <= c2 && !(line == 284 && c1 < 0x10)
      modifies this, channel, xds, listener.Repr()
      ensures Valid() && Current() == old(Current())
      ensures State() == Execute(old(State()), Current()).0
      ensures listener.State() ==
        Lines.HandleAll(old(listener.State()), ModeOf(State(), line), Execute(old(State()), Current()).1)
      ensures fresh(listener.Repr() - old(listener.Repr()))
    {
      hide Lines.Handle, Lines.HandleAll, ControlCall, TextModeAfter;
      NoCalls(listener.State(), GetMode());
      if xds.activePacket {
        if processedXDS {
          return;
        }
        xds.InterruptPacket();
        processedXDS := true;
      }
      channel[Field(line) - 1] := c1 / 8 % 2 + 1;
      var call := ControlCall(c1, c2);
      textMode := TextModeAfter(call, textMode);
      Call1(listener, call);
    }
  }

  lemma {:induction false} NoCalls(b: Lines.Buffer, m: Mode)
    ensures Lines.HandleAll(b, m, []) == b
  {}

  lemma {:induction false} OneCall(b: Lines.Buffer, m: Mode, c: Call)
    ensures Lines.HandleAll(b, m, [c]) == Lines.Handle(b, m, c)
  {
    assert [c][..0] == [];
    assert Lines.HandleAll(b, m, []) == b;
  }

  lemma {:induction false} BothPrinted(b: Lines.Buffer, m: Mode, c1: Byte, c2: Byte)
    ensures Lines.Handle(b, m, PrintChars(c1, c2)) ==
      if !Lines.Selected(b.channel, m) then b
      else if c2 <= 0 || Lines.Throws(b, c1) then Lines.Print(b, c1)
      else Lines.Print(Lines.Print(b, c1), c2)
    ensures Lines.Print(b, c1).channel == b.channel
  {
    hide Itv.Accepts, Itv.SetAttribute, Lines.Covered, VbiToUnicode, VbiToAscii;
  }
}
