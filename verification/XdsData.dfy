/** XDSData.java: reassembly of extended-data packets that captions may interrupt. */
module XdsPackets {
  import opened Vbi

  /** fields holds the packet fields received so far; an absent key is a null field. */
  datatype Xds = Xds(control: int, kind: int, active: bool, buffer: string, fields: map<XdsField, string>)

  const EMPTY_XDS := Xds(0, 0, false, "", map[])

  datatype EndResult = Change(field: XdsField) | InvalidCode

  function ResetPacket(x: Xds): Xds { x.(control := 0, active := false, buffer := "") }

  function SetCode(x: Xds, c1: Byte, c2: Byte): Xds
    requires 0 <= c1
  {
    if c1 % 2 == 1 then x.(control := c1, kind := c2, active := true, buffer := "")
    else if x.control > 0 then
      if c1 - 1 == x.control && c2 == x.kind then x.(active := true) else ResetPacket(x)
    else x
  }

  function Interrupt(x: Xds): Xds { x.(active := false) }

  function AddCharacters(x: Xds, c1: Byte, c2: Byte): Xds
    requires 0 <= c1
  {
    x.(buffer := x.buffer + [c1 as char] + if c2 > 0 then [c2 as char] else "")
  }

  function Sum(s: string): nat {
    if s == "" then 0 else Sum(s[..|s| - 1]) + s[|s| - 1] as int
  }

  /** Where current() and channel() put a packet of this class and type. */
  function Target(control: int, kind: int): XdsField {
    if control == 0x01 then
      if kind == 0x01 then ProgramStartTimeId
      else if kind == 0x02 then ProgramLength
      else if kind == 0x03 then ProgramName
      else if kind == 0x04 then ProgramType
      else if kind == 0x07 then CaptionServices
      else NoField
    else if control == 0x05 then
      if kind == 0x01 then NetworkName
      else if kind == 0x02 then CallLetters
      else NoField
    else NoField
  }

  /** ProgramType and CaptionServices are kept as sent; the other fields are mapped to Unicode. */
  predicate IsMapped(f: XdsField) { f != ProgramType && f != CaptionServices }

  function CharToUnicode(c: char): char {
    if c as int <= 255 then VbiToUnicode(c as int)
    else if c as int % 128 < 0x20 then '\0' else Modified((c as int % 128) as char)
  }

  function ToUnicode(s: string): (r: string)
    ensures |r| == |s| && forall k :: 0 <= k < |s| ==> r[k] == CharToUnicode(s[k])
  {
    seq(|s|, i requires 0 <= i < |s| => CharToUnicode(s[i]))
  }

  predicate IsClass(control: int) { control in {0x01, 0x03, 0x05, 0x07, 0x09, 0x0B, 0x0D} }

  predicate ChecksumHolds(x: Xds, checksum: int) {
    (Sum(x.buffer) + x.control + x.kind + 0x0F + checksum) % 128 == 0
  }

  function EndPacket(x: Xds, checksum: int): (Xds, EndResult) {
    if x.control == 0 || !ChecksumHolds(x, checksum) then (x, Change(NoField))
    else if !IsClass(x.control) then (x, InvalidCode)
    else
      var f := Target(x.control, x.kind);
      if f == NoField then (x, Change(NoField))
      else
        var text := if IsMapped(f) then ToUnicode(x.buffer) else x.buffer;
        (x.(buffer := text, fields := x.fields[f := text]), Change(f))
  }

  class XdsData {
    var control: int
    var kind: int
    var activePacket: bool
    var vbiBuffer: string
    var fields: map<XdsField, string>

    ghost function State(): Xds
      reads this
    {
      Xds(control, kind, activePacket, vbiBuffer, fields)
    }

    constructor ()
      ensures State() == EMPTY_XDS
    {
      control, kind, activePacket, vbiBuffer, fields := 0, 0, false, "", map[];
    }

    method ResetPacketState()
      modifies this
      ensures State() == ResetPacket(old(State()))
    {
      control := 0;
      activePacket := false;
      vbiBuffer := "";
    }

    /** inPacket: a packet is open afterwards. */
    method SetCodes(c1: Byte, c2: Byte) returns (inPacket: bool)
      requires 0 <= c1
      modifies this
      ensures State() == SetCode(old(State()), c1, c2)
      ensures inPacket == activePacket
    {
      if c1 % 2 == 1 {
        ResetPacketState();
        activePacket := true;
        control := c1;
        kind := c2;
      } else if control > 0 {
        if c1 - 1 == control && c2 == kind {
          activePacket := true;
        } else {
          ResetPacketState();
        }
      }
      inPacket := activePacket;
    }

    method InterruptPacket()
      modifies this
      ensures State() == Interrupt(old(State()))
    {
      activePacket := false;
    }

    method Add(c1: Byte, c2: Byte)
      requires 0 <= c1
      modifies this
      ensures State() == AddCharacters(old(State()), c1, c2)
    {
      vbiBuffer := vbiBuffer + [c1 as char];
      if c2 > 0 {
        vbiBuffer := vbiBuffer + [c2 as char];
      } else {
        assert vbiBuffer + "" == vbiBuffer;
      }
    }

    method VbiToUnicodeString() returns (s: string)
      modifies this`vbiBuffer
      ensures s == vbiBuffer == ToUnicode(old(vbiBuffer))
    {
      var i := 0;
      while i < |vbiBuffer|
        invariant 0 <= i <= |vbiBuffer| == |old(vbiBuffer)|
        invariant forall k :: 0 <= k < i ==> vbiBuffer[k] == CharToUnicode(old(vbiBuffer)[k])
        invariant forall k :: i <= k < |vbiBuffer| ==> vbiBuffer[k] == old(vbiBuffer)[k]
      {
        vbiBuffer := vbiBuffer[i := CharToUnicode(vbiBuffer[i])];
        i := i + 1;
      }
      s := vbiBuffer;
      assert s == ToUnicode(old(vbiBuffer));
    }

    method StoreField(f: XdsField)
      requires f != NoField
      modifies this
      ensures State() == (var x := old(State());
                          var text := if IsMapped(f) then ToUnicode(x.buffer) else x.buffer;
                          x.(buffer := text, fields := x.fields[f := text]))
    {
      if IsMapped(f) {
        var s := VbiToUnicodeString();
        fields := fields[f := s];
      } else {
        fields := fields[f := vbiBuffer];
      }
    }

    method End(checksum: int) returns (r: EndResult)
      modifies this
      ensures (State(), r) == EndPacket(old(State()), checksum)
    {
      if control == 0 {
        return Change(NoField);
      }
      var total := 0;
      var i := 0;
      while i < |vbiBuffer|
        invariant 0 <= i <= |vbiBuffer| && total == Sum(vbiBuffer[..i])
      {
        assert vbiBuffer[..i + 1][..i] == vbiBuffer[..i];
        total := total + vbiBuffer[i] as int;
        i := i + 1;
      }
      assert vbiBuffer[..i] == vbiBuffer;
      total := total + (control + kind + 0x0F + checksum);
      if total % 128 != 0 {
        return Change(NoField);
      }
      match control {
        case 0x01 => r := Current();
        case 0x05 => r := ChannelInfo();
        case 0x03 | 0x07 | 0x09 | 0x0B | 0x0D => r := Change(NoField);
        case _ => r := InvalidCode;
      }
    }

    method Current() returns (r: EndResult)
      requires control == 0x01
      modifies this
      ensures r == Change(Target(0x01, old(kind)))
      ensures r.field == NoField ==> State() == old(State())
      ensures r.field != NoField ==>
        State() == (var x := old(State());
                    var text := if IsMapped(r.field) then ToUnicode(x.buffer) else x.buffer;
                    x.(buffer := text, fields := x.fields[r.field := text]))
    {
      match kind {
        case 0x01 => StoreField(ProgramStartTimeId); r := Change(ProgramStartTimeId);
        case 0x02 => StoreField(ProgramLength); r := Change(ProgramLength);
        case 0x03 => StoreField(ProgramName); r := Change(ProgramName);
        case 0x04 => StoreField(ProgramType); r := Change(ProgramType);
        case 0x07 => StoreField(CaptionServices); r := Change(CaptionServices);
        case _ => r := Change(NoField);
      }
    }

    method ChannelInfo() returns (r: EndResult)
      requires control == 0x05
      modifies this
      ensures r == Change(Target(0x05, old(kind)))
      ensures r.field == NoField ==> State() == old(State())
      ensures r.field != NoField ==>
        State() == (var x := old(State());
                    var text := if IsMapped(r.field) then ToUnicode(x.buffer) else x.buffer;
                    x.(buffer := text, fields := x.fields[r.field := text]))
    {
      match kind {
        case 0x01 => StoreField(NetworkName); r := Change(NetworkName);
        case 0x02 => StoreField(CallLetters); r := Change(CallLetters);
        case _ => r := Change(NoField);
      }
    }
  }
}
