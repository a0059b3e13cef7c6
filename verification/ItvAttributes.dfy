/** What a received link means: its attributes in any spelling, order and number, byte by byte. */
module ItvAttributes {
  import opened Text
  import opened Vbi
  import opened Itv
  import opened Decoding
  import opened DecoderRuns
  import opened Lines
  import opened ItvTheorems

  /** As received: "[key:value]". */
  datatype Attribute = Attribute(key: string, value: string)

  /** Only the first letter of a key counts, in either case. */
  predicate Begins(a: Attribute, letters: string) { a.key != "" && a.key[0] in letters }

  /** A key without a colon, no brackets, and no empty type. */
  predicate Sendable(a: Attribute) {
    && Printable(a.key) && Without(a.key, '[') && Without(a.key, ']') && Without(a.key, ':')
    && Printable(a.value) && Without(a.value, '[') && Without(a.value, ']')
    && (Begins(a, "tT") ==> a.value != "")
  }

  function Printed(attributes: seq<Attribute>): string {
    if attributes == [] then ""
    else
      var a := attributes[|attributes| - 1];
      Printed(attributes[..|attributes| - 1]) + ("[" + a.key + ":" + a.value + "]")
  }

  // ---------- what the attributes say ----------

  /** The value sent last under a key with one of these initials. */
  function LastValue(attributes: seq<Attribute>, initials: string): Option<string> {
    if attributes == [] then None
    else
      var a := attributes[|attributes| - 1];
      if Begins(a, initials) then Some(a.value) else LastValue(attributes[..|attributes| - 1], initials)
  }

  /** A type is a word or one of five letters; any other single letter is none. */
  function Kind(value: string): Option<string> {
    if |value| > 1 then Some(value)
    else if value in {"p", "P"} then Some("Program")
    else if value in {"n", "N"} then Some("Network")
    else if value in {"s", "S"} then Some("Station")
    else if value in {"o", "O"} then Some("Operator")
    else if value in {"a", "A"} then Some("Sponsor")
    else None
  }

  /** The last type that is one. */
  function LastKind(attributes: seq<Attribute>): Option<string> {
    if attributes == [] then None
    else
      var a := attributes[|attributes| - 1];
      if Begins(a, "tT") && Kind(a.value).Some? then Kind(a.value)
      else LastKind(attributes[..|attributes| - 1])
  }

  function Meaning(url: string, attributes: seq<Attribute>): Link {
    Link(Some(url), LastValue(attributes, "nN"), LastValue(attributes, "eE"), LastValue(attributes, "sS"),
         LastKind(attributes), LastValue(attributes, "vV"))
  }

  // ---------- reading them ----------

  lemma {:induction false} ColonBehindKey(a: Attribute)
    requires Sendable(a)
    ensures var s := a.key + ":" + a.value;
      IndexOf(s, ':') == |a.key| && s[|a.key| + 1..] == a.value && s != ""
      && s[0] == (if a.key == "" then ':' else a.key[0])
  {
    hide IndexOf;
    var s := a.key + ":" + a.value;
    assert s[|a.key|] == ':';
    assert forall k :: 0 <= k < |a.key| ==> s[k] == a.key[k];
  }

  lemma {:induction false} KindIsSet(l: Link, value: string)
    requires value != ""
    ensures SetKind(l, value) == if Kind(value).Some? then l.(kind := Kind(value)) else l
  {
    if |value| == 1 { assert value == [value[0]]; }
  }

  /** One attribute sets one field, or none. */
  lemma {:induction false} AttributeMeans(l: Link, a: Attribute)
    requires Sendable(a)
    ensures SetAttribute(l, a.key + ":" + a.value) == Some(
      if Begins(a, "nN") then l.(name := Some(a.value))
      else if Begins(a, "eE") then l.(expires := Some(a.value))
      else if Begins(a, "sS") then l.(script := Some(a.value))
      else if Begins(a, "vV") then l.(view := Some(a.value))
      else if Begins(a, "tT") && Kind(a.value).Some? then l.(kind := Kind(a.value))
      else l)
  {
    hide IndexOf, SetKind, Kind, Printable, Without;
    ColonBehindKey(a);
    if a.value != "" { KindIsSet(l, a.value); }
  }

  lemma {:induction false} MeaningStep(url: string, attributes: seq<Attribute>)
    requires attributes != [] && Sendable(attributes[|attributes| - 1])
    ensures var a := attributes[|attributes| - 1];
      SetAttribute(Meaning(url, attributes[..|attributes| - 1]), a.key + ":" + a.value) ==
        Some(Meaning(url, attributes))
  {
    hide SetAttribute, Kind;
    AttributeMeans(Meaning(url, attributes[..|attributes| - 1]), attributes[|attributes| - 1]);
  }

  lemma {:induction false} AttributesRead(text: string, url: string, e: Buffer, attributes: seq<Attribute>)
    requires text != "" && forall i :: 0 <= i < |attributes| ==> Sendable(attributes[i])
    ensures Printable(Printed(attributes))
    ensures PrintAll(At(text, EMPTY_LINK.(url := Some(url)), e), Printed(attributes)) ==
      At(text + Printed(attributes), Meaning(url, attributes), e)
  {
    hide Print, PrintAll, Printable, Without, SetAttribute, LastKind, LastValue;
    var b := At(text, EMPTY_LINK.(url := Some(url)), e);
    if attributes == [] {
      EmptyIsPrintable();
      NothingMeant(url);
      assert text + "" == text;
      assert PrintAll(b, "") == b by { NothingPrinted(b); }
    } else {
      var init, a := attributes[..|attributes| - 1], attributes[|attributes| - 1];
      AttributesRead(text, url, e, init);
      MeaningStep(url, attributes);
      ReadAttribute(text + Printed(init), Meaning(url, init), e, a.key, a.value);
      var last := "[" + a.key + ":" + a.value + "]";
      PrintAllConcat(b, Printed(init), last);
      assert text + Printed(init) + last == text + (Printed(init) + last);
    }
  }

  lemma {:induction false} NothingPrinted(b: Buffer)
    requires Printable("")
    ensures PrintAll(b, "") == b
  {}

  lemma {:induction false} NothingMeant(url: string)
    ensures Meaning(url, []) == EMPTY_LINK.(url := Some(url)) && Printed([]) == ""
  {}

  lemma {:induction false} PrintedEnds(attributes: seq<Attribute>)
    requires attributes != []
    ensures Printed(attributes) != "" && Printed(attributes)[|Printed(attributes)| - 1] == ']'
  {}

  // ---------- the checksum ----------

  /** Four hexadecimal digits of n, each in either case. */
  predicate IsHex(v: string, n: nat)
    requires n < 65536
  {
    |v| == 4 && forall i :: 0 <= i < 4 ==> v[i] == Hex4(n)[i] || v[i] == LowerChar(Hex4(n)[i])
  }

  lemma {:induction false} EitherCase(d: nat, c: char)
    requires d < 16 && (c == Digit(d) || c == LowerChar(Digit(d)))
    ensures HexDigit(c) == d && c != '-' && c != ':' && c != '[' && c != ']' && 0x20 <= c as int <= 0x7F
  {}

  lemma {:induction false} DigitsOneByOne(v: string, value: nat)
    requires v != "" && HexDigit(v[0]) >= 0
    ensures ParseDigits(v, value) == ParseDigits(v[1..], 16 * value + HexDigit(v[0]))
  {}

  lemma {:induction false} HexIsRead(v: string, n: nat)
    requires n < 65536 && IsHex(v, n)
    ensures ParseHex(v) == Some(n)
    ensures Printable(v) && Without(v, ':') && Without(v, '[') && Without(v, ']')
  {
    hide HexDigit, Digit, ParseDigits, LowerChar;
    EitherCase(n / 4096, v[0]);
    EitherCase(n / 256 % 16, v[1]);
    EitherCase(n / 16 % 16, v[2]);
    EitherCase(n % 16, v[3]);
    DigitsOneByOne(v, 0);
    DigitsOneByOne(v[1..], n / 4096);
    DigitsOneByOne(v[2..], 16 * (n / 4096) + n / 256 % 16);
    DigitsOneByOne(v[3..], 16 * (16 * (n / 4096) + n / 256 % 16) + n / 16 % 16);
    assert v[1..][1..] == v[2..] && v[2..][1..] == v[3..] && v[3..][1..] == "";
    DigitsEnd(n);
    Base16(n);
  }

  lemma {:induction false} DigitsEnd(n: nat)
    ensures ParseDigits("", n) == Some(n)
  {}

  // ---------- a link on the air ----------

  /** A printable address, then at least one attribute. */
  ghost predicate Transmitted(url: string, attributes: seq<Attribute>) {
    && Printable(url) && Without(url, '>') && attributes != []
    && (forall i :: 0 <= i < |attributes| ==> Sendable(attributes[i]))
    && |"<" + url + ">" + Printed(attributes)| <= LONGEST
  }

  lemma {:induction false} LinkRead(e: Buffer, url: string, attributes: seq<Attribute>)
    requires Transmitted(url, attributes)
    ensures var t := "<" + url + ">" + Printed(attributes);
      && t[|t| - 1] == ']' && Printable(t) && SevenBit(t)
      && PrintAll(Empty(e), t) == At(t, Meaning(url, attributes), e)
  {
    hide Print, PrintAll, Printable, Without, Printed, Sendable, Meaning;
    var head, t := "<" + url + ">", "<" + url + ">" + Printed(attributes);
    ReadUrl(e, url);
    AttributesRead(head, url, e, attributes);
    PrintAllConcat(Empty(e), head, Printed(attributes));
    PrintedEnds(attributes);
    PrintableIsSevenBit(t);
  }

  /**
   * Text restart, a link with any attributes and its checksum: whatever went before, the listener is
   * given the link that the attributes mean if one fold of the sum is enough, and a checksum error if
   * it is not.
   */
  lemma {:induction false} LinkIsUnderstood(d: Decoder, b: Buffer, url: string, attributes: seq<Attribute>, v: string)
    requires b.channel == TEXT2 && Transmitted(url, attributes)
    requires IsHex(v, Rfc1071("<" + url + ">" + Printed(attributes)))
    ensures var t := "<" + url + ">" + Printed(attributes);
      && Printable(t + ("[" + v + "]"))
      && Listen(b, Run(d, [RESTART] + Send(t + ("[" + v + "]"))).1) ==
           Empty(b).(out := Flushed(b) + [if FoldsOnce(t) then LinkOut(Meaning(url, attributes)) else ChecksumError])
  {
    hide *;
    var t, end, l := "<" + url + ">" + Printed(attributes), "[" + v + "]", Meaning(url, attributes);
    var restarted := Restarted(b);
    LinkRead(restarted, url, attributes);
    ChecksumFits(t);
    HexIsRead(v, Rfc1071(t));
    assert |t| <= LONGEST by { TransmittedLength(url, attributes); }
    AcceptsRfcIffFoldsOnce(t, v);
    Linked(url, attributes);
    var o := if Accepts(t, v) then LinkOut(l) else ChecksumError;
    ReadChecksum(restarted, l, t, v);
    PrintAllConcat(restarted, t, end);
    RestartedFacts(b);
    AcrossRestart(restarted, l, t, end, o);
    var (d1, h) := Hear(d, RESTART);
    Restart(d, b);
    RunCons(d, RESTART, Send(t + end));
    ListenConcat(b, h, Run(d1, Send(t + end)).1);
    SendIsPrinted(d1, restarted, t + end);
  }

  lemma {:induction false} ChecksumFits(s: string)
    ensures Rfc1071(s) < 65536
  {}

  function Restarted(b: Buffer): Buffer { Empty(b).(out := Flushed(b)) }

  lemma {:induction false} RestartedFacts(b: Buffer)
    ensures Restarted(b).channel == TEXT2 && Empty(Restarted(b)) == Restarted(b)
    ensures forall o :: Restarted(b).(out := Restarted(b).out + [o]) == Empty(b).(out := Flushed(b) + [o])
    ensures Restarted(b) == Empty(b).(out := Flushed(b))
  {}

  lemma {:induction false} TransmittedLength(url: string, attributes: seq<Attribute>)
    requires Transmitted(url, attributes)
    ensures |"<" + url + ">" + Printed(attributes)| <= LONGEST
  {}

  lemma {:induction false} Linked(url: string, attributes: seq<Attribute>)
    ensures Meaning(url, attributes).url.Some?
  {}

  lemma {:induction false} AcrossRestart(e: Buffer, l: Link, t: string, end: string, o: Out)
    requires Printable(t + end) && !o.Thrown?
    requires PrintAll(e, t + end) == e.(out := e.out + [o])
    ensures Faults(PrintAll(e, t + end).out) == Faults(e.out)
  {
    hide PrintAll;
  }

  // ---------- links that are not completed ----------

  /** Backspace on channel 2. */
  const BACKSPACE := Pair(21, 0x1C, 0x21)

  function Backspaces(n: nat): seq<Pair> { if n == 0 then [] else [BACKSPACE] + Backspaces(n - 1) }

  lemma {:induction false} HearBackspace(d: Decoder, b: Buffer)
    requires OnText2(d) && b.channel == TEXT2 && b.text != ""
    ensures OnText2(Hear(d, BACKSPACE).0)
    ensures Listen(b, Hear(d, BACKSPACE).1) == b.(text := b.text[..|b.text| - 1])
  {
    var m := Mode(1, 2, true);
    assert ControlCall(0x1C, 0x21) == Backspace;
    hide ControlCall;
    TagOne(m, Backspace);
    assert Hear(d, BACKSPACE).1 == [Heard(m, Backspace)];
    ListenOne(b, Heard(m, Backspace));
  }

  lemma {:induction false} Erased(d: Decoder, b: Buffer, n: nat)
    requires OnText2(d) && b.channel == TEXT2 && n <= |b.text|
    ensures OnText2(Run(d, Backspaces(n)).0)
    ensures Listen(b, Run(d, Backspaces(n)).1) == b.(text := b.text[..|b.text| - n])
    decreases n
  {
    hide Hear, Run, Listen;
    if n == 0 {
      RunNone(d, b);
      assert b.text[..|b.text|] == b.text;
    } else {
      HearBackspace(d, b);
      var (d1, h) := Hear(d, BACKSPACE);
      var b1 := b.(text := b.text[..|b.text| - 1]);
      Erased(d1, b1, n - 1);
      RunCons(d, BACKSPACE, Backspaces(n - 1));
      ListenConcat(b, h, Run(d1, Backspaces(n - 1)).1);
      assert b.text[..|b.text| - 1][..|b.text| - n] == b.text[..|b.text| - n];
    }
  }

  lemma {:induction false} RunNone(d: Decoder, b: Buffer)
    ensures Run(d, Backspaces(0)) == (d, []) && Listen(b, []) == b
  {}

  /** A link erased by backspaces is reported as invalid when the next one begins. */
  lemma {:induction false} ErasedLinkIsInvalid(d: Decoder, text: string, l: Link, e: Buffer)
    requires OnText2(d)
    ensures Printable("<")
    ensures Listen(At(text, l, e), Run(d, Backspaces(|text|) + Send("<")).1) ==
      At("<", EMPTY_LINK, e).(out := e.out + [InvalidLink(l)])
  {
    hide Hear, Run, Listen, Send;
    var b := At(text, l, e);
    Erased(d, b, |text|);
    assert text[..0] == "";
    var d1 := Run(d, Backspaces(|text|)).0;
    OneIsPrintable('<');
    OneSent();
    HearText(d1, b.(text := ""), '<' as int, 0);
    RunOne(d1, Pair(21, '<' as int, 0));
    RunConcat(d, Backspaces(|text|), Send("<"));
    ListenConcat(b, Run(d, Backspaces(|text|)).1, Run(d1, Send("<")).1);
    BeginsAgain(b.(text := ""), l);
  }

  lemma {:induction false} OneSent()
    requires Printable("<")
    ensures Send("<") == [Pair(21, '<' as int, 0)]
  {}

  lemma {:induction false} BeginsAgain(b: Buffer, l: Link)
    requires b.channel == TEXT2 && b.text == "" && b.link == Some(l)
    ensures PrintBoth(b, '<' as int, 0) ==
      b.(text := "<", link := Some(EMPTY_LINK), linkText := "", out := b.out + [InvalidLink(l)])
  {
    hide CloseBracket, Throws;
    AsciiIsItself('<');
    assert b.text + ['<'] == "<";
  }

  /** A type without a value is an exception, and leaves the link as it was. */
  lemma {:induction false} EmptyTypeThrows(text: string, l: Link, e: Buffer, key: string)
    requires text != "" && l.url.Some? && key in {"t", "T", "type", "Type", "TYPE"}
    ensures Printable("[" + (key + ":") + "]")
    ensures PrintAll(At(text, l, e), "[" + (key + ":") + "]") ==
      At(text + "[" + (key + ":") + "]", l, e).(linkText := key + ":", out := e.out + [Thrown])
  {
    hide Print, PrintAll, SetAttribute, CloseBracket;
    var word := key + ":";
    ReadWord(text, l, e, word);
    OneIsPrintable(']');
    var b := At(text, l, e);
    PrintAllConcat(b, "[" + word, "]");
    var read := b.(text := text + "[" + word, linkText := word);
    PrintClose(read);
    ThrownAt(read.(text := read.text + "]"), key);
  }

  /** The exception leaves the command before the second character of the pair. */
  lemma {:induction false} SecondCharacterIsLost(d: Decoder, text: string, l: Link, e: Buffer, key: string, c2: Byte)
    requires OnText2(d) && text != "" && l.url.Some? && key in {"t", "T", "type", "Type", "TYPE"} && c2 >= 0
    ensures var b := At(text, l, e).(linkText := key + ":");
      Listen(b, Hear(d, Pair(21, ']' as int, c2)).1) == b.(text := text + "]", out := e.out + [Thrown])
  {
    hide Hear, Listen, SetAttribute, CloseBracket, IndexOf;
    var b := At(text, l, e).(linkText := key + ":");
    HearText(d, b, ']' as int, c2);
    NoValue(l, key);
    ThrownAt(b.(text := text + "]"), key);
  }

  lemma {:induction false} NoValue(l: Link, key: string)
    requires key in {"t", "T", "type", "Type", "TYPE"}
    ensures SetAttribute(l, key + ":").None? && IndexOf(key + ":", ':') >= 0
  {
    hide IndexOf, SetKind;
    var s := key + ":";
    assert s[|key|] == ':' && s[|key| + 1..] == "";
    assert forall k :: 0 <= k < |key| ==> s[k] == key[k];
  }

  lemma {:induction false} ThrownAt(b: Buffer, key: string)
    requires b.link.Some? && b.text != "" && b.linkText == key + ":" && key in {"t", "T", "type", "Type", "TYPE"}
    ensures CloseBracket(b) == b.(out := b.out + [Thrown])
  {
    hide IndexOf, Accepts, Covered, SetKind;
    var a := Attribute(key, "");
    assert Without(key, ':') && b.linkText[|key|] == ':';
    assert b.linkText[|key| + 1..] == "";
    assert forall k :: 0 <= k < |key| ==> b.linkText[k] == key[k];
  }
}
