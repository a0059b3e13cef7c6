/** Interactive-TV links: what ITVLink prints, LineBuffer reads back. */
module ItvTheorems {
  import opened Text
  import opened Vbi
  import opened Itv
  import opened Decoding
  import opened DecoderRuns
  import opened Lines

  // ---------- sending text ----------

  predicate Printable(s: string) { forall i :: 0 <= i < |s| ==> 0x20 <= s[i] as int <= 0x7F }

  /** Two characters a pair, the last padded with a zero byte. */
  function Send(s: string): seq<Pair>
    requires Printable(s)
  {
    if s == "" then []
    else if |s| == 1 then [Pair(21, s[0] as int, 0)]
    else [Pair(21, s[0] as int, s[1] as int)] + Send(s[2..])
  }

  function PrintAll(b: Buffer, s: string): Buffer
    requires Printable(s)
    decreases |s|
  {
    if s == "" then b else PrintAll(Print(b, s[0] as int), s[1..])
  }

  lemma {:induction false} PrintAllConcat(b: Buffer, x: string, y: string)
    requires Printable(x) && Printable(y)
    ensures Printable(x + y) && PrintAll(b, x + y) == PrintAll(PrintAll(b, x), y)
    decreases |x|
  {
    hide Print;
    if x == "" {
      assert x + y == y;
    } else {
      assert (x + y)[0] == x[0] && (x + y)[1..] == x[1..] + y;
      PrintAllConcat(Print(b, x[0] as int), x[1..], y);
    }
  }

  predicate OnText2(d: Decoder) { d.channel1 == 2 && d.textMode }

  lemma {:induction false} PrintKeepsChannel(b: Buffer, c: Byte)
    ensures Print(b, c).channel == b.channel
  {
    hide Accepts, SetAttribute, Covered, IndexOf, VbiToUnicode, VbiToAscii;
  }

  /** How often printing ended in an exception. */
  function Faults(out: seq<Out>): nat {
    if out == [] then 0 else Faults(out[..|out| - 1]) + if out[|out| - 1].Thrown? then 1 else 0
  }

  lemma {:induction false} FaultsConcat(x: seq<Out>, y: seq<Out>)
    ensures Faults(x + y) == Faults(x) + Faults(y)
  {
    if y == [] {
      assert x + y == x;
    } else {
      assert (x + y)[..|x + y| - 1] == x + y[..|y| - 1];
      FaultsConcat(x, y[..|y| - 1]);
    }
  }

  lemma {:induction false} PrintOutputs(b: Buffer, c: Byte) returns (more: seq<Out>)
    ensures Print(b, c).out == b.out + more
    ensures Throws(b, c) ==> more == [Thrown]
  {
    hide Accepts, SetAttribute, Covered, IndexOf, VbiToUnicode, VbiToAscii;
    var r := Print(b, c);
    assert b.out <= r.out;
    more := r.out[|b.out|..];
  }

  lemma {:induction false} PrintFaults(b: Buffer, c: Byte)
    ensures Faults(Print(b, c).out) >= Faults(b.out)
    ensures Throws(b, c) ==> Faults(Print(b, c).out) > Faults(b.out)
  {
    hide Print, Throws;
    var more := PrintOutputs(b, c);
    FaultsConcat(b.out, more);
    if Throws(b, c) { assert more[..0] == []; }
  }

  lemma {:induction false} PrintAllFaults(b: Buffer, s: string)
    requires Printable(s)
    ensures Faults(PrintAll(b, s).out) >= Faults(b.out)
    decreases |s|
  {
    hide Print, Faults;
    if s != "" {
      PrintFaults(b, s[0] as int);
      PrintAllFaults(Print(b, s[0] as int), s[1..]);
    }
  }

  /** A decoder on TEXT2 passes every printable character to the TEXT2 listener, if none ends in an exception. */
  lemma {:induction false} SendIsPrinted(d: Decoder, b: Buffer, s: string)
    requires OnText2(d) && b.channel == TEXT2 && Printable(s)
    requires Faults(PrintAll(b, s).out) == Faults(b.out)
    ensures Listen(b, Run(d, Send(s)).1) == PrintAll(b, s)
    decreases |s|
  {
    hide Print, Hear, Throws, Faults;
    if |s| == 1 {
      assert s[1..] == "";
      HearText(d, b, s[0] as int, 0);
      RunOne(d, Send(s)[0]);
    } else if |s| > 1 {
      HearText(d, b, s[0] as int, s[1] as int);
      var (d1, h) := Hear(d, Send(s)[0]);
      RunCons(d, Send(s)[0], Send(s[2..]));
      ListenConcat(b, h, Run(d1, Send(s[2..])).1);
      var b1 := Print(b, s[0] as int);
      var b2 := Print(b1, s[1] as int);
      assert s[1..][0] == s[1] && s[1..][1..] == s[2..];
      PrintFaults(b, s[0] as int);
      PrintFaults(b1, s[1] as int);
      PrintAllFaults(b2, s[2..]);
      PrintKeepsChannel(b, s[0] as int);
      PrintKeepsChannel(b1, s[1] as int);
      SendIsPrinted(d1, b2, s[2..]);
    }
  }

  lemma {:induction false} HearText(d: Decoder, b: Buffer, c1: Byte, c2: Byte)
    requires OnText2(d) && b.channel == TEXT2 && c1 >= 0x20 && c2 >= 0
    ensures var (d1, h) := Hear(d, Pair(21, c1, c2));
      OnText2(d1) && Listen(b, h) == PrintBoth(b, c1, c2)
  {
    hide Print, Throws, PrintBoth;
    var h := Heard(Mode(1, 2, true), PrintChars(c1, c2));
    TagOne(h.mode, h.call);
    ListenOne(b, h);
  }

  // ---------- reading a link ----------

  /** A TEXT2 buffer with nothing in it, and one in which a link is being read and an attribute may begin. */
  function Empty(e: Buffer): Buffer { e.(channel := TEXT2, text := "", link := None, linkText := "") }

  function At(text: string, l: Link, e: Buffer): Buffer { Empty(e).(text := text, link := Some(l)) }

  predicate Without(s: string, c: char) { forall i :: 0 <= i < |s| ==> s[i] != c }

  lemma {:induction false} AsciiIsItself(c: char)
    requires 0x20 <= c as int <= 0x7F
    ensures VbiToAscii(c as int) == c
  {}

  lemma {:induction false} CollectOne(b: Buffer, c: char)
    requires b.link.Some? && b.text != "" && 0x20 <= c as int <= 0x7F
    requires if b.link.value.url.None? then c != '>' else c != '[' && c != ']'
    ensures Print(b, c as int) == b.(text := b.text + [c], linkText := b.linkText + [c])
  {
    hide VbiToAscii, VbiToUnicode, CloseBracket;
    AsciiIsItself(c);
  }

  /** Inside the link, characters that are not its delimiters are collected. */
  lemma {:induction false} CollectWord(b: Buffer, s: string)
    requires b.link.Some? && b.text != "" && Printable(s)
    requires b.link.value.url.None? ==> Without(s, '>')
    requires b.link.value.url.Some? ==> Without(s, '[') && Without(s, ']')
    ensures PrintAll(b, s) == b.(text := b.text + s, linkText := b.linkText + s)
    decreases |s|
  {
    if s == "" {
      assert b.text + s == b.text && b.linkText + s == b.linkText;
    } else {
      hide Print, Printable, Without;
      WithoutTail(s);
      var b1 := b.(text := b.text + [s[0]], linkText := b.linkText + [s[0]]);
      CollectOne(b, s[0]);
      CollectWord(b1, s[1..]);
      HeadTail(b.text, s);
      HeadTail(b.linkText, s);
    }
  }

  lemma {:induction false} WithoutTail(s: string)
    requires s != "" && Printable(s)
    ensures Printable(s[1..]) && 0x20 <= s[0] as int <= 0x7F
    ensures Without(s, '>') ==> s[0] != '>' && Without(s[1..], '>')
    ensures Without(s, '[') ==> s[0] != '[' && Without(s[1..], '[')
    ensures Without(s, ']') ==> s[0] != ']' && Without(s[1..], ']')
  {}

  lemma {:induction false} HeadTail(x: string, s: string)
    requires s != ""
    ensures x + [s[0]] + s[1..] == x + s
  {}

  lemma {:induction false} OpenLink(e: Buffer)
    ensures Print(Empty(e), '<' as int) == At("<", EMPTY_LINK, e)
  {
    AsciiIsItself('<');
    hide CloseBracket, VbiToAscii;
    assert VbiToUnicode('<' as int) == '<';
  }

  lemma {:induction false} CloseUrl(b: Buffer)
    requires b.link == Some(EMPTY_LINK) && b.text != ""
    ensures Print(b, '>' as int)
         == b.(text := b.text + ">", link := Some(EMPTY_LINK.(url := Some(b.linkText))), linkText := "")
  {
    AsciiIsItself('>');
    hide CloseBracket, VbiToAscii, VbiToUnicode;
  }

  /** "<url>" from an empty buffer. */
  lemma {:induction false} ReadUrl(e: Buffer, url: string)
    requires Printable(url) && Without(url, '>')
    ensures Printable("<" + url + ">")
    ensures PrintAll(Empty(e), "<" + url + ">")
         == At("<" + url + ">", EMPTY_LINK.(url := Some(url)), e)
  {
    hide Print, PrintAll, Printable, Without;
    var started := At("<", EMPTY_LINK, e);
    OneIsPrintable('<');
    OneIsPrintable('>');
    OpenLink(e);
    PrintOne(Empty(e), '<');
    PrintAllConcat(Empty(e), "<", url);
    CollectWord(started, url);
    assert "" + url == url;
    var read := started.(text := "<" + url, linkText := url);
    PrintAllConcat(Empty(e), "<" + url, ">");
    PrintOne(read, '>');
    CloseUrl(read);
  }

  lemma {:induction false} OneIsPrintable(c: char)
    requires 0x20 <= c as int <= 0x7F
    ensures Printable([c])
  {}

  lemma {:induction false} PrintOne(b: Buffer, c: char)
    requires 0x20 <= c as int <= 0x7F
    ensures PrintAll(b, [c]) == Print(b, c as int)
  {
    hide Print;
    assert [c][1..] == "";
  }

  /** "[" + word from a point where an attribute may begin. */
  lemma {:induction false} ReadWord(text: string, l: Link, e: Buffer, word: string)
    requires text != "" && l.url.Some? && Printable(word) && Without(word, '[') && Without(word, ']')
    ensures Printable("[" + word)
    ensures PrintAll(At(text, l, e), "[" + word) == At(text, l, e).(text := text + "[" + word, linkText := word)
  {
    hide Print, PrintAll;
    var b := At(text, l, e);
    PrintOne(b, '[');
    PrintBracket(b);
    PrintAllConcat(b, "[", word);
    CollectWord(b.(text := text + "["), word);
    assert "" + word == word;
  }

  lemma {:induction false} PrintBracket(b: Buffer)
    requires b.link.Some? && b.link.value.url.Some? && b.text != ""
    ensures Print(b, '[' as int) == b.(text := b.text + "[")
  {
    hide CloseBracket;
  }

  lemma {:induction false} PrintClose(b: Buffer)
    requires b.link.Some? && b.link.value.url.Some? && b.text != ""
    ensures PrintAll(b, "]") == CloseBracket(b.(text := b.text + "]"))
  {
    hide CloseBracket;
    PrintOne(b, ']');
  }

  /** One printed attribute. */
  lemma {:induction false} ReadAttribute(text: string, l: Link, e: Buffer, key: string, value: string)
    requires text != "" && l.url.Some? && Printable(key) && Printable(value)
    requires Without(key, '[') && Without(key, ']') && Without(value, '[') && Without(value, ']')
    requires SetAttribute(l, key + ":" + value).Some?
    ensures Printable(Bracketed(key, Some(value)))
    ensures PrintAll(At(text, l, e), Bracketed(key, Some(value)))
         == At(text + Bracketed(key, Some(value)), SetAttribute(l, key + ":" + value).value, e)
  {
    hide Print, PrintAll, SetAttribute, Printable, Without, CloseBracket;
    var word := key + ":" + value;
    var b := At(text, l, e);
    AttributeWord(key, value);
    ReadWord(text, l, e, word);
    PrintAllConcat(b, "[" + word, "]");
    var read := b.(text := text + "[" + word, linkText := word);
    PrintClose(read);
    CloseAttribute(read.(text := read.text + "]"));
    assert text + ("[" + word + "]") == text + "[" + word + "]";
  }

  lemma {:induction false} AttributeWord(key: string, value: string)
    requires Printable(key) && Printable(value)
    requires Without(key, '[') && Without(key, ']') && Without(value, '[') && Without(value, ']')
    ensures var word := key + ":" + value;
      && Printable(word) && Without(word, '[') && Without(word, ']') && word[|key|] == ':'
      && Bracketed(key, Some(value)) == "[" + word + "]"
    ensures Printable("]")
  {
    assert "[" + key + ":" + value + "]" == "[" + (key + ":" + value) + "]";
  }

  lemma {:induction false} CloseAttribute(b: Buffer)
    requires b.link.Some? && b.text != "" && exists i :: 0 <= i < |b.linkText| && b.linkText[i] == ':'
    requires SetAttribute(b.link.value, b.linkText).Some?
    ensures CloseBracket(b) == b.(link := SetAttribute(b.link.value, b.linkText), linkText := "")
  {
    hide SetAttribute, Accepts, Covered;
  }

  predicate Clean(value: Option<string>) {
    value.Some? ==> Printable(value.value) && Without(value.value, '[') && Without(value.value, ']')
  }

  /** A key whose attribute sets one field of the link, whatever the rest of the link. */
  predicate IsKey(key: string) { key in ["Name", "Expires", "Script", "Type", "View"] }

  function WithField(l: Link, key: string, value: Option<string>): Link {
    match key
    case "Name" => l.(name := value)
    case "Expires" => l.(expires := value)
    case "Script" => l.(script := value)
    case "Type" => l.(kind := value)
    case _ => l.(view := value)
  }

  function GetField(l: Link, key: string): Option<string> {
    match key
    case "Name" => l.name
    case "Expires" => l.expires
    case "Script" => l.script
    case "Type" => l.kind
    case _ => l.view
  }

  lemma {:induction false} AttributeSets(l: Link, key: string, value: string)
    requires IsKey(key) && (key == "Type" ==> |value| >= 2)
    ensures SetAttribute(l, key + ":" + value) == Some(WithField(l, key, Some(value)))
    ensures Printable(key) && Without(key, '[') && Without(key, ']')
  {
    hide SetAttribute, IndexOf, Printable, Without;
    KeyIsClean(key);
    KeyColon(key, value);
    var a := key + ":" + value;
    assert a[|key| + 1..] == value;
    FirstLetter(l, a, value);
  }

  lemma {:induction false} KeyIsClean(key: string)
    requires IsKey(key)
    ensures Printable(key) && Without(key, '[') && Without(key, ']') && Without(key, ':')
  {
    forall i | 0 <= i < |key| ensures 'A' <= key[i] <= 'Z' || 'a' <= key[i] <= 'z' {
    }
  }

  lemma {:induction false} KeyColon(key: string, value: string)
    requires IsKey(key)
    ensures IndexOf(key + ":" + value, ':') == |key|
  {
    hide IndexOf;
    var a := key + ":" + value;
    assert forall i :: 0 <= i < |key| ==> a[i] == key[i];
    KeyIsClean(key);
    assert a[|key|] == ':';
  }

  /** Only the first letter of the key counts. */
  lemma {:induction false} FirstLetter(l: Link, a: string, value: string)
    requires a != "" && a[IndexOf(a, ':') + 1..] == value
    ensures a[0] == 'N' ==> SetAttribute(l, a) == Some(l.(name := Some(value)))
    ensures a[0] == 'E' ==> SetAttribute(l, a) == Some(l.(expires := Some(value)))
    ensures a[0] == 'S' ==> SetAttribute(l, a) == Some(l.(script := Some(value)))
    ensures a[0] == 'T' && |value| >= 2 ==> SetAttribute(l, a) == Some(l.(kind := Some(value)))
    ensures a[0] == 'V' ==> SetAttribute(l, a) == Some(l.(view := Some(value)))
  {
    hide IndexOf;
  }

  /** An attribute that may be absent, read into a link in which it is absent. */
  lemma {:induction false} ReadField(text: string, l: Link, e: Buffer, key: string, value: Option<string>)
    requires text != "" && l.url.Some? && IsKey(key) && Clean(value) && GetField(l, key).None?
    requires key == "Type" && value.Some? ==> |value.value| >= 2
    ensures Printable(Bracketed(key, value))
    ensures PrintAll(At(text, l, e), Bracketed(key, value))
         == At(text + Bracketed(key, value), WithField(l, key, value), e)
    ensures WithField(l, key, value).url == l.url
  {
    hide Print, SetAttribute, Printable, Without;
    if value.Some? {
      AttributeSets(l, key, value.value);
      ReadAttribute(text, l, e, key, value.value);
    } else {
      assert Bracketed(key, value) == "" && text + "" == text;
      assert Printable("") by { EmptyIsPrintable(); }
    }
  }

  lemma {:induction false} EmptyIsPrintable()
    ensures Printable("")
  {}

  /** A link that its printed form determines. */
  predicate WellFormed(l: Link) {
    && l.url.Some? && Printable(l.url.value) && Without(l.url.value, '>')
    && Clean(l.name) && Clean(l.expires) && Clean(l.script) && Clean(l.kind) && Clean(l.view)
    && (l.kind.Some? ==> |l.kind.value| >= 2)
    && Attributes(l) != ""
  }

  lemma {:induction false} ReadFields(e: Buffer, l: Link)
    requires WellFormed(l)
    ensures Printable(ToString(l))
    ensures PrintAll(Empty(e), ToString(l)) == At(ToString(l), l, e)
  {
    hide Print, PrintAll, Printable, Bracketed, Clean, Without;
    var b := Empty(e);
    var t0, l0 := "<" + l.url.value + ">", EMPTY_LINK.(url := l.url);
    ReadUrl(e, l.url.value);
    var s1, l1 := Bracketed("Name", l.name), l0.(name := l.name);
    ReadField(t0, l0, e, "Name", l.name);
    PrintAllConcat(b, t0, s1);
    var s2, l2 := Bracketed("Expires", l.expires), l1.(expires := l.expires);
    ReadField(t0 + s1, l1, e, "Expires", l.expires);
    PrintAllConcat(b, t0 + s1, s2);
    var s3, l3 := Bracketed("Script", l.script), l2.(script := l.script);
    ReadField(t0 + s1 + s2, l2, e, "Script", l.script);
    PrintAllConcat(b, t0 + s1 + s2, s3);
    var s4, l4 := Bracketed("Type", l.kind), l3.(kind := l.kind);
    ReadField(t0 + s1 + s2 + s3, l3, e, "Type", l.kind);
    PrintAllConcat(b, t0 + s1 + s2 + s3, s4);
    var s5 := Bracketed("View", l.view);
    ReadField(t0 + s1 + s2 + s3 + s4, l4, e, "View", l.view);
    PrintAllConcat(b, t0 + s1 + s2 + s3 + s4, s5);
    assert ToString(l) == t0 + s1 + s2 + s3 + s4 + s5;
  }

  lemma {:induction false} EndsInBracket(l: Link)
    requires Attributes(l) != ""
    ensures ToString(l) != "" && ToString(l)[|ToString(l)| - 1] == ']'
  {
    var a, t := Attributes(l), ToString(l);
    assert t[|t| - 1] == a[|a| - 1];
  }

  /** The checksum covers everything up to its own brackets. */
  lemma {:induction false} CoversAll(t: string, v: string)
    requires t != "" && t[|t| - 1] == ']' && Without(v, ']')
    ensures Covered(t + "[" + v + "]") == t
  {
    hide LastIndexOf;
    var s := t + "[" + v + "]";
    var from := |s| - 2;
    forall k | |t| <= k <= from ensures s[k] != ']' {
      if k > |t| { assert s[k] == v[k - |t| - 1]; }
    }
    assert s[|t| - 1] == ']';
    assert LastIndexOf(s, ']', from) == |t| - 1;
    assert s[..|t|] == t;
  }

  lemma {:induction false} ReadChecksum(e: Buffer, l: Link, t: string, v: string)
    requires l.url.Some? && t != "" && t[|t| - 1] == ']'
    requires Printable(v) && Without(v, ':') && Without(v, '[') && Without(v, ']')
    ensures Printable("[" + v + "]")
    ensures PrintAll(At(t, l, e), "[" + v + "]")
         == Empty(e).(out := e.out + [if Accepts(t, v) then LinkOut(l) else ChecksumError])
  {
    hide Print, Accepts, Covered;
    var b := At(t, l, e);
    ReadWord(t, l, e, v);
    PrintAllConcat(b, "[" + v, "]");
    var read := b.(text := t + "[" + v, linkText := v);
    PrintClose(read);
    CoversAll(t, v);
    var o := if Accepts(t, v) then LinkOut(l) else ChecksumError;
    assert e.out + [o] + [] == e.out + [o];
  }

  /** Text restart on channel 2. */
  const RESTART := Pair(21, 0x1C, 0x2A)

  /** What restarting flushes: the pending line, unless it is a half-read link. */
  function Flushed(b: Buffer): seq<Out> {
    b.out + if b.link.None? && b.text != "" then [LineOut(b.text)] else []
  }

  lemma {:induction false} Restart(d: Decoder, b: Buffer)
    requires b.channel == TEXT2
    ensures OnText2(Hear(d, RESTART).0)
    ensures Listen(b, Hear(d, RESTART).1) == Empty(b).(out := Flushed(b))
  {
    var m := Mode(1, 2, true);
    assert ControlCall(0x1C, 0x2A) == TextRestart;
    hide ControlCall;
    TagOne(m, TextRestart);
    assert Hear(d, RESTART).1 == [Heard(m, TextRestart)];
    ListenOne(b, Heard(m, TextRestart));
  }

  /**
   * Printer and parser: whatever was going on before, text restart, the printed link and its
   * bracketed RFC 1071 checksum deliver exactly that link if one fold of the sum is enough, and a
   * checksum error if it is not; either way the TEXT2 buffer is left empty.
   */
  lemma {:induction false} LinkRoundTrip(d: Decoder, b: Buffer, l: Link, v: string)
    requires b.channel == TEXT2 && WellFormed(l) && |ToString(l)| <= LONGEST
    requires Printable(v) && Without(v, ':') && Without(v, '[') && Without(v, ']')
    requires ParseHex(v) == Some(Rfc1071(ToString(l)))
    ensures Printable(ToString(l) + ("[" + v + "]"))
    ensures Listen(b, Run(d, [RESTART] + Send(ToString(l) + ("[" + v + "]"))).1)
         == Empty(b).(out := Flushed(b) + [if FoldsOnce(ToString(l)) then LinkOut(l) else ChecksumError])
  {
    hide Print, PrintAll, Printable, Hear, Run, Accepts, FoldsOnce, Rfc1071, ToString, Attributes, Flushed, Listen;
    var t, end := ToString(l), "[" + v + "]";
    var restarted := Empty(b).(out := Flushed(b));
    ReadFields(restarted, l);
    EndsInBracket(l);
    ReadChecksum(restarted, l, t, v);
    PrintAllConcat(restarted, t, end);
    Restart(d, b);
    var (d1, h) := Hear(d, RESTART);
    RunCons(d, RESTART, Send(t + end));
    ListenConcat(b, h, Run(d1, Send(t + end)).1);
    SendIsPrinted(d1, restarted, t + end);
    assert SevenBit(t) by { PrintableIsSevenBit(t); }
    AcceptsRfcIffFoldsOnce(t, v);
  }

  lemma {:induction false} PrintableIsSevenBit(s: string)
    requires Printable(s)
    ensures SevenBit(s)
  {}

  lemma {:induction false} HexIsClean(n: nat)
    requires n < 65536
    ensures Printable(Hex4(n)) && Without(Hex4(n), ':') && Without(Hex4(n), '[') && Without(Hex4(n), ']')
  {
    hide Digit;
    DigitRoundTrip(n / 4096);
    DigitRoundTrip(n / 256 % 16);
    DigitRoundTrip(n / 16 % 16);
    DigitRoundTrip(n % 16);
  }

  /** The same with the checksum printed as four hexadecimal digits. */
  lemma {:induction false} PrintedLinkIsRead(d: Decoder, b: Buffer, l: Link)
    requires b.channel == TEXT2 && WellFormed(l) && |ToString(l)| <= LONGEST && FoldsOnce(ToString(l))
    ensures Printable(ToString(l) + ("[" + Hex4(Rfc1071(ToString(l))) + "]"))
    ensures Listen(b, Run(d, [RESTART] + Send(ToString(l) + ("[" + Hex4(Rfc1071(ToString(l))) + "]"))).1)
         == Empty(b).(out := Flushed(b) + [LinkOut(l)])
  {
    hide Print, PrintAll, Printable, Hear, Run, FoldsOnce, ToString, Flushed, Listen;
    hide WellFormed, Hex4, ParseHex, Without;
    var n := Rfc1071(ToString(l));
    HexIsClean(n);
    HexRoundTrip(n);
    LinkRoundTrip(d, b, l, Hex4(n));
  }
}
