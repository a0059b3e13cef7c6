/**
 * FileWriter.java, the writer of caption documents, and what CaptionFile.java reads back from them.
 * Names and sentences are as escapeHtml leaves them.
 */
module CaptionDocuments {
  import opened Text
  import opened CaptionFiles
  import opened CaptionFileTheorems

  // ---------- the document ----------

  /** A line of the document: a sentence with its anchor, or anything else. */
  datatype Row =
    | Said(timestamp: int, speaker: Option<string>, text: string)
    | Markup(line: string)

  function Decimal(n: nat): string {
    (if n < 10 then "" else Decimal(n / 10)) + ['0' + (n % 10) as char]
  }

  function PrintedLong(t: int): string { if t < 0 then "-" + Decimal(-t) else Decimal(t) }

  function Anchor(n: string): string { "<a name=\"" + n + "\"/>" }

  function Span(speaker: Option<string>): string {
    if speaker.None? then "" else "<span class=\"speaker\">" + speaker.value + "&gt;&gt; </span>"
  }

  function Printed(r: Row): string {
    match r
    case Said(t, speaker, text) => Anchor(PrintedLong(t)) + Span(speaker) + text
    case Markup(line) => line
  }

  function Document(rows: seq<Row>, eol: string): string {
    if rows == [] then "" else Printed(rows[0]) + eol + Document(rows[1..], eol)
  }

  predicate OneLine(s: string) { forall i :: 0 <= i < |s| ==> s[i] != '\n' && s[i] != '\r' }

  predicate Escaped(s: string) { OneLine(s) && forall i :: 0 <= i < |s| ==> s[i] != '<' && s[i] != '>' }

  predicate IsLong(t: int) { -0x8000_0000_0000_0000 <= t < 0x8000_0000_0000_0000 }

  /** An event that is delivered has a speaker or a sentence. */
  predicate ValidRow(r: Row) {
    match r
    case Said(t, speaker, text) =>
      && IsLong(t) && Escaped(text) && (speaker.Some? ==> Escaped(speaker.value))
      && (speaker.None? ==> text != "")
    case Markup(line) => OneLine(line) && !("<a name=" <= line)
  }

  predicate ValidRows(rows: seq<Row>) { forall i :: 0 <= i < |rows| ==> ValidRow(rows[i]) }

  /** Whatever println ends a line with. */
  predicate IsEol(eol: string) { eol in {"\n", "\r", "\r\n"} }

  // ---------- the writer ----------

  lemma {:induction false} DocumentConcat(x: seq<Row>, y: seq<Row>, eol: string)
    ensures Document(x + y, eol) == Document(x, eol) + Document(y, eol)
  {
    if x == [] {
      assert x + y == y;
    } else {
      assert (x + y)[0] == x[0] && (x + y)[1..] == x[1..] + y;
      DocumentConcat(x[1..], y, eol);
    }
  }

  /** A new <div> is opened when the type of the captions has changed. */
  function Division(current: Option<string>, next: string): seq<Row> {
    if current == Some(next) then [] else [Markup("</div>"), Markup("<div class=\"" + next + "\">")]
  }

  class FileWriter {
    const eol: string
    var currentCaptionType: Option<string>
    var newCaptionType: string
    var body: string
    ghost var rows: seq<Row>   // what has been written, line by line

    ghost predicate Valid()
      reads this
    {
      body == Document(rows, eol) && ValidRows(rows) && OneLine(newCaptionType)
    }

    /** A file that openDoc has just created. */
    constructor (terminator: string)
      ensures Valid() && eol == terminator && rows == [Markup("<div>")]
      ensures currentCaptionType == None && newCaptionType == "ROLLUP"
    {
      eol := terminator;
      currentCaptionType, newCaptionType := None, "ROLLUP";
      body := "<div>" + terminator;
      rows := [Markup("<div>")];
      new;
      assert rows[1..] == [] && Document(rows[1..], eol) == "";
    }

    method Println(line: string)
      requires Valid() && OneLine(line) && !("<a name=" <= line)
      modifies `body, `rows
      ensures Valid() && rows == old(rows) + [Markup(line)]
    {
      hide Document;
      body := body + line + eol;
      OneMoreRow(rows, Markup(line), eol);
      rows := rows + [Markup(line)];
    }

    method WriteTypeChange(captionType: string)
      requires Valid() && OneLine(captionType)
      modifies `newCaptionType
      ensures Valid() && newCaptionType == captionType
    {
      newCaptionType := captionType;
    }

    method WriteDivision()
      requires Valid()
      modifies `body, `rows, `currentCaptionType
      ensures Valid() && currentCaptionType == Some(newCaptionType)
      ensures rows == old(rows) + Division(old(currentCaptionType), newCaptionType)
    {
      hide Document, ValidRows, OneLine;
      if currentCaptionType != Some(newCaptionType) {
        assert OneLine("</div>") by { MarkupIsOneLine(); }
        Println("</div>");
        currentCaptionType := Some(newCaptionType);
        DivisionIsOneLine(newCaptionType);
        Println("<div class=\"" + newCaptionType + "\">");
      }
    }

    method WriteSentence(timestamp: int, speaker: Option<string>, sentence: string)
      requires Valid() && ValidRow(Said(timestamp, speaker, sentence))
      modifies `body, `rows, `currentCaptionType
      ensures Valid() && currentCaptionType == Some(newCaptionType)
      ensures rows == old(rows) + Division(old(currentCaptionType), newCaptionType)
                      + [Said(timestamp, speaker, sentence), Markup("<p/>")]
    {
      hide ValidRow, PrintedLong, Printed, Document, ValidRows, OneLine, Division;
      WriteDivision();
      ghost var start, before := body, rows;
      body := body + "<a name=\"";
      body := body + PrintedLong(timestamp);
      body := body + "\"/>";
      if speaker.Some? {
        body := body + "<span class=\"speaker\">";
        body := body + speaker.value;
        body := body + "&gt;&gt; </span>";
      }
      body := body + sentence + eol;
      ghost var r := Said(timestamp, speaker, sentence);
      Pieces(start, timestamp, speaker, sentence);
      assert body == start + Printed(r) + eol;
      OneMoreRow(rows, r, eol);
      OneMoreValid(rows, r);
      rows := rows + [r];
      assert OneLine("<p/>") by { MarkupIsOneLine(); }
      Println("<p/>");
      assert before + [r] + [Markup("<p/>")] == before + [r, Markup("<p/>")];
    }
  }

  lemma {:induction false} MarkupIsOneLine()
    ensures OneLine("</div>") && OneLine("<p/>")
  {}

  lemma {:induction false} Pieces(start: string, t: int, speaker: Option<string>, sentence: string)
    ensures var named := start + "<a name=\"" + PrintedLong(t) + "\"/>";
      start + Printed(Said(t, speaker, sentence)) ==
        (if speaker.None? then named else named + "<span class=\"speaker\">" + speaker.value + "&gt;&gt; </span>")
        + sentence
  {
    hide PrintedLong;
    var n, span := "<a name=\"" + PrintedLong(t) + "\"/>", Span(speaker);
    assert start + (n + span + sentence) == start + n + span + sentence;
    assert start + n == start + "<a name=\"" + PrintedLong(t) + "\"/>";
    if speaker.Some? {
      assert start + n + span == start + n + "<span class=\"speaker\">" + speaker.value + "&gt;&gt; </span>";
    }
  }

  lemma {:induction false} OneMoreValid(rows: seq<Row>, r: Row)
    requires ValidRows(rows) && ValidRow(r)
    ensures ValidRows(rows + [r])
  {
    hide ValidRow;
  }

  lemma {:induction false} DivisionIsOneLine(captionType: string)
    requires OneLine(captionType)
    ensures var line := "<div class=\"" + captionType + "\">"; OneLine(line) && !("<a name=" <= line)
  {
    assert ("<div class=\"" + captionType + "\">")[1] == 'd' && "<a name="[1] == 'a';
    OneLineJoin("<div class=\"", captionType);
    OneLineJoin("<div class=\"" + captionType, "\">");
  }

  lemma {:induction false} OneMoreRow(rows: seq<Row>, r: Row, eol: string)
    ensures Document(rows + [r], eol) == Document(rows, eol) + Printed(r) + eol
  {
    hide Printed;
    DocumentConcat(rows, [r], eol);
    assert [r][1..] == [] && Document([r][1..], eol) == "";
    assert Document([r], eol) == Printed(r) + eol + "";
  }

  // ---------- numbers ----------

  lemma {:induction false} DigitsThen(x: string, y: string, v: nat, w: nat)
    requires ParseDigits(x, v) == Some(w)
    ensures ParseDigits(x + y, v) == ParseDigits(y, w)
  {
    if x == "" {
      assert x + y == y;
    } else {
      assert (x + y)[1..] == x[1..] + y;
      DigitsThen(x[1..], y, 10 * v + (x[0] as int - '0' as int), w);
    }
  }

  predicate AllDigits(s: string) { s != "" && forall i :: 0 <= i < |s| ==> '0' <= s[i] <= '9' }

  lemma {:induction false} DecimalIsRead(n: nat)
    ensures ParseDigits(Decimal(n), 0) == Some(n) && AllDigits(Decimal(n))
  {
    var head, d := if n < 10 then "" else Decimal(n / 10), (n % 10) as char;
    if n >= 10 { DecimalIsRead(n / 10); }
    DigitsThen(head, ['0' + d], 0, n / 10);
    OneDigit('0' + d, n / 10);
  }

  lemma {:induction false} OneDigit(c: char, v: nat)
    requires '0' <= c <= '9'
    ensures ParseDigits([c], v) == Some(10 * v + (c as int - '0' as int))
  {
    assert [c][1..] == "";
  }

  /** Digits, or a minus sign and digits. */
  predicate Numeral(s: string) { forall i :: 0 <= i < |s| ==> '0' <= s[i] <= '9' || s[i] == '-' }

  lemma {:induction false} LongIsRead(t: int)
    requires IsLong(t)
    ensures ParseLong(PrintedLong(t)) == Some(t) && Numeral(PrintedLong(t))
  {
    hide ParseDigits, Decimal;
    var n := if t < 0 then -t else t;
    DecimalIsRead(n);
    if t < 0 { assert PrintedLong(t)[1..] == Decimal(n); }
  }

  // ---------- one line ----------

  predicate Lacks(s: string, c: char) { forall k :: 0 <= k < |s| ==> s[k] != c }

  lemma {:induction false} IndexBehind(x: string, y: string, c: char, z: string)
    requires Lacks(y, c)
    ensures var s := x + (y + ([c] + z));
      && IndexOf(s, c, |x|) == |x| + |y| < |s|
      && s[|x|..|x| + |y|] == y && s[|x| + |y| + 1..] == z
  {
    hide IndexOf;
    var s := x + (y + ([c] + z));
    assert s[|x| + |y|] == c;
    forall k | |x| <= k < |x| + |y| ensures s[k] != c { assert s[k] == y[k - |x|]; }
  }

  lemma {:induction false} Regroup(x: string, y: string, z: string)
    ensures x + (y + z) == x + y + z
  {}

  lemma {:induction false} LacksJoin(x: string, y: string, c: char)
    requires Lacks(x, c) && Lacks(y, c)
    ensures Lacks(x + y, c)
  {}

  lemma {:induction false} NumeralLacks(n: string)
    requires Numeral(n)
    ensures Lacks(n, '"') && Lacks(n, '>')
  {}

  lemma {:induction false} StampIsRead(n: string, rest: string)
    requires Numeral(n)
    ensures IsAnchor(Anchor(n) + rest) && Timestamp(Anchor(n) + rest) == ParseLong(n)
  {
    hide ParseLong, IndexOf, Numeral, Lacks;
    var line, start, tail := Anchor(n) + rest, "<a name=", "/>" + rest;
    NumeralLacks(n);
    assert Lacks(start, '"') by { StartLacksQuote(); }
    assert line == "" + (start + (['"'] + (n + ['"'] + tail)));
    IndexBehind("", start, '"', n + ['"'] + tail);
    assert line == start + ['"'] + (n + (['"'] + tail));
    IndexBehind(start + ['"'], n, '"', tail);
  }

  lemma {:induction false} StartLacksQuote()
    ensures Lacks("<a name=", '"')
  {}

  lemma {:induction false} AnchorIsStamped(r: Row)
    requires ValidRow(r) && r.Said?
    ensures IsAnchor(Printed(r)) && Timestamp(Printed(r)) == Some(r.timestamp)
  {
    hide IsAnchor, Timestamp, PrintedLong, Span, ParseLong, Anchor;
    LongIsRead(r.timestamp);
    var a := Anchor(PrintedLong(r.timestamp));
    StampIsRead(PrintedLong(r.timestamp), Span(r.speaker) + r.text);
    Regroup(a, Span(r.speaker), r.text);
  }

  /** An anchor ends with its first '>'. */
  lemma {:induction false} AnchorEnds(n: string) returns (a: string)
    requires Numeral(n)
    ensures Anchor(n) == a + ['>'] && Lacks(a, '>')
  {
    NumeralLacks(n);
    a := "<a name=\"" + n + "\"/";
    LacksJoin("<a name=\"", n, '>');
    LacksJoin("<a name=\"" + n, "\"/", '>');
    assert "\"/>" == "\"/" + ['>'];
  }

  lemma {:induction false} AnchorMark(n: string, rest: string)
    requires Numeral(n) && rest != ""
    ensures var line, gt := Anchor(n) + rest, |Anchor(n)| - 1;
      gt >= 0 && IndexOf(line, '>') == gt && line[gt + 1] == rest[0] && line[gt + 1..] == rest
  {
    hide IndexOf, Numeral, Lacks, Anchor;
    var a := AnchorEnds(n);
    assert Anchor(n) + rest == "" + (a + (['>'] + rest));
    IndexBehind("", a, '>', rest);
  }

  /** Behind the anchor comes the sentence, or a tag that is skipped with what it encloses. */
  lemma {:induction false} RestIsRead(n: string, rest: string)
    requires Numeral(n) && rest != ""
    ensures var line := Anchor(n) + rest;
      ParseSentence(line) ==
        if rest[0] != '<' then Some(rest)
        else Some(line[IndexOf(line, '>', IndexOf(line, '>', |Anchor(n)|) + 1) + 1..])
  {
    hide *;
    AnchorMark(n, rest);
    SentenceAfter(Anchor(n) + rest, |Anchor(n)| - 1);
  }

  lemma {:induction false} SentenceAfter(line: string, gt: int)
    requires gt == IndexOf(line, '>') && 0 <= gt && gt + 1 < |line|
    ensures ParseSentence(line) ==
      if line[gt + 1] != '<' then Some(line[gt + 1..])
      else Some(line[IndexOf(line, '>', IndexOf(line, '>', gt + 1) + 1) + 1..])
  {
    hide IndexOf;
  }

  /** The speaker's tag has two '>', and none in the name. */
  lemma {:induction false} SpanEnds(name: string) returns (open: string, inside: string)
    requires Escaped(name)
    ensures Span(Some(name)) == open + ['>'] + inside + ['>']
    ensures open != "" && open[0] == '<' && Lacks(open, '>') && Lacks(inside, '>')
  {
    open, inside := "<span class=\"speaker\"", name + "&gt;&gt; </span";
    assert Lacks(name, '>') by { hide OneLine; }
    LacksJoin(name, "&gt;&gt; </span", '>');
    assert "<span class=\"speaker\">" == open + ['>'];
    assert "&gt;&gt; </span>" == "&gt;&gt; </span" + ['>'];
    Regroup(open + ['>'] + name, "&gt;&gt; </span", ['>']);
    Regroup(open + ['>'], name, "&gt;&gt; </span");
  }

  lemma {:induction false} SpanIsSkipped(head: string, name: string, text: string)
    requires Escaped(name)
    ensures var rest := Span(Some(name)) + text;
      var line := head + rest;
      && rest != "" && rest[0] == '<'
      && var second := IndexOf(line, '>', |head|);
         var third := IndexOf(line, '>', second + 1);
         second >= 0 && 0 <= third < |line| && line[third + 1..] == text
  {
    hide *;
    var open, inside := SpanEnds(name);
    Unnested(open, inside, text);
    TwoMarks(head, open, inside, text);
    assert (Span(Some(name)) + text)[0] == open[0];
  }

  lemma {:induction false} Unnested(open: string, inside: string, text: string)
    ensures open + ['>'] + inside + ['>'] + text == open + (['>'] + (inside + (['>'] + text)))
  {
    Regroup(open + ['>'] + inside, ['>'], text);
    Regroup(open + ['>'], inside, ['>'] + text);
    Regroup(open, ['>'], inside + (['>'] + text));
  }

  lemma {:induction false} TwoMarks(head: string, open: string, inside: string, text: string)
    requires Lacks(open, '>') && Lacks(inside, '>')
    ensures var line := head + (open + (['>'] + (inside + (['>'] + text))));
      var second := IndexOf(line, '>', |head|);
      && 0 <= second < |line|
      && var third := IndexOf(line, '>', second + 1); 0 <= third < |line| && line[third + 1..] == text
  {
    hide *;
    var tail := inside + (['>'] + text);
    IndexBehind(head, open, '>', tail);
    Fronted(head, open, tail);
    IndexBehind(head + open + ['>'], inside, '>', text);
  }

  lemma {:induction false} Fronted(head: string, open: string, tail: string)
    ensures head + (open + (['>'] + tail)) == head + open + ['>'] + tail
  {
    Regroup(head + open, ['>'], tail);
    Regroup(head, open, ['>'] + tail);
  }

  lemma {:induction false} SentenceIsRead(r: Row)
    requires ValidRow(r) && r.Said?
    ensures ParseSentence(Printed(r)) == Some(r.text)
  {
    hide ParseSentence, PrintedLong, ParseLong, IndexOf, Anchor, Span;
    var n, rest := PrintedLong(r.timestamp), Span(r.speaker) + r.text;
    LongIsRead(r.timestamp);
    Regroup(Anchor(n), Span(r.speaker), r.text);
    if r.speaker.None? {
      NoSpan(r.text);
      assert r.text[0] != '<';
    } else {
      SpanIsSkipped(Anchor(n), r.speaker.value, r.text);
    }
    RestIsRead(n, rest);
  }

  lemma {:induction false} NoSpan(text: string)
    ensures Span(None) + text == text
  {}

  lemma {:induction false} PrintedIsOneLine(r: Row)
    requires ValidRow(r)
    ensures OneLine(Printed(r)) && (r.Markup? ==> !IsAnchor(Printed(r)))
  {
    hide PrintedLong;
    if r.Said? {
      LongIsRead(r.timestamp);
      hide IsLong, ParseLong;
      OneLineJoin("<a name=\"", PrintedLong(r.timestamp));
      OneLineJoin("<a name=\"" + PrintedLong(r.timestamp), "\"/>");
      if r.speaker.Some? {
        OneLineJoin("<span class=\"speaker\">", r.speaker.value);
        OneLineJoin("<span class=\"speaker\">" + r.speaker.value, "&gt;&gt; </span>");
      }
      OneLineJoin("<a name=\"" + PrintedLong(r.timestamp) + "\"/>", Span(r.speaker));
      OneLineJoin("<a name=\"" + PrintedLong(r.timestamp) + "\"/>" + Span(r.speaker), r.text);
    }
  }

  lemma {:induction false} OneLineJoin(x: string, y: string)
    requires OneLine(x) && OneLine(y)
    ensures OneLine(x + y)
  {}

  // ---------- all lines ----------

  lemma {:induction false} LineEndIs(doc: string, pos: nat, e: nat)
    requires pos <= e <= |doc| && (e == |doc| || doc[e] == '\n' || doc[e] == '\r')
    requires forall k :: pos <= k < e ==> doc[k] != '\n' && doc[k] != '\r'
    ensures LineEnd(doc, pos) == e
    decreases e - pos
  {
    if pos < e { LineEndIs(doc, pos + 1, e); }
  }

  /** The line that starts behind before ends where its text does, and the next starts behind the terminator. */
  lemma {:induction false} LineIsRead(before: string, text: string, eol: string, after: string)
    requires OneLine(text) && IsEol(eol) && (after != "" && eol == "\r" ==> after[0] != '\n')
    ensures var doc := before + (text + eol + after);
      && |before| < |doc| && LineAt(doc, |before|) == text
      && NextLine(doc, |before|) == |before| + |text| + |eol|
  {
    hide LineEnd;
    var doc, e := before + (text + eol + after), |before| + |text|;
    assert doc[e] == eol[0];
    forall k | |before| <= k < e ensures doc[k] != '\n' && doc[k] != '\r' { assert doc[k] == text[k - |before|]; }
    LineEndIs(doc, |before|, e);
    assert doc[|before|..e] == text;
    if eol == "\r\n" { assert doc[e + 1] == '\n'; }
    else if eol == "\r" && after != "" { assert doc[e + 1] == after[0]; }
  }

  lemma {:induction false} NoStrayNewline(rows: seq<Row>, eol: string)
    requires ValidRows(rows) && IsEol(eol)
    ensures var doc := Document(rows, eol); doc != "" && eol == "\r" ==> doc[0] != '\n'
  {
    hide ValidRow, Printed;
    if rows != [] {
      PrintedIsOneLine(rows[0]);
      var doc, first := Document(rows, eol), Printed(rows[0]);
      if first != "" { assert doc[0] == first[0]; } else { assert doc[0] == eol[0]; }
    }
  }

  /** Line by line, the document is its rows. */
  ghost predicate Match(lines: seq<Line>, rows: seq<Row>) {
    |lines| == |rows| && forall i :: 0 <= i < |rows| ==> ValidRow(rows[i]) && lines[i].text == Printed(rows[i])
  }

  lemma {:induction false} LinesAreRows(before: string, rows: seq<Row>, eol: string)
    requires ValidRows(rows) && IsEol(eol)
    ensures Match(Lines(before + Document(rows, eol), |before|), rows)
    decreases |rows|
  {
    hide ValidRow, Printed, LineAt, NextLine;
    var doc := before + Document(rows, eol);
    if rows == [] {
      LinesEnd(doc);
    } else {
      var text, after := Printed(rows[0]), Document(rows[1..], eol);
      PrintedIsOneLine(rows[0]);
      NoStrayNewline(rows[1..], eol);
      LineIsRead(before, text, eol, after);
      LinesStep(doc, |before|);
      assert doc == before + text + eol + after;
      LinesAreRows(before + text + eol, rows[1..], eol);
      var lines := Lines(doc, |before|);
      assert forall i :: 0 < i < |rows| ==> lines[i] == lines[1..][i - 1] && rows[i] == rows[1..][i - 1];
    }
  }

  // ---------- queries ----------

  /** What was last said at t. */
  function SaidAt(rows: seq<Row>, t: int): seq<string> {
    if rows == [] then []
    else
      var r := rows[|rows| - 1];
      if r.Said? && r.timestamp == t then [r.text] else SaidAt(rows[..|rows| - 1], t)
  }

  predicate SaidIn(r: Row, start: int, end: int) { r.Said? && start <= r.timestamp <= end }

  /** What was said between start and end, in order. */
  function SaidBetween(rows: seq<Row>, start: int, end: int): seq<string> {
    if rows == [] then []
    else (if SaidIn(rows[0], start, end) then [rows[0].text] else []) + SaidBetween(rows[1..], start, end)
  }

  /** Timestamps of sentences strictly increase. */
  predicate InOrder(rows: seq<Row>) {
    forall i, j :: 0 <= i < j < |rows| && rows[i].Said? && rows[j].Said? ==> rows[i].timestamp < rows[j].timestamp
  }

  ghost predicate AnySaid(rows: seq<Row>, start: int, end: int) {
    exists i :: 0 <= i < |rows| && SaidIn(rows[i], start, end)
  }

  ghost predicate AnyFrom(rows: seq<Row>, start: int) {
    exists i :: 0 <= i < |rows| && rows[i].Said? && start <= rows[i].timestamp
  }

  ghost predicate AnyUpTo(rows: seq<Row>, end: int) {
    exists i :: 0 <= i < |rows| && rows[i].Said? && rows[i].timestamp <= end
  }

  /** What getSentences answers on a document with these rows. */
  ghost function Between(rows: seq<Row>, start: int, end: int): Answer {
    if start > end then BadRange
    else if AnySaid(rows, start, end) then Sentences(SaidBetween(rows, start, end))
    else if !AnyFrom(rows, start) || !AnyUpTo(rows, end) then NoSuchLine
    else UnexpectedPosition
  }

  /** How one line looks to the reader. */
  lemma {:induction false} RowIsRead(l: Line, r: Row)
    requires ValidRow(r) && l.text == Printed(r)
    ensures IsAnchor(l.text) == r.Said? && Stamped(l) == r.Said? && !Unreadable(l.text)
    ensures r.Said? ==>
      Timestamp(l.text) == Some(r.timestamp) && Stamp(l) == r.timestamp && ParseSentence(l.text) == Some(r.text)
  {
    hide IsAnchor, Timestamp, ParseSentence, Printed, ValidRow;
    if r.Said? {
      AnchorIsStamped(r);
      SentenceIsRead(r);
    } else {
      PrintedIsOneLine(r);
    }
  }

  lemma {:induction false} RowsAreRead(lines: seq<Line>, rows: seq<Row>)
    requires Match(lines, rows)
    ensures forall i :: 0 <= i < |rows| ==>
      && IsAnchor(lines[i].text) == rows[i].Said? && Stamped(lines[i]) == rows[i].Said?
      && !Unreadable(lines[i].text)
    ensures forall i :: 0 <= i < |rows| && rows[i].Said? ==>
      && Timestamp(lines[i].text) == Some(rows[i].timestamp) && Stamp(lines[i]) == rows[i].timestamp
      && ParseSentence(lines[i].text) == Some(rows[i].text)
  {
    hide IsAnchor, Timestamp, ParseSentence, Printed, ValidRow, Stamped, Unreadable;
    forall i | 0 <= i < |rows|
      ensures IsAnchor(lines[i].text) == rows[i].Said? && Stamped(lines[i]) == rows[i].Said?
      ensures !Unreadable(lines[i].text)
      ensures rows[i].Said? ==>
        && Timestamp(lines[i].text) == Some(rows[i].timestamp) && Stamp(lines[i]) == rows[i].timestamp
        && ParseSentence(lines[i].text) == Some(rows[i].text)
    {
      RowIsRead(lines[i], rows[i]);
    }
  }

  /** The index leads to the last line with the timestamp. */
  lemma {:induction false} IndexOfRows(lines: seq<Line>, rows: seq<Row>, t: int)
    requires Match(lines, rows)
    ensures IndexOfLines(lines).Some?
    ensures t in IndexOfLines(lines).value <==> SaidAt(rows, t) != []
    ensures t in IndexOfLines(lines).value ==> exists i ::
      && 0 <= i < |rows| && lines[i].pos == IndexOfLines(lines).value[t]
      && rows[i].Said? && SaidAt(rows, t) == [rows[i].text]
  {
    hide IsAnchor, Timestamp, Printed, ValidRow;
    if lines != [] {
      var n := |lines| - 1;
      var init, rowsInit := lines[..n], rows[..n];
      RowIsRead(lines[n], rows[n]);
      assert Match(init, rowsInit);
      IndexOfRows(init, rowsInit, t);
      var m0, m := IndexOfLines(init).value, IndexOfLines(lines).value;
      if rows[n].Said? && rows[n].timestamp == t {
        assert lines[n].pos == m[t];
      } else if t in m0 {
        var i :| 0 <= i < n && init[i].pos == m0[t] && rowsInit[i].Said? && SaidAt(rowsInit, t) == [rowsInit[i].text];
        assert lines[i].pos == m[t] && rows[i].Said? && SaidAt(rows, t) == [rows[i].text];
      }
    }
  }

  lemma {:induction false} ScanIsSaid(lines: seq<Line>, rows: seq<Row>, start: int, end: int)
    requires Match(lines, rows)
    ensures Scan(lines, start, end) == Sentences(SaidBetween(rows, start, end))
    decreases |rows|
  {
    hide IsAnchor, Timestamp, Printed, ValidRow, ParseSentence;
    if rows != [] {
      RowIsRead(lines[0], rows[0]);
      assert Match(lines[1..], rows[1..]);
      ScanIsSaid(lines[1..], rows[1..], start, end);
      assert [] + SaidBetween(rows[1..], start, end) == SaidBetween(rows[1..], start, end);
    }
  }

  lemma {:induction false} RangeOfRows(doc: string, m: map<int, nat>, rows: seq<Row>, start: int, end: int, a: Answer)
    requires Match(Lines(doc, 0), rows) && InOrder(rows)
    requires IndexOfLines(Lines(doc, 0)) == Some(m) && forall k :: k in m ==> m[k] < |doc|
    requires IsAnswer(doc, m, start, end, a)
    ensures a == Between(rows, start, end)
  {
    hide Lines, IsAnchor, Timestamp, Printed, ValidRow, ParseSentence, IndexOfLines, Scan, IsAnswer, Unreadable;
    var all := Lines(doc, 0);
    RowsAreRead(all, rows);
    assert Increasing(all);
    RangeQuery(doc, m, start, end, a);
    ScanIsSaid(all, rows, start, end);
    SomeIsAny(all, rows, start, end);
  }

  lemma {:induction false} SomeIsAny(lines: seq<Line>, rows: seq<Row>, start: int, end: int)
    requires Match(lines, rows)
    ensures SomeInRange(lines, start, end) == AnySaid(rows, start, end)
    ensures SomeAtOrAfter(lines, start) == AnyFrom(rows, start)
    ensures SomeAtOrBefore(lines, end) == AnyUpTo(rows, end)
  {
    hide IsAnchor, Timestamp, Printed, ValidRow, ParseSentence, Stamped, Unreadable, Stamp;
    RowsAreRead(lines, rows);
    forall i | 0 <= i < |rows| ensures InRange(lines[i], start, end) == SaidIn(rows[i], start, end) {}
  }

  /**
   * Written and read back: a document of sentences and other markup is indexed; a timestamp yields
   * the sentence last written with it, without the speaker, and a range, when timestamps increase,
   * exactly the sentences in it, in order.
   */
  method ReadBack(rows: seq<Row>, eol: string, t: int, start: int, end: int)
    returns (indexed: bool, one: Answer, range: Answer)
    requires ValidRows(rows) && IsEol(eol)
    ensures indexed && one == Sentences(SaidAt(rows, t))
    ensures InOrder(rows) ==> range == Between(rows, start, end)
  {
    hide Lines, Document, IndexOfLines, ValidRow, InOrder, SaidAt, Between, ParseSentence, IsAnswer, LineAt;
    var doc := Document(rows, eol);
    var file := new CaptionFile(doc);
    ghost var lines := Lines(doc, 0);
    assert "" + doc == doc;
    LinesAreRows("", rows, eol);
    IndexOfRows(lines, rows, t);
    indexed := file.CreateIndex();
    one := file.GetSentence(t);
    if t in file.index {
      ghost var i :| 0 <= i < |rows| && lines[i].pos == file.index[t]
                     && rows[i].Said? && SaidAt(rows, t) == [rows[i].text];
      LinesFrom(doc, 0, i);
      SentenceIsRead(rows[i]);
    }
    range := file.GetSentences(start, end);
    if InOrder(rows) {
      RangeOfRows(doc, file.index, rows, start, end, range);
    }
  }

  /** What was said exactly once is found by its timestamp. */
  lemma {:induction false} SaidAtIsIt(rows: seq<Row>, i: nat)
    requires InOrder(rows) && i < |rows| && rows[i].Said?
    ensures SaidAt(rows, rows[i].timestamp) == [rows[i].text]
    decreases |rows|
  {
    var n := |rows| - 1;
    if i < n { SaidAtIsIt(rows[..n], i); }
  }
}
