/** ITVLink.java: interactive-TV links, their printed form and their Internet checksum. */
module Itv {
  import opened Text

  datatype Link = Link(url: Option<string>, name: Option<string>, expires: Option<string>,
                       script: Option<string>, kind: Option<string>, view: Option<string>)

  const EMPTY_LINK := Link(None, None, None, None, None, None)

  // ---------- attributes ----------

  /** One-letter types are abbreviations; other single letters leave the type alone. */
  function SetKind(l: Link, value: string): Link
    requires value != ""
  {
    if |value| > 1 then l.(kind := Some(value))
    else match LowerChar(value[0])
      case 'p' => l.(kind := Some("Program"))
      case 'n' => l.(kind := Some("Network"))
      case 's' => l.(kind := Some("Station"))
      case 'o' => l.(kind := Some("Operator"))
      case 'a' => l.(kind := Some("Sponsor"))
      case _ => l
  }

  /** setAttribute; None is the StringIndexOutOfBoundsException of charAt(0) on an empty string. */
  function SetAttribute(l: Link, attribute: string): Option<Link> {
    if attribute == "" then None
    else
      var value := attribute[IndexOf(attribute, ':') + 1..];
      match LowerChar(attribute[0])
      case 'n' => Some(l.(name := Some(value)))
      case 'e' => Some(l.(expires := Some(value)))
      case 's' => Some(l.(script := Some(value)))
      case 't' => if value == "" then None else Some(SetKind(l, value))
      case 'v' => Some(l.(view := Some(value)))
      case _ => Some(l)
  }

  function Bracketed(key: string, value: Option<string>): string {
    if value.Some? then "[" + key + ":" + value.value + "]" else ""
  }

  function Attributes(l: Link): string {
    Bracketed("Name", l.name) + Bracketed("Expires", l.expires) + Bracketed("Script", l.script) +
    Bracketed("Type", l.kind) + Bracketed("View", l.view)
  }

  function ToString(l: Link): string {
    "<" + (if l.url.Some? then l.url.value else "null") + ">" + Attributes(l)
  }

  // ---------- checksum ----------

  /** Two's complement wrap-around of int arithmetic. */
  function Wrap32(x: int): int { (x + 0x8000_0000) % 0x1_0000_0000 - 0x8000_0000 }

  /** The loop of checksum from index i on, as it adds to cs. */
  function CodeSum(s: string, i: nat, cs: int): int
    decreases |s| - i
  {
    if i >= |s| then cs
    else
      var low := if i + 1 < |s| then Wrap32(cs + s[i + 1] as int) else cs;
      CodeSum(s, i + 2, Wrap32(low + 256 * s[i] as int))
  }

  /** cs % 65536 + (cs & 0xffff0000) / 65536, where % keeps the sign of cs. */
  function Fold(cs: int): int {
    (if cs >= 0 then cs % 65536 else -((-cs) % 65536)) + cs / 65536
  }

  function HexDigit(c: char): int {
    if '0' <= c <= '9' then c as int - '0' as int
    else if 'a' <= c <= 'f' then c as int - 'a' as int + 10
    else if 'A' <= c <= 'F' then c as int - 'A' as int + 10
    else -1
  }

  function ParseDigits(s: string, value: nat): Option<nat> {
    if s == "" then Some(value)
    else if HexDigit(s[0]) < 0 then None
    else ParseDigits(s[1..], 16 * value + HexDigit(s[0]))
  }

  /** Integer.parseInt(s, 16); None is NumberFormatException. */
  function ParseHex(s: string): Option<int> {
    var negative := s != "" && s[0] == '-';
    var digits := if negative then s[1..] else s;
    if digits == "" then None
    else match ParseDigits(digits, 0)
      case None => None
      case Some(n) =>
        var magnitude: int := n;
        var v := if negative then -magnitude else magnitude;
        if -0x8000_0000 <= v < 0x8000_0000 then Some(v) else None
  }

  /** What checksum(text, sum) answers. */
  predicate Accepts(text: string, sum: string) {
    ParseHex(sum) == Some(Wrap32(65535 - Fold(CodeSum(text, 0, 0))))
  }

  // ---------- the object ----------

  class ItvLink {
    var url: Option<string>
    var name: Option<string>
    var expires: Option<string>
    var script: Option<string>
    var kind: Option<string>
    var view: Option<string>

    ghost function Value(): Link
      reads this
    {
      Link(url, name, expires, script, kind, view)
    }

    constructor ()
      ensures Value() == EMPTY_LINK
    {
      url, name, expires, script, kind, view := None, None, None, None, None, None;
    }

    method SetURL(u: string)
      modifies this
      ensures Value() == old(Value()).(url := Some(u))
    {
      url := Some(u);
    }

    method SetAttributeFrom(attribute: string) returns (ok: bool)
      modifies this
      ensures ok <==> SetAttribute(old(Value()), attribute).Some?
      ensures Value() == if ok then SetAttribute(old(Value()), attribute).value else old(Value())
    {
      if attribute == "" {
        return false;
      }
      var value := attribute[IndexOf(attribute, ':') + 1..];
      match LowerChar(attribute[0]) {
        case 'n' => name := Some(value);
        case 'e' => expires := Some(value);
        case 's' => script := Some(value);
        case 't' =>
          if |value| > 1 {
            kind := Some(value);
          } else if value == "" {
            return false;
          } else {
            match LowerChar(value[0]) {
              case 'p' => kind := Some("Program");
              case 'n' => kind := Some("Network");
              case 's' => kind := Some("Station");
              case 'o' => kind := Some("Operator");
              case 'a' => kind := Some("Sponsor");
              case _ =>
            }
          }
        case 'v' => view := Some(value);
        case _ =>
      }
      return true;
    }

    method Checksum(text: string, sum: string) returns (ok: bool)
      ensures ok <==> Accepts(text, sum)
    {
      var cs: int := 0;
      var i := 0;
      while i < |text|
        invariant 0 <= i && CodeSum(text, i, cs) == CodeSum(text, 0, 0)
        decreases |text| - i
      {
        if i + 1 < |text| {
          cs := Wrap32(cs + text[i + 1] as int);
        }
        cs := Wrap32(cs + 256 * text[i] as int);
        i := i + 2;
      }
      cs := Wrap32(65535 - Fold(cs));
      ok := ParseHex(sum) == Some(cs);
    }
  }

  // ---------- what the checksum means ----------

  /** Section 1 of RFC 1071: the sum of the 16-bit words, an odd last byte padded with zero. */
  function WordSum(s: string): nat {
    if s == "" then 0
    else if |s| == 1 then 256 * s[0] as int
    else 256 * s[0] as int + s[1] as int + WordSum(s[2..])
  }

  /** End-around carry until the sum fits 16 bits. */
  function FoldAll(n: nat): (r: nat)
    ensures r <= 65535
  {
    if n < 65536 then n else FoldAll(n % 65536 + n / 65536)
  }

  function Rfc1071(s: string): nat { 65535 - FoldAll(WordSum(s)) }

  lemma {:induction false} FoldAllCongruent(n: nat)
    ensures FoldAll(n) % 65535 == n % 65535
    ensures FoldAll(n) == 0 <==> n == 0
  {
    if n >= 65536 {
      FoldAllCongruent(n % 65536 + n / 65536);
      FoldCongruent(n);
    }
  }

  lemma {:induction false} FoldCongruent(n: nat)
    ensures (n % 65536 + n / 65536) % 65535 == n % 65535
  {
    var q, r := n / 65536, n % 65536;
    assert n == 65535 * q + (q + r);
  }

  /** The receiver's test of section 1 of RFC 1071: data plus checksum adds up to all ones. */
  lemma {:induction false} ChecksumAddsUpToOnes(s: string)
    requires WordSum(s) > 0
    ensures FoldAll(WordSum(s) + Rfc1071(s)) == 65535
  {
    hide WordSum, FoldAll;
    var n, f := WordSum(s), FoldAll(WordSum(s));
    FoldAllCongruent(n);
    FoldAllCongruent(n + 65535 - f);
  }

  lemma {:induction false} WrapExact(x: int)
    requires -0x8000_0000 <= x < 0x8000_0000
    ensures Wrap32(x) == x
  {}

  lemma {:induction false} CodeSumIsWordSum(s: string, i: nat, cs: nat)
    requires i <= |s| && cs + WordSum(s[i..]) < 0x8000_0000
    ensures CodeSum(s, i, cs) == cs + WordSum(s[i..])
    decreases |s| - i
  {
    var t := s[i..];
    if |t| >= 2 {
      assert t[0] == s[i] && t[1] == s[i + 1] && t[2..] == s[i + 2..];
      WrapExact(cs + s[i + 1] as int);
      WrapExact(cs + s[i + 1] as int + 256 * s[i] as int);
      CodeSumIsWordSum(s, i + 2, cs + s[i + 1] as int + 256 * s[i] as int);
    } else if |t| == 1 {
      WrapExact(cs + 256 * s[i] as int);
    }
  }

  predicate SevenBit(s: string) { forall i :: 0 <= i < |s| ==> s[i] < '\U{0080}' }

  /** The longest 7-bit text whose sum always fits an int. */
  const LONGEST := 131590

  lemma {:induction false} SevenBitBound(s: string)
    requires SevenBit(s)
    ensures WordSum(s) <= 32639 * ((|s| + 1) / 2)
  {
    if |s| >= 2 { SevenBitBound(s[2..]); }
  }

  lemma {:induction false} ShortSumFits(s: string)
    requires SevenBit(s) && |s| <= LONGEST
    ensures WordSum(s) < 0x8000_0000
  {
    SevenBitBound(s);
  }

  /** The checksum accepts exactly the complement of the sum folded once. */
  lemma {:induction false} AcceptsOneFold(s: string, v: string)
    requires WordSum(s) < 0x8000_0000
    ensures var n := WordSum(s);
      && Accepts(s, v) == (ParseHex(v) == Some(65535 - (n % 65536 + n / 65536)))
      && Fold(CodeSum(s, 0, 0)) % 65535 == n % 65535
  {
    assert s[0..] == s;
    CodeSumIsWordSum(s, 0, 0);
    FoldCongruent(WordSum(s));
    WrapExact(65535 - Fold(WordSum(s)));
  }

  /** One fold is enough exactly when it leaves no carry. */
  predicate FoldsOnce(s: string) { WordSum(s) % 65536 + WordSum(s) / 65536 <= 65535 }

  /** The RFC 1071 checksum is accepted if and only if one fold of the sum is enough. */
  lemma {:induction false} AcceptsRfcIffFoldsOnce(s: string, v: string)
    requires SevenBit(s) && |s| <= LONGEST && ParseHex(v) == Some(Rfc1071(s))
    ensures Accepts(s, v) <==> FoldsOnce(s)
  {
    ShortSumFits(s);
    AcceptsOneFold(s, v);
    var n := WordSum(s);
    FoldAllCongruent(n);
    if n < 65536 {
      assert n / 65536 == 0 && n % 65536 == n;
    } else if FoldsOnce(s) {
      assert FoldAll(n % 65536 + n / 65536) == n % 65536 + n / 65536;
    }
  }

  // ---------- four hexadecimal digits ----------

  function Digit(d: nat): char
    requires d < 16
  {
    if d < 10 then '0' + d as char else 'A' + (d - 10) as char
  }

  function Hex4(n: nat): string
    requires n < 65536
  {
    [Digit(n / 4096), Digit(n / 256 % 16), Digit(n / 16 % 16), Digit(n % 16)]
  }

  lemma {:induction false} DigitRoundTrip(d: nat)
    requires d < 16
    ensures HexDigit(Digit(d)) == d && ('0' <= Digit(d) <= '9' || 'A' <= Digit(d) <= 'F')
  {}

  lemma {:induction false} ParseDigit(d: nat, rest: string, value: nat)
    requires d < 16
    ensures ParseDigits([Digit(d)] + rest, value) == ParseDigits(rest, 16 * value + d)
  {
    DigitRoundTrip(d);
    assert ([Digit(d)] + rest)[1..] == rest;
  }

  lemma {:induction false} ParseFour(a: nat, b: nat, c: nat, d: nat)
    requires a < 16 && b < 16 && c < 16 && d < 16
    ensures ParseDigits([Digit(a), Digit(b), Digit(c), Digit(d)], 0) == Some(4096 * a + 256 * b + 16 * c + d)
  {
    assert ParseDigits("", 4096 * a + 256 * b + 16 * c + d) == Some(4096 * a + 256 * b + 16 * c + d);
    hide ParseDigits, HexDigit, Digit;
    ParseDigit(d, "", 16 * (16 * a + b) + c);
    ParseDigit(c, [Digit(d)], 16 * a + b);
    ParseDigit(b, [Digit(c), Digit(d)], a);
    ParseDigit(a, [Digit(b), Digit(c), Digit(d)], 0);
    assert [Digit(d)] + "" == [Digit(d)];
    assert [Digit(c)] + [Digit(d)] == [Digit(c), Digit(d)];
    assert [Digit(b)] + [Digit(c), Digit(d)] == [Digit(b), Digit(c), Digit(d)];
    assert [Digit(a)] + [Digit(b), Digit(c), Digit(d)] == [Digit(a), Digit(b), Digit(c), Digit(d)];
  }

  lemma {:induction false} Base16(n: nat)
    requires n < 65536
    ensures 4096 * (n / 4096) + 256 * (n / 256 % 16) + 16 * (n / 16 % 16) + n % 16 == n
  {
    assert n / 256 == n / 16 / 16 && n / 4096 == n / 256 / 16;
  }

  lemma {:induction false} HexRoundTrip(n: nat)
    requires n < 65536
    ensures ParseHex(Hex4(n)) == Some(n)
  {
    hide ParseDigits, HexDigit, Hex4, Digit;
    HexIsFour(n);
    DigitRoundTrip(n / 4096);
  }

  lemma {:induction false} HexIsFour(n: nat)
    requires n < 65536
    ensures |Hex4(n)| == 4 && Hex4(n)[0] == Digit(n / 4096) && ParseDigits(Hex4(n), 0) == Some(n)
  {
    hide ParseDigits, HexDigit, Digit;
    Base16(n);
    ParseFour(n / 4096, n / 256 % 16, n / 16 % 16, n % 16);
  }

  lemma {:induction false} WordSumOne(a: char, b: char, rest: string)
    ensures WordSum([a, b] + rest) == 256 * a as int + b as int + WordSum(rest)
  {
    assert ([a, b] + rest)[2..] == rest;
  }

  lemma {:induction false} FoldAllStep(n: nat)
    ensures FoldAll(n) == if n < 65536 then n else FoldAll(n % 65536 + n / 65536)
  {}

  lemma {:induction false} CarrySum()
    ensures WordSum("fffffffffg") == 0x1_FFFF
  {
    hide WordSum;
    var s2 := ['f', 'g'];
    var s4 := ['f', 'f'] + s2;
    var s6 := ['f', 'f'] + s4;
    var s8 := ['f', 'f'] + s6;
    WordSumOne('f', 'g', "");
    WordSumOne('f', 'f', s2);
    WordSumOne('f', 'f', s4);
    WordSumOne('f', 'f', s6);
    WordSumOne('f', 'f', s8);
    assert s2 + "" == s2 && ['f', 'f'] + s8 == "fffffffffg";
    assert WordSum("") == 0 by { NoWords(); }
  }

  lemma {:induction false} NoWords()
    ensures WordSum("") == 0
  {}

  /** The complement of a sum that carries twice is negative, and is accepted with its sign. */
  lemma {:induction false} NegativeIsAccepted()
    ensures Accepts("fffffffffg", "-1")
  {
    hide *;
    CarrySum();
    MinusOne();
    AcceptsFolded("fffffffffg", "-1", 0x1_FFFF);
  }

  lemma {:induction false} AcceptsFolded(s: string, v: string, n: nat)
    requires WordSum(s) == n < 0x8000_0000 && ParseHex(v) == Some(65535 - (n % 65536 + n / 65536))
    ensures Accepts(s, v)
  {
    hide *;
    AcceptsOneFold(s, v);
  }

  lemma {:induction false} MinusOne()
    ensures ParseHex("-1") == Some(-1)
  {
    assert ParseDigits("1", 0) == Some(1) by { assert "1"[1..] == ""; }
    assert "-1"[1..] == "1";
  }

  /** A text whose sum carries twice: its RFC 1071 checksum is refused. */
  lemma {:induction false} SecondCarryIsRefused()
    ensures WordSum("fffffffffg") == 0x1_FFFF && Rfc1071("fffffffffg") == 0xFFFE
    ensures ParseHex(Hex4(0xFFFE)) == Some(Rfc1071("fffffffffg")) && !Accepts("fffffffffg", Hex4(0xFFFE))
  {
    hide WordSum, FoldAll, ParseHex, Hex4, Accepts;
    CarrySum();
    FoldAllStep(0x1_FFFF);
    FoldAllStep(0x1_0000);
    FoldAllStep(1);
    HexRoundTrip(0xFFFE);
    AcceptsRfcIffFoldsOnce("fffffffffg", Hex4(0xFFFE));
  }
}
