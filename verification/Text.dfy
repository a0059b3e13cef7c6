/** Java string operations used by the caption classes, on Dafny strings. */
module Text {

  datatype Option<+T> = None | Some(value: T)

  /** String.indexOf(c, from). */
  function IndexOf(s: string, c: char, from: nat := 0): (i: int)
    ensures -1 <= i < |s|
    ensures i >= 0 ==> from <= i && s[i] == c && (forall k :: from <= k < i ==> s[k] != c)
    ensures i < 0 ==> forall k :: from <= k < |s| ==> s[k] != c
    decreases |s| - from
  {
    if from >= |s| then -1
    else if s[from] == c then from
    else IndexOf(s, c, from + 1)
  }

  /** String.lastIndexOf(c, from): the last position not after from. */
  function LastIndexOf(s: string, c: char, from: int): (i: int)
    requires from < |s|
    ensures -1 <= i < |s|
    ensures i >= 0 ==> i <= from && s[i] == c && (forall k :: i < k <= from ==> s[k] != c)
    ensures i < 0 ==> forall k :: 0 <= k <= from ==> s[k] != c
  {
    if from < 0 then -1
    else if s[from] == c then from
    else LastIndexOf(s, c, from - 1)
  }

  /** Character.toLowerCase; the letters it is compared with have no other upper-case forms. */
  function LowerChar(c: char): char { if 'A' <= c <= 'Z' then c - 'A' + 'a' else c }

  /** String.toLowerCase and toLowerCase of JavaScript, on ASCII. */
  function Lower(s: string): (r: string)
    ensures |r| == |s| && forall k :: 0 <= k < |s| ==> r[k] == LowerChar(s[k])
  {
    seq(|s|, i requires 0 <= i < |s| => LowerChar(s[i]))
  }

  function TrimLeft(s: string): (r: string)
    ensures |r| <= |s| && r == s[|s| - |r|..]
    ensures r != "" ==> r[0] > ' '
  {
    if s != "" && s[0] <= ' ' then TrimLeft(s[1..]) else s
  }

  function TrimRight(s: string): (r: string)
    ensures |r| <= |s| && r == s[..|r|]
    ensures r != "" ==> r[|r| - 1] > ' '
  {
    if s != "" && s[|s| - 1] <= ' ' then TrimRight(s[..|s| - 1]) else s
  }

  /** String.trim(): drops characters up to and including the space at both ends. */
  function Trim(s: string): (r: string)
    ensures |r| <= |s|
    ensures r != "" ==> r[0] > ' ' && r[|r| - 1] > ' '
  {
    TrimRight(TrimLeft(s))
  }

  lemma TrimFixed(s: string)
    requires s != "" ==> s[0] > ' ' && s[|s| - 1] > ' '
    ensures Trim(s) == s
  {}

  /** A trailing space is invisible to trim(). */
  lemma {:induction false} TrimTrailingSpace(s: string)
    ensures Trim(s + " ") == Trim(s)
  {
    if s == "" {
      assert TrimLeft(" ") == TrimLeft(" "[1..]) == "";
      assert s + " " == " ";
    } else if s[0] <= ' ' {
      assert (s + " ")[1..] == s[1..] + " ";
      TrimTrailingSpace(s[1..]);
    } else {
      assert (s + " ")[..|s|] == s;
    }
  }
}
