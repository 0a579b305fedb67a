/**
 The regular expressions of user/grep.c (after Kernighan and Pike, The Practice of Programming,
 chapter 9) and its line buffering.  Texts and patterns are C strings without their NUL.
 */
module Grep {
  import opened Basics

  const BUFSIZE := 1024

  // ---------------------------------------------------------------- what a pattern means

  /** One character, or any number of them; '.' stands for every character. */
  datatype Item = One(c: char) | Star(c: char)

  /** A pattern after a leading '^': its items, and whether '$' ties it to the end of the text. */
  datatype Regex = Regex(items: seq<Item>, end: bool)

  function Parse(re: string): (r: Regex) {
    if |re| == 0 then Regex([], false)
    else if |re| > 1 && re[1] == '*' then
      var rest := Parse(re[2..]);
      Regex([Star(re[0])] + rest.items, rest.end)
    else if re == "$" then Regex([], true)
    else
      var rest := Parse(re[1..]);
      Regex([One(re[0])] + rest.items, rest.end)
  }

  predicate Stands(c: char, x: char) { c == '.' || c == x }

  predicate AllStand(c: char, s: string) { forall i :: 0 <= i < |s| ==> Stands(c, s[i]) }

  /** The language of a sequence of items. */
  ghost predicate Denotes(items: seq<Item>, s: string)
    decreases |items|
  {
    if |items| == 0 then s == ""
    else match items[0]
      case One(c) => |s| > 0 && Stands(c, s[0]) && Denotes(items[1..], s[1..])
      case Star(c) => exists k :: 0 <= k <= |s| && AllStand(c, s[..k]) && Denotes(items[1..], s[k..])
  }

  /** Some beginning of the text is in the language; all of the text if the pattern ends in '$'. */
  ghost predicate Here(re: string, text: string) {
    exists j :: HereTo(Parse(re), text, j)
  }

  ghost predicate HereTo(r: Regex, text: string, j: int) {
    0 <= j <= |text| && (r.end ==> j == |text|) && Denotes(r.items, text[..j])
  }

  /** A line is in the language of a pattern. */
  ghost predicate Matches(re: string, text: string) {
    if |re| > 0 && re[0] == '^' then Here(re[1..], text)
    else exists i :: 0 <= i <= |text| && Here(re, text[i..])
  }

  // ---------------------------------------------------------------- how the meaning unfolds

  lemma HereEmpty(text: string)
    ensures Here("", text)
  {
    assert HereTo(Parse(""), text, 0);
  }

  lemma HereEnd(text: string)
    ensures Here("$", text) <==> text == ""
  {
    var r := Parse("$");
    if text == "" {
      assert HereTo(r, text, 0);
    }
  }

  lemma HereOne(re: string, text: string)
    requires |re| > 0 && !(|re| > 1 && re[1] == '*') && re != "$"
    ensures Here(re, text) <==> |text| > 0 && Stands(re[0], text[0]) && Here(re[1..], text[1..])
  {
    var r, rest := Parse(re), Parse(re[1..]);
    assert r.items[1..] == rest.items;
    if Here(re, text) {
      var j :| HereTo(r, text, j);
      assert text[..j][1..] == text[1..][..j - 1];
      assert HereTo(rest, text[1..], j - 1);
    }
    if |text| > 0 && Stands(re[0], text[0]) && Here(re[1..], text[1..]) {
      var j :| HereTo(rest, text[1..], j);
      assert text[..j + 1][1..] == text[1..][..j];
      assert HereTo(r, text, j + 1);
    }
  }

  lemma HereStar(re: string, text: string)
    requires |re| > 1 && re[1] == '*'
    ensures Here(re, text) <==> exists k :: StarAt(re[0], re[2..], text, k)
  {
    var r, rest := Parse(re), Parse(re[2..]);
    assert r.items[1..] == rest.items;
    if Here(re, text) {
      var j :| HereTo(r, text, j);
      var s := text[..j];
      var k :| 0 <= k <= |s| && AllStand(re[0], s[..k]) && Denotes(rest.items, s[k..]);
      assert s[k..] == text[k..][..j - k] && s[..k] == text[..k];
      assert HereTo(rest, text[k..], j - k);
      assert StarAt(re[0], re[2..], text, k);
    }
    if k :| StarAt(re[0], re[2..], text, k) {
      var j :| HereTo(rest, text[k..], j);
      var s := text[..k + j];
      assert s[k..] == text[k..][..j] && s[..k] == text[..k];
      assert HereTo(r, text, k + j);
    }
  }

  /** k characters that c stands for, then the rest of the pattern. */
  ghost predicate StarAt(c: char, re: string, text: string, k: int) {
    0 <= k <= |text| && AllStand(c, text[..k]) && Here(re, text[k..])
  }

  // ---------------------------------------------------------------- the matcher

  method Match(re: string, text: string) returns (r: bool)
    ensures r <==> Matches(re, text)
  {
    if |re| > 0 && re[0] == '^' {
      r := MatchHere(re[1..], text);
      return;
    }
    var i := 0;
    while true
      invariant 0 <= i <= |text| && forall j :: 0 <= j < i ==> !Here(re, text[j..])
      decreases |text| - i
    {
      r := MatchHere(re, text[i..]);
      if r {
        return true;
      }
      if i == |text| {
        return false;
      }
      i := i + 1;
    }
  }

  method MatchHere(re: string, text: string) returns (r: bool)
    ensures r <==> Here(re, text)
    decreases |re|, |text|, 0
  {
    if |re| == 0 {
      HereEmpty(text);
      return true;
    }
    if |re| > 1 && re[1] == '*' {
      HereStar(re, text);
      r := MatchStar(re[0], re[2..], text);
      return;
    }
    if re[0] == '$' && |re| == 1 {
      assert re == "$";
      HereEnd(text);
      return text == "";
    }
    HereOne(re, text);
    if |text| > 0 && (re[0] == '.' || re[0] == text[0]) {
      r := MatchHere(re[1..], text[1..]);
      return;
    }
    return false;
  }

  method MatchStar(c: char, re: string, text: string) returns (r: bool)
    ensures r <==> exists k :: StarAt(c, re, text, k)
    decreases |re|, |text|, 1
  {
    var i := 0;
    while true
      invariant 0 <= i <= |text| && AllStand(c, text[..i]) && forall k :: 0 <= k < i ==> !StarAt(c, re, text, k)
      decreases |text| - i
    {
      r := MatchHere(re, text[i..]);
      if r {
        assert StarAt(c, re, text, i);
        return true;
      }
      if i == |text| || !(text[i] == c || c == '.') {
        StarStops(c, re, text, i);
        return false;
      }
      i := i + 1;
    }
  }

  /** A star cannot reach beyond the first character it does not stand for. */
  lemma StarStops(c: char, re: string, text: string, i: int)
    requires 0 <= i <= |text| && (i < |text| ==> !Stands(c, text[i]))
    ensures forall k :: i < k ==> !StarAt(c, re, text, k)
  {
    forall k | i < k <= |text|
      ensures !AllStand(c, text[..k])
    {
      assert text[..k][i] == text[i];
    }
  }

  // ---------------------------------------------------------------- lines

  /** The place of the first newline, or the length of the text. */
  function Newline(s: string): (i: nat)
    ensures i <= |s| && (i < |s| ==> s[i] == '\n') && forall j :: 0 <= j < i ==> s[j] != '\n'
  {
    if |s| == 0 || s[0] == '\n' then 0 else 1 + Newline(s[1..])
  }

  /** The newline-terminated lines that match, up to the first line too long for the buffer. */
  ghost function Output(re: string, s: string): (out: string)
    decreases |s|
  {
    var i := Newline(s);
    if i == |s| || i >= BUFSIZE - 1 then ""
    else (if Matches(re, s[..i]) then s[..i + 1] else "") + Output(re, s[i + 1..])
  }

  /** The newline-terminated lines that match. */
  ghost function Selected(re: string, s: string): (out: string)
    decreases |s|
  {
    var i := Newline(s);
    if i == |s| then "" else (if Matches(re, s[..i]) then s[..i + 1] else "") + Selected(re, s[i + 1..])
  }

  /** Every line, also an unterminated last one, has at most 1022 characters. */
  ghost predicate ShortLines(s: string)
    decreases |s|
  {
    var i := Newline(s);
    i <= BUFSIZE - 2 && (i < |s| ==> ShortLines(s[i + 1..]))
  }

  lemma {:induction false} ShortLinesAll(re: string, s: string)
    requires ShortLines(s)
    ensures Output(re, s) == Selected(re, s)
    decreases |s|
  {
    var i := Newline(s);
    if i < |s| {
      ShortLinesAll(re, s[i + 1..]);
    }
  }

  lemma {:induction false} NewlineIn(s: string, t: string)
    requires Newline(s) < |s|
    ensures Newline(s + t) == Newline(s)
  {
    FirstNewline(s + t, Newline(s));
  }

  lemma {:induction false} FirstNewline(s: string, i: nat)
    requires i < |s| && s[i] == '\n' && forall j :: 0 <= j < i ==> s[j] != '\n'
    ensures Newline(s) == i
  {
  }

  lemma LateNewline(s: string, t: string)
    requires Newline(s) == |s|
    ensures Newline(s + t) >= |s|
  {
    assert forall j :: 0 <= j < |s| ==> (s + t)[j] == s[j] && s[j] != '\n';
  }

  /** What is still to be printed after the line that ends at the first newline of s. */
  lemma {:induction false} OutputLine(re: string, s: string, t: string)
    requires Newline(s) < |s| && |s| < BUFSIZE
    ensures var q := Newline(s);
            Output(re, s + t) == (if Matches(re, s[..q]) then s[..q + 1] else "") + Output(re, s[q + 1..] + t)
  {
    var q := Newline(s);
    NewlineIn(s, t);
    assert (s + t)[..q] == s[..q] && (s + t)[..q + 1] == s[..q + 1] && (s + t)[q + 1..] == s[q + 1..] + t;
  }

  /** Nothing more is printed once the input is at its end, or a line does not fit the buffer. */
  lemma {:induction false} OutputDone(re: string, s: string, t: string)
    requires Newline(s) == |s| && (t == "" || |s| == BUFSIZE - 1)
    ensures Output(re, s + t) == ""
  {
    LateNewline(s, t);
    if t == "" {
      assert s + t == s;
    }
  }

  lemma Regroup(a: string, b: string, c: string)
    ensures a + (b + c) == (a + b) + c
  {
  }

  /** strchr for a newline, which also stops at a NUL: the place of the newline, or none. */
  method FindNewline(s: string) returns (found: bool, q: nat)
    ensures found <==> Newline(s) < |s| && NulFree(s[..Newline(s)])
    ensures found ==> q == Newline(s)
  {
    q := 0;
    while q < |s| && s[q] != '\0'
      invariant q <= |s| && NulFree(s[..q]) && forall j :: 0 <= j < q ==> s[j] != '\n'
    {
      if s[q] == '\n' {
        FirstNewline(s, q);
        return true, q;
      }
      q := q + 1;
    }
    found := false;
    assert q < |s| && Newline(s) < |s| ==> s[..Newline(s)][q] == '\0' || Newline(s) == q;
  }

  /** The lines that are complete in the buffer. */
  method PrintLines(re: string, buf: string, ghost t: string) returns (out: string, rest: string)
    requires |buf| < BUFSIZE && NulFree(buf) && NulFree(re)
    ensures NulFree(rest)
    ensures Newline(rest) == |rest| <= |buf| && Output(re, buf + t) == out + Output(re, rest + t)
  {
    hide Output, Matches;
    out := "";
    var p := 0;
    assert buf[0..] == buf;
    while true
      invariant 0 <= p <= |buf| && Output(re, buf + t) == out + Output(re, buf[p..] + t)
      decreases |buf| - p
    {
      var s := buf[p..];
      var found, q := FindNewline(s);
      if !found {
        return out, s;
      }
      OutputLine(re, s, t);
      var r := Match(re, s[..q]);
      var line := if r then s[..q + 1] else "";
      p := p + q + 1;
      assert buf[p..] == s[q + 1..];
      Regroup(out, line, Output(re, buf[p..] + t));
      out := out + line;
    }
  }

  /**
   grep on an input and a pattern without NULs.  `want(k)` is how many bytes the k-th read would return if the
   buffer had room for them.  The output does not depend on it.
   */
  method Grep(re: string, input: string, want: nat -> nat) returns (out: string)
    requires NulFree(re) && NulFree(input)
    ensures out == Output(re, input)
    ensures ShortLines(input) ==> out == Selected(re, input)
  {
    hide Output, Matches, Selected;
    out := "";
    var buf, pos, k := "", 0, 0;
    assert buf + input[pos..] == input;
    while true
      invariant 0 <= pos <= |input| && |buf| < BUFSIZE && Newline(buf) == |buf| && NulFree(buf)
      invariant Output(re, input) == out + Output(re, buf + input[pos..])
      decreases |input| - pos
    {
      var n := ReadSize(want(k), BUFSIZE - |buf| - 1, |input| - pos);
      if n == 0 {
        OutputDone(re, buf, input[pos..]);
        break;
      }
      k := k + 1;
      var m := buf + input[pos..pos + n];
      assert buf + input[pos..] == m + input[pos + n..];
      pos := pos + n;
      var printed;
      printed, buf := PrintLines(re, m, input[pos..]);
      Regroup(out, printed, Output(re, buf + input[pos..]));
      out := out + printed;
    }
    if ShortLines(input) {
      ShortLinesAll(re, input);
    }
  }

  /** read returns between one byte and what is asked for, or none at the end of the file or if none are asked for. */
  function ReadSize(want: nat, room: nat, left: nat): (n: nat)
    ensures n <= room && n <= left && (n == 0 <==> room == 0 || left == 0)
  {
    var n := if want == 0 then 1 else want;
    if room == 0 || left == 0 then 0
    else if n <= room && n <= left then n
    else if room <= left then room
    else left
  }
}
