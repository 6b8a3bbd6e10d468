/** The pattern matcher and the line buffer of riscv/user/grep.c. Patterns and texts are C strings, given
    here without the terminating NUL. */
module Grep {
  import opened Values

  // What patterns mean

  /** The parts of a pattern: one character, any number of one character, or the end of the text. The
      character '.' stands for every character. */
  datatype Item = One(c: char) | Many(c: char) | End

  /** '*' binds to the character before it; '$' is special only as the last character. */
  function Parse(re: string): (q: seq<Item>)
    decreases |re|
  {
    if re == "" then []
    else if |re| >= 2 && re[1] == '*' then [Many(re[0])] + Parse(re[2..])
    else if re == "$" then [End]
    else [One(re[0])] + Parse(re[1..])
  }

  predicate Ok(c: char, x: char) { c == '.' || c == x }

  predicate AllOk(c: char, w: string) { forall i :: 0 <= i < |w| ==> Ok(c, w[i]) }

  /** The word w is one that the item stands for. */
  predicate Fits(item: Item, w: string) {
    match item
    case One(c) => |w| == 1 && Ok(c, w[0])
    case Many(c) => AllOk(c, w)
    case End => w == ""
  }

  function Flatten(parts: seq<string>): (w: string)
    decreases |parts|
  {
    if parts == [] then "" else parts[0] + Flatten(parts[1..])
  }

  /** The text can be cut into one word for each item, up to where the items end: at the end of the text if the
      last item says so. */
  ghost predicate Cut(items: seq<Item>, text: string, parts: seq<string>) {
    && |parts| == |items| && (forall i :: 0 <= i < |items| ==> Fits(items[i], parts[i]))
    && Flatten(parts) <= text
    && (items != [] && items[|items| - 1].End? ==> Flatten(parts) == text)
  }

  ghost predicate StartsWith(items: seq<Item>, text: string) {
    exists parts :: Cut(items, text, parts)
  }

  /** The meaning of a pattern: some part of the text, or its beginning if the pattern starts with '^', is made up as
      the pattern says. */
  ghost predicate Matches(re: string, text: string) {
    if re != "" && re[0] == '^' then StartsWith(Parse(re[1..]), text)
    else exists i :: 0 <= i <= |text| && StartsWith(Parse(re), text[i..])
  }

  // How it follows the pattern

  lemma NoItems(text: string)
    ensures StartsWith([], text)
  {
    assert Cut([], text, []);
  }

  lemma LastOfRest(item: Item, rest: seq<Item>)
    ensures ([item] + rest)[|rest|] == if rest == [] then item else rest[|rest| - 1]
  {
  }

  lemma OneItem(c: char, rest: seq<Item>, text: string)
    ensures StartsWith([One(c)] + rest, text) <==> text != "" && Ok(c, text[0]) && StartsWith(rest, text[1..])
  {
    var items := [One(c)] + rest;
    LastOfRest(One(c), rest);
    if StartsWith(items, text) {
      var parts :| Cut(items, text, parts);
      assert Fits(items[0], parts[0]);
      TailCut(items, text, parts);
      assert text[1..] == text[|parts[0]|..];
    }
    if text != "" && Ok(c, text[0]) && StartsWith(rest, text[1..]) {
      var parts :| Cut(rest, text[1..], parts);
      AddPart(One(c), rest, text, [text[0]], parts);
    }
  }

  lemma ManyItem(c: char, rest: seq<Item>, text: string)
    ensures StartsWith([Many(c)] + rest, text) <==>
              exists j :: 0 <= j <= |text| && AllOk(c, text[..j]) && StartsWith(rest, text[j..])
  {
    var items := [Many(c)] + rest;
    LastOfRest(Many(c), rest);
    if StartsWith(items, text) {
      var parts :| Cut(items, text, parts);
      assert Fits(items[0], parts[0]);
      TailCut(items, text, parts);
      var j := |parts[0]|;
      assert text[..j] == parts[0];
      assert 0 <= j <= |text| && AllOk(c, text[..j]) && StartsWith(rest, text[j..]);
    }
    if exists j :: 0 <= j <= |text| && AllOk(c, text[..j]) && StartsWith(rest, text[j..]) {
      var j :| 0 <= j <= |text| && AllOk(c, text[..j]) && StartsWith(rest, text[j..]);
      var parts :| Cut(rest, text[j..], parts);
      AddPart(Many(c), rest, text, text[..j], parts);
    }
  }

  lemma EndItem(text: string)
    ensures StartsWith([End], text) <==> text == ""
  {
    if StartsWith([End], text) {
      var parts :| Cut([End], text, parts);
      assert parts == [parts[0]] && Fits([End][0], parts[0]);
      assert Flatten(parts) == parts[0] + Flatten(parts[1..]);
    }
    if text == "" {
      assert Flatten([""]) == "" + Flatten([""][1..]);
      assert Cut([End], text, [""]);
    }
  }

  /** Without its first word, a cut is one of the rest of the text. */
  lemma TailCut(items: seq<Item>, text: string, parts: seq<string>)
    requires items != [] && Cut(items, text, parts) && (|items| == 1 ==> !items[0].End?)
    ensures |parts[0]| <= |text| && parts[0] == text[..|parts[0]|]
    ensures Cut(items[1..], text[|parts[0]|..], parts[1..]) && StartsWith(items[1..], text[|parts[0]|..])
  {
    var k := |parts[0]|;
    assert Flatten(parts) == parts[0] + Flatten(parts[1..]);
    assert Flatten(parts)[k..] == Flatten(parts[1..]);
    assert text[..k] == Flatten(parts)[..k] == parts[0];
    forall i | 0 <= i < |items[1..]|
      ensures Fits(items[1..][i], parts[1..][i])
    {
      assert Fits(items[i + 1], parts[i + 1]);
    }
    assert Cut(items[1..], text[k..], parts[1..]);
  }

  lemma AddPart(item: Item, rest: seq<Item>, text: string, w: string, parts: seq<string>)
    requires Fits(item, w) && !item.End? && w <= text && Cut(rest, text[|w|..], parts)
    ensures StartsWith([item] + rest, text)
  {
    var all := [w] + parts;
    assert all[1..] == parts;
    assert Flatten(all) == w + Flatten(parts);
    LastOfRest(item, rest);
    assert Cut([item] + rest, text, all);
  }

  // The matcher

  /** Whether the text starts as the pattern says. */
  method MatchHere(re: string, text: string) returns (b: bool)
    ensures b <==> StartsWith(Parse(re), text)
    decreases |re|, 0
  {
    hide StartsWith;
    if re == "" {
      NoItems(text);
      return true;
    }
    if |re| >= 2 && re[1] == '*' {
      ManyItem(re[0], Parse(re[2..]), text);
      b := MatchStar(re[0], re[2..], text);
      return;
    }
    if re == "$" {
      EndItem(text);
      return text == "";
    }
    OneItem(re[0], Parse(re[1..]), text);
    if text != "" && (re[0] == '.' || re[0] == text[0]) {
      b := MatchHere(re[1..], text[1..]);
      return;
    }
    b := false;
  }

  /** Whether the text starts with any number of c followed by what the pattern says. */
  method MatchStar(c: char, re: string, text: string) returns (b: bool)
    ensures b <==> exists j :: 0 <= j <= |text| && AllOk(c, text[..j]) && StartsWith(Parse(re), text[j..])
    decreases |re|, 1
  {
    hide StartsWith, Parse;
    var k := 0;
    while true
      invariant 0 <= k <= |text| && AllOk(c, text[..k])
      invariant forall j :: 0 <= j < k ==> !StartsWith(Parse(re), text[j..])
      decreases |text| - k
    {
      var here := MatchHere(re, text[k..]);
      if here {
        return true;
      }
      if k == |text| || !(text[k] == c || c == '.') {
        assert forall j :: k < j <= |text| ==> !Ok(c, text[..j][k]);
        return false;
      }
      k := k + 1;
    }
  }

  /** Whether the pattern matches anywhere in the text. */
  method Match(re: string, text: string) returns (b: bool)
    ensures b <==> Matches(re, text)
  {
    hide StartsWith, Parse;
    if re != "" && re[0] == '^' {
      b := MatchHere(re[1..], text);
      return;
    }
    var k := 0;
    while true
      invariant 0 <= k <= |text|
      invariant forall j :: 0 <= j < k ==> !StartsWith(Parse(re), text[j..])
      decreases |text| - k
    {
      var here := MatchHere(re, text[k..]);
      if here {
        return true;
      }
      if k == |text| {
        return false;
      }
      k := k + 1;
    }
  }

  // The line buffer

  const BUFSIZE := 1024

  /** The position of the first newline, or the length if there is none. */
  function FirstLine(s: string): (k: nat)
    ensures k <= |s| && (k < |s| ==> s[k] == '\n') && forall i :: 0 <= i < k ==> s[i] != '\n'
    decreases |s|
  {
    if s == "" then 0 else if s[0] == '\n' then 0 else FirstLine(s[1..]) + 1
  }

  /** The newline-terminated lines of s that the pattern matches. */
  ghost function Selected(re: string, s: string): (r: string)
    decreases |s|
  {
    var k := FirstLine(s);
    if k == |s| then "" else (if Matches(re, s[..k]) then s[..k + 1] else "") + Selected(re, s[k + 1..])
  }

  /** The lines of s up to the first one that does not fit in the buffer with its newline. */
  function Fitting(s: string): (r: string)
    decreases |s|
  {
    var k := FirstLine(s);
    if k == |s| || k + 1 >= BUFSIZE then "" else s[..k + 1] + Fitting(s[k + 1..])
  }

  /** Whole lines: nothing, or something that ends with a newline. */
  predicate Whole(s: string) { s == "" || s[|s| - 1] == '\n' }

  lemma FirstLineOf(a: string, b: string)
    ensures FirstLine(a) < |a| ==> FirstLine(a + b) == FirstLine(a)
    ensures FirstLine(a) == |a| ==> FirstLine(a + b) == |a| + FirstLine(b)
  {
    if FirstLine(a) < |a| {
      LineAt(a + b, FirstLine(a));
    } else if FirstLine(b) < |b| {
      LineAt(a + b, |a| + FirstLine(b));
    } else {
      LateLine(a + b, |a + b|);
    }
  }

  lemma LineAt(s: string, k: nat)
    requires k < |s| && s[k] == '\n' && forall i :: 0 <= i < k ==> s[i] != '\n'
    ensures FirstLine(s) == k
  {
  }

  lemma LateLine(s: string, m: nat)
    requires m <= |s| && forall i :: 0 <= i < m ==> s[i] != '\n'
    ensures FirstLine(s) >= m
  {
  }

  /** Selection works line by line. */
  lemma {:induction false} SelectedJoin(re: string, a: string, b: string)
    requires Whole(a)
    ensures Selected(re, a + b) == Selected(re, a) + Selected(re, b)
    decreases |a|
  {
    hide Matches, FirstLine, Selected;
    if a == "" {
      assert a + b == b;
      EmptyLine();
      NoneSelected(re, a);
    } else {
      WholeHasLine(a);
      FirstLineOf(a, b);
      var k := FirstLine(a);
      JoinSlices(a, b, k);
      SelectedJoin(re, a[k + 1..], b);
      SelectedFirst(re, a);
      SelectedFirst(re, a + b);
    }
  }

  lemma NoneSelected(re: string, s: string)
    requires FirstLine(s) == |s|
    ensures Selected(re, s) == ""
  {
    hide Matches, FirstLine;
  }

  lemma SelectedFirst(re: string, s: string)
    requires FirstLine(s) < |s|
    ensures var k := FirstLine(s);
            Selected(re, s) == (if Matches(re, s[..k]) then s[..k + 1] else "") + Selected(re, s[k + 1..])
  {
    hide Matches, FirstLine;
  }

  lemma EmptyLine()
    ensures FirstLine("") == 0
  {
  }

  lemma WholeHasLine(a: string)
    requires a != "" && Whole(a)
    ensures FirstLine(a) < |a| && Whole(a[FirstLine(a) + 1..])
  {
    hide FirstLine;
    assert FirstLine(a) < |a|;
    var rest := a[FirstLine(a) + 1..];
    assert rest != "" ==> rest[|rest| - 1] == a[|a| - 1];
  }

  lemma JoinSlices(a: string, b: string, k: nat)
    requires k < |a|
    ensures (a + b)[..k] == a[..k] && (a + b)[..k + 1] == a[..k + 1] && (a + b)[k + 1..] == a[k + 1..] + b
  {
  }

  /** The position after p of the first c in a C string, or -1. */
  method StrChr(buf: string, p: nat, c: char) returns (q: int)
    requires p < |buf| && (exists e :: p <= e < |buf| && buf[e] == '\0') && c != '\0'
    ensures q == -1 || p <= q < |buf|
    ensures q >= 0 ==> buf[q] == c && forall i :: p <= i < q ==> buf[i] != c && buf[i] != '\0'
    ensures q == -1 ==> exists e :: p <= e < |buf| && buf[e] == '\0' && forall i :: p <= i < e ==>
              buf[i] != c && buf[i] != '\0'
  {
    var k := p;
    while buf[k] != '\0'
      invariant p <= k < |buf| && forall i :: p <= i < k ==> buf[i] != c && buf[i] != '\0'
      invariant exists e :: k <= e < |buf| && buf[e] == '\0'
      decreases |buf| - k
    {
      if buf[k] == c {
        return k;
      }
      k := k + 1;
    }
    q := -1;
  }

  /** The C string at p. */
  method CString(buf: string, p: nat, ghost e: nat) returns (t: string)
    requires p <= e < |buf| && buf[e] == '\0' && forall i :: p <= i < e ==> buf[i] != '\0'
    ensures t == buf[p..e]
  {
    var k := p;
    while buf[k] != '\0'
      invariant p <= k <= e
      decreases e - k
    {
      k := k + 1;
    }
    t := buf[p..k];
  }

  /** What has been dealt with so far: whole lines that fit, of which the selected ones have been written. */
  ghost predicate Progress(re: string, input: string, done: nat, out: string) {
    && done <= |input| && Whole(input[..done]) && out == Selected(re, input[..done])
    && Fitting(input) == input[..done] + Fitting(input[done..])
  }

  lemma SliceOfSlice(s: string, i: nat, j: nat)
    requires i + j <= |s|
    ensures s[i..][..j] == s[i..i + j] && s[i..][j..] == s[i + j..]
    ensures s[..i + j] == s[..i] + s[i..i + j]
    ensures j > 0 ==> s[i..i + j][..j - 1] == s[i..i + j - 1]
  {
  }

  /** One more line has been dealt with. */
  lemma NextLine(re: string, input: string, done: nat, k: nat, out: string, hit: bool)
    requires Progress(re, input, done, out) && done + k < |input| && k + 1 < BUFSIZE
    requires input[done + k] == '\n' && (forall i :: done <= i < done + k ==> input[i] != '\n')
    requires hit <==> Matches(re, input[done..done + k])
    ensures Progress(re, input, done + k + 1, if hit then out + input[done..done + k + 1] else out)
  {
    hide Matches, FirstLine, Fitting, Selected;
    var rest, line := input[done..], input[done..done + k + 1];
    SliceOfSlice(input, done, k + 1);
    SelectedJoin(re, input[..done], line);
    SelectedLine(re, line, k);
    LineAt(rest, k);
    FittingLine(rest, k);
    assert Fitting(input) == input[..done] + (line + Fitting(input[done + k + 1..]));
  }

  lemma SelectedLine(re: string, line: string, k: nat)
    requires |line| == k + 1 && line[k] == '\n' && forall i :: 0 <= i < k ==> line[i] != '\n'
    ensures Selected(re, line) == if Matches(re, line[..k]) then line else ""
  {
    hide Matches, FirstLine;
    LineAt(line, k);
    EmptyLine();
    assert line[k + 1..] == "" && line[..k + 1] == line;
  }

  lemma FittingLine(s: string, k: nat)
    requires FirstLine(s) == k && k < |s| && k + 1 < BUFSIZE
    ensures Fitting(s) == s[..k + 1] + Fitting(s[k + 1..])
  {
    hide FirstLine;
  }

  /** Nothing more is dealt with: what is left has no newline, or its first line does not fit. */
  lemma NothingMore(re: string, input: string, done: nat, m: nat, out: string)
    requires Progress(re, input, done, out) && done + m <= |input|
    requires forall i :: done <= i < done + m ==> input[i] != '\n'
    requires done + m == |input| || m == BUFSIZE - 1
    ensures out == Selected(re, Fitting(input))
  {
    hide Matches;
    var rest := input[done..];
    LateLine(rest, m);
    assert Fitting(rest) == "";
    assert Fitting(input) == input[..done];
  }

  /** The buffer with the bytes q at position i. */
  function Overwrite(buf: string, i: nat, q: string): (r: string)
    requires i + |q| <= |buf|
    ensures |r| == |buf| && r[..i] == buf[..i] && r[i..i + |q|] == q && r[i + |q|..] == buf[i + |q|..]
  {
    buf[..i] + q + buf[i + |q|..]
  }

  /** The lines of the file that the pattern matches, however the reads split it: each read may return any number of
      bytes that fits and is left. */
  method Grep(re: string, input: string, buf0: string) returns (out: string)
    requires |buf0| == BUFSIZE && NulFree(input)
    ensures out == Selected(re, Fitting(input))
  {
    hide Selected, Fitting, Matches, Progress;
    var buf, m: nat, pos: nat := buf0, 0, 0;
    out := "";
    ghost var done: nat := 0;
    NothingYet(re, input);
    while true
      invariant |buf| == BUFSIZE && 0 <= m < BUFSIZE && pos == done + m <= |input| && buf[..m] == input[done..pos]
      invariant Progress(re, input, done, out) && (forall i :: done <= i < pos ==> input[i] != '\n')
      decreases |input| - pos
    {
      var room, left := BUFSIZE - m - 1, |input| - pos;
      if room == 0 || left == 0 {
        NothingMore(re, input, done, m, out);
        return;
      }
      var n :| 1 <= n <= room && n <= left;
      buf := Overwrite(buf, m, input[pos..pos + n]);
      pos := pos + n;
      m := m + n;
      assert buf[..m] == buf[..m - n] + buf[m - n..m];
      assert input[done..pos] == input[done..pos - n] + input[pos - n..pos];
      buf := buf[m := '\0'];
      var p;
      out, buf, p, done := Lines(re, input, buf, m, done, pos, out);
      m := m - p;
      buf := Overwrite(buf, 0, buf[p..p + m]);
    }
  }

  lemma NothingYet(re: string, input: string)
    ensures Progress(re, input, 0, "")
  {
    hide Matches, FirstLine;
    EmptyLine();
    assert input[..0] == "" && input[0..] == input;
  }

  /** A stretch of the buffer and the part of the input that it holds. */
  lemma SameBytes(buf: string, p: nat, e: nat, input: string, d: nat)
    requires p <= e <= |buf| && d + e <= |input| && forall i :: p <= i < e ==> buf[i] == input[d + i]
    ensures buf[p..e] == input[d + p..d + e]
    ensures (forall i :: p <= i < e ==> buf[i] != '\n') ==> forall i :: d + p <= i < d + e ==> input[i] != '\n'
  {
    forall i | d + p <= i < d + e
      ensures input[i] == buf[i - d]
    {
      assert buf[i - d] == input[d + (i - d)];
    }
  }

  /** The inner loop: deals with the whole lines in the buffer and returns where they end. */
  method Lines(re: string, ghost input: string, buf0: string, m: nat, ghost done0: nat, ghost pos: nat, out0: string)
    returns (out: string, buf: string, p: nat, ghost done: nat)
    requires |buf0| == BUFSIZE && m < BUFSIZE && pos == done0 + m <= |input| && NulFree(input)
    requires buf0[..m] == input[done0..pos] && buf0[m] == '\0' && Progress(re, input, done0, out0)
    ensures |buf| == BUFSIZE && p <= m && done == done0 + p && buf[p..m] == input[done..pos]
    ensures Progress(re, input, done, out) && (forall i :: done <= i < pos ==> input[i] != '\n')
  {
    hide Selected, Fitting, Matches, Progress;
    out, buf, p, done := out0, buf0, 0, done0;
    while true
      invariant |buf| == BUFSIZE && 0 <= p <= m && done == done0 + p && buf[m] == '\0'
      invariant forall i :: p <= i < m ==> buf[i] == input[done0 + i]
      invariant Progress(re, input, done, out)
      decreases m - p
    {
      var q := StrChr(buf, p, '\n');
      if q == -1 {
        SameBytes(buf, p, m, input, done0);
        break;
      }
      assert q < m;
      SameBytes(buf, p, q, input, done0);
      assert buf[q] == input[done0 + q];
      buf := buf[q := '\0'];
      var line := CString(buf, p, q);
      var b := Match(re, line);
      NextLine(re, input, done, q - p, out, b);
      if b {
        buf := buf[q := '\n'];
        SameBytes(buf, p, q + 1, input, done0);
        out := out + buf[p..q + 1];
      }
      p := q + 1;
      done := done0 + q + 1;
    }
  }

  /** Every newline-terminated line fits in the buffer with its newline. */
  predicate LinesFit(s: string)
    decreases |s|
  {
    var k := FirstLine(s);
    k < |s| ==> k + 1 < BUFSIZE && LinesFit(s[k + 1..])
  }

  lemma WholeJoin(s: string, k: nat, f: string)
    requires 0 < k <= |s| && s[k - 1] == '\n' && f <= s[k..] && Whole(f)
    ensures s[..k] + f <= s && Whole(s[..k] + f)
  {
    assert s == s[..k] + s[k..];
  }

  lemma {:induction false} FittingPrefix(s: string)
    ensures Fitting(s) <= s && Whole(Fitting(s))
    ensures LinesFit(s) <==> FirstLine(s[|Fitting(s)|..]) == |s[|Fitting(s)|..]|
    decreases |s|
  {
    hide FirstLine;
    var k := FirstLine(s);
    if k == |s| || k + 1 >= BUFSIZE {
      assert s[0..] == s;
    } else {
      var rest := s[k + 1..];
      FittingPrefix(rest);
      var f := Fitting(rest);
      FittingLine(s, k);
      SliceOfSlice(s, k + 1, |f|);
      WholeJoin(s, k + 1, f);
    }
  }

  /** Exactly which output is lost: that of the lines from the first one on that does not fit. */
  lemma SelectedFitting(re: string, s: string)
    ensures Fitting(s) <= s
    ensures Selected(re, s) == Selected(re, Fitting(s)) + Selected(re, s[|Fitting(s)|..])
  {
    hide Matches, FirstLine, Fitting, Selected, LinesFit;
    FittingPrefix(s);
    assert s == Fitting(s) + s[|Fitting(s)|..];
    SelectedJoin(re, Fitting(s), s[|Fitting(s)|..]);
  }

  /** When all lines fit, grep writes all lines that match and nothing else. */
  lemma AllLinesSelected(re: string, s: string)
    requires LinesFit(s)
    ensures Selected(re, Fitting(s)) == Selected(re, s)
  {
    hide Matches, FirstLine, Fitting, LinesFit;
    SelectedFitting(re, s);
    FittingPrefix(s);
    var rest := s[|Fitting(s)|..];
    assert Selected(re, rest) == "";
  }

  /** The empty pattern matches every line. */
  lemma EmptyPattern(text: string)
    ensures Matches("", text)
  {
    NoItems(text[0..]);
  }

  lemma LineLost(s: string)
    requires FirstLine(s) < |s|
    ensures Selected("", s) != ""
  {
    hide Matches, FirstLine;
    EmptyPattern(s[..FirstLine(s)]);
  }

  /** grep writes all lines that match, for every pattern, exactly when all lines fit in the buffer. */
  lemma CompleteWhenLinesFit(s: string)
    ensures (forall re :: Selected(re, Fitting(s)) == Selected(re, s)) <==> LinesFit(s)
  {
    hide Matches, FirstLine, Fitting, Selected, LinesFit;
    if LinesFit(s) {
      forall re
        ensures Selected(re, Fitting(s)) == Selected(re, s)
      {
        AllLinesSelected(re, s);
      }
    } else {
      FittingPrefix(s);
      SelectedFitting("", s);
      LineLost(s[|Fitting(s)|..]);
      assert Selected("", Fitting(s)) != Selected("", s);
    }
  }

  /** A line of 1023 characters and its newline: the empty pattern matches it, and grep writes nothing. */
  lemma LongLineIsLost(s: string)
    requires s == seq(BUFSIZE - 1, _ => 'a') + "\n"
    ensures !LinesFit(s) && Selected("", s) == s && Selected("", Fitting(s)) == ""
  {
    hide Matches;
    LineAt(s, BUFSIZE - 1);
    EmptyLine();
    SelectedLine("", s, BUFSIZE - 1);
    EmptyPattern(s[..BUFSIZE - 1]);
  }
}
