/** The shell's parser on its input buffer (riscv/user/sh.c:271-499): the lexer, the routines that advance
    the cursor, and nulterminate(), which writes NULs into the buffer. */
module Shell {
  import opened ShellGrammar
  import opened Values
  import ShellSyntax

  predicate IsSpace(c: char) { c == ' ' || c == '\t' || c == '\r' || c == '\n' || c == '\U{0B}' }

  predicate IsSymbol(c: char) { c == '<' || c == '|' || c == '>' || c == '&' || c == ';' || c == '(' || c == ')' }

  predicate InWord(c: char) { !IsSpace(c) && !IsSymbol(c) }

  /** A piece s[q..eq] of the buffer. */
  datatype Span = Span(q: nat, eq: nat)

  // Tokens of a text

  function Skip(s: string, p: nat): (r: nat)
    requires p <= |s|
    ensures p <= r <= |s| && (r < |s| ==> !IsSpace(s[r])) && forall i :: p <= i < r ==> IsSpace(s[i])
    decreases |s| - p
  {
    if p < |s| && IsSpace(s[p]) then Skip(s, p + 1) else p
  }

  function WordEnd(s: string, p: nat): (r: nat)
    requires p <= |s|
    ensures p <= r <= |s| && (r < |s| ==> !InWord(s[r])) && forall i :: p <= i < r ==> InWord(s[i])
    decreases |s| - p
  {
    if p < |s| && InWord(s[p]) then WordEnd(s, p + 1) else p
  }

  function Kind(s: string, p: nat): (k: char)
    requires p < |s| && !IsSpace(s[p])
  {
    if !IsSymbol(s[p]) then 'a' else if s[p] == '>' && p + 1 < |s| && s[p + 1] == '>' then '+' else s[p]
  }

  function TokEnd(s: string, p: nat): (r: nat)
    requires p < |s| && !IsSpace(s[p])
    ensures p < r <= |s|
  {
    if !IsSymbol(s[p]) then WordEnd(s, p) else if s[p] == '>' && p + 1 < |s| && s[p + 1] == '>' then p + 2 else p + 1
  }

  /** The tokens of s from position p on. */
  function Lex(s: string, p: nat): (ts: seq<Tok<Span>>)
    requires p <= |s|
    decreases |s| - p
  {
    var q := Skip(s, p);
    if q == |s| then [] else [Tok(Kind(s, q), Span(q, TokEnd(s, q)))] + Lex(s, TokEnd(s, q))
  }

  lemma {:induction false} SkipTwice(s: string, p: nat, q: nat)
    requires p <= |s| && p <= q <= Skip(s, p)
    ensures q <= |s| && Skip(s, q) == Skip(s, p)
    decreases |s| - p
  {
    if p < q {
      SkipTwice(s, p + 1, q);
    }
  }

  lemma LexSkips(s: string, p: nat, q: nat)
    requires p <= |s| && p <= q <= Skip(s, p)
    ensures Lex(s, q) == Lex(s, p)
  {
    SkipTwice(s, p, q);
  }

  // The cursor

  class Parser {
    const s: string
    var pos: nat

    ghost predicate Valid()
      reads this
    {
      pos <= |s|
    }

    constructor (text: string)
      ensures Valid() && s == text && pos == 0
    {
      s := text;
      pos := 0;
    }

    ghost function Rest(): (ts: seq<Tok<Span>>)
      requires Valid()
      reads this
    {
      Lex(s, pos)
    }

    /** The loops of gettoken() and peek() over whitespace. */
    method SkipSpace()
      requires Valid()
      modifies this
      ensures Valid() && pos == Skip(s, old(pos)) && Rest() == old(Rest())
    {
      var p := pos;
      while p < |s| && IsSpace(s[p])
        invariant pos <= p <= Skip(s, pos) && pos == old(pos)
      {
        p := p + 1;
      }
      LexSkips(s, pos, p);
      pos := p;
    }

    /** The next token; its kind is NUL at the end of the text. */
    method GetToken() returns (kind: char, at: Span)
      requires Ready()
      modifies this
      ensures Valid()
      ensures old(Rest()) == [] ==> kind == '\0' && Rest() == []
      ensures old(Rest()) != [] ==> kind != '\0' && old(Rest()) == [Tok(kind, at)] + Rest()
    {
      SkipSpace();
      var q := pos;
      if q == |s| {
        return '\0', Span(q, q);
      }
      var c := s[q];
      var e := q + 1;
      kind := c;
      if c == '>' {
        if e < |s| && s[e] == '>' {
          kind := '+';
          e := e + 1;
        }
      } else if !IsSymbol(c) {
        kind := 'a';
        e := q;
        while e < |s| && !IsSpace(s[e]) && !IsSymbol(s[e])
          invariant q <= e <= WordEnd(s, q)
        {
          e := e + 1;
        }
      }
      at := Span(q, e);
      pos := e;
      SkipSpace();
    }

    /** Whether the next token starts with one of the characters. */
    method Peek(toks: string) returns (b: bool)
      requires Valid()
      modifies this
      ensures Valid() && Rest() == old(Rest()) && Skip(s, pos) == pos
      ensures b <==> Rest() != [] && s[Rest()[0].word.q] in toks
    {
      SkipSpace();
      b := pos < |s| && s[pos] in toks;
    }

    ghost predicate Ready()
      reads this
    {
      Valid() && NulFree(s)
    }

    /** Redirections after what has been parsed; None is the shell's panic. */
    method ParseRedirs() returns (r: Option<seq<Redirect<Span>>>)
      requires Ready()
      modifies this
      ensures Ready()
      ensures var f := ShellGrammar.ParseRedirs(old(Rest()));
              (r.Some? <==> f.Redirects?) && (r.Some? ==> f == Redirects(r.value, Rest()))
    {
      hide Lex, NulFree;
      var list: seq<Redirect<Span>> := [];
      ghost var ts0 := Rest();
      while true
        invariant Ready()
        invariant var f, g := ShellGrammar.ParseRedirs(ts0), ShellGrammar.ParseRedirs(Rest());
                  (f.Redirects? <==> g.Redirects?) && (f.Redirects? ==> f == Redirects(list + g.list, g.rest))
        decreases |Rest()|
      {
        var b := Peek("<>");
        PeekRedirect(s, pos);
        if !b {
          assert list + [] == list;
          return Some(list);
        }
        ghost var ts := Rest();
        var op, _ := GetToken();
        ghost var ts1 := Rest();
        var kind, file := GetToken();
        assert ts[1..] == ts1;
        if kind != 'a' {
          return None;
        }
        assert ts[2..] == Rest() && ts[1] == Tok('a', file);
        list := list + [Redirect(op, file)];
        RedirectAdded(list, ShellGrammar.ParseRedirs(Rest()));
      }
    }

    /** A simple command, or a command in parentheses. */
    method ParseExec() returns (r: Option<Cmd<Span>>)
      requires Ready()
      modifies this
      ensures Ready()
      ensures var f := ShellGrammar.ParseExec(old(Rest()));
                (r.Some? <==> f.Ok?) && (r.Some? ==> f == Ok(r.value, Rest()))
      decreases |Rest()|, 0
    {
      hide Lex, NulFree, ShellGrammar.ParseRedirs, ShellGrammar.ParseArgs, ShellGrammar.ParseLine, Wrap;
      var b := Peek("(");
      PeekKind(s, pos, '(');
      if b {
        r := ParseBlock();
        return;
      }
      var first := ParseRedirs();
      if first.None? {
        return None;
      }
      r := ParseArgs(first.value);
    }

    /** The loop of parseexec() over the arguments, after the redirections in list. */
    method ParseArgs(list0: seq<Redirect<Span>>) returns (r: Option<Cmd<Span>>)
      requires Ready()
      modifies this
      ensures Ready()
      ensures var f := ShellGrammar.ParseArgs(old(Rest()), [], list0);
              (r.Some? <==> f.Ok?) && (r.Some? ==> f == Ok(r.value, Rest()))
    {
      hide Lex, NulFree, ShellGrammar.ParseRedirs, Wrap;
      var argv: seq<Span>, list := [], list0;
      ghost var ts0 := Rest();
      while true
        invariant Ready() && |argv| < MAXARGS
        invariant ShellGrammar.ParseArgs(ts0, [], list0) == ShellGrammar.ParseArgs(Rest(), argv, list)
        decreases |Rest()|
      {
        var b := Peek("|)&;");
        PeekStop(s, pos);
        if b {
          break;
        }
        ghost var ts := Rest();
        var tok, at := GetToken();
        if tok == '\0' {
          break;
        }
        assert ts[1..] == Rest();
        if tok != 'a' {
          return None;
        }
        argv := argv + [at];
        if |argv| >= MAXARGS {
          return None;
        }
        var more := ParseRedirs();
        if more.None? {
          return None;
        }
        list := list + more.value;
      }
      r := Some(Wrap(Exec(argv), list));
    }

    /** A line in parentheses and its redirections. */
    method ParseBlock() returns (r: Option<Cmd<Span>>)
      requires Ready() && At(Rest(), '(')
      modifies this
      ensures Ready()
      ensures var f := ShellGrammar.ParseExec(old(Rest()));
                (r.Some? <==> f.Ok?) && (r.Some? ==> f == Ok(r.value, Rest()))
      decreases |Rest()|, 0, 0
    {
      hide Lex, NulFree, ShellGrammar.ParseRedirs, ShellGrammar.ParseArgs, ShellGrammar.ParseLine, Wrap;
      ghost var ts := Rest();
      var _, _ := GetToken();
      assert ts[1..] == Rest();
      var line := ParseLine();
      if line.None? {
        return None;
      }
      var b := Peek(")");
      PeekKind(s, pos, ')');
      if !b {
        return None;
      }
      ghost var ts1 := Rest();
      var _, _ := GetToken();
      assert ts1[1..] == Rest();
      var more := ParseRedirs();
      if more.None? {
        return None;
      }
      r := Some(Wrap(line.value, more.value));
    }

    /** Commands joined by '|'. */
    method ParsePipe() returns (r: Option<Cmd<Span>>)
      requires Ready()
      modifies this
      ensures Ready()
      ensures var f := ShellGrammar.ParsePipe(old(Rest()));
                (r.Some? <==> f.Ok?) && (r.Some? ==> f == Ok(r.value, Rest()))
      decreases |Rest()|, 1
    {
      hide Lex, NulFree, ShellGrammar.ParseExec;
      var left := ParseExec();
      if left.None? {
        return None;
      }
      var b := Peek("|");
      PeekKind(s, pos, '|');
      if !b {
        return left;
      }
      ghost var ts := Rest();
      var _, _ := GetToken();
      assert ts[1..] == Rest();
      var right := ParsePipe();
      if right.None? {
        return None;
      }
      r := Some(Pipe(left.value, right.value));
    }

    /** Pipes with '&' after them, joined by ';'. */
    method ParseLine() returns (r: Option<Cmd<Span>>)
      requires Ready()
      modifies this
      ensures Ready()
      ensures var f := ShellGrammar.ParseLine(old(Rest()));
                (r.Some? <==> f.Ok?) && (r.Some? ==> f == Ok(r.value, Rest()))
      decreases |Rest()|, 2
    {
      hide Lex, NulFree, ShellGrammar.ParsePipe;
      ghost var ts0 := Rest();
      var first := ParsePipe();
      if first.None? {
        return None;
      }
      var c := first.value;
      ghost var ts1 := Rest();
      var b := Peek("&");
      PeekKind(s, pos, '&');
      while b
        invariant Ready() && |Rest()| <= |ts1|
        invariant ParseBacks(c, Rest()) == ParseBacks(first.value, ts1)
        invariant b <==> At(Rest(), '&')
        decreases |Rest()|
      {
        ghost var ts := Rest();
        var _, _ := GetToken();
        assert ts[1..] == Rest();
        c := Back(c);
        b := Peek("&");
        PeekKind(s, pos, '&');
      }
      b := Peek(";");
      PeekKind(s, pos, ';');
      if !b {
        return Some(c);
      }
      ghost var ts := Rest();
      var _, _ := GetToken();
      assert ts[1..] == Rest();
      var right := ParseLine();
      if right.None? {
        return None;
      }
      r := Some(List(c, right.value));
    }

    /** The whole text, or None if the shell panics. */
    method ParseCmd() returns (r: Option<Cmd<Span>>)
      requires Ready() && pos == 0
      modifies this
      ensures Ready()
      ensures var f := ShellGrammar.ParseCmd(Lex(s, 0)); (r.Some? <==> f.Ok?) && (r.Some? ==> f == Ok(r.value, []))
    {
      hide NulFree, ShellGrammar.ParseLine;
      var line := ParseLine();
      if line.None? {
        return None;
      }
      var _ := Peek("");
      if pos != |s| {
        return None;
      }
      r := line;
    }
  }

  lemma RedirectAdded(list: seq<Redirect<Span>>, g: Redirects<Span>)
    requires list != []
    ensures g.Redirects? ==> list[..|list| - 1] + ([list[|list| - 1]] + g.list) == list + g.list
  {
  }

  /** The first character of a token tells its kind. */
  lemma PeekRedirect(s: string, p: nat)
    requires p <= |s|
    ensures Lex(s, p) != [] ==> Lex(s, p)[0].word.q < |s| && (s[Lex(s, p)[0].word.q] in "<>" <==> AtRedirect(Lex(s, p)))
    ensures Lex(s, p) == [] ==> !AtRedirect(Lex(s, p))
  {
  }

  lemma PeekKind(s: string, p: nat, c: char)
    requires p <= |s| && (c == '|' || c == ')' || c == '&' || c == ';' || c == '(')
    ensures Lex(s, p) != [] ==> Lex(s, p)[0].word.q < |s| && (s[Lex(s, p)[0].word.q] == c <==> At(Lex(s, p), c))
  {
  }

  lemma PeekStop(s: string, p: nat)
    requires p <= |s|
    ensures Lex(s, p) != [] ==> Lex(s, p)[0].word.q < |s| && (s[Lex(s, p)[0].word.q] in "|)&;" <==> AtStop(Lex(s, p)))
    ensures Lex(s, p) == [] ==> !AtStop(Lex(s, p))
  {
  }

  // Printing to text and back

  function Text(t: Tok<string>): (w: string) { if t.kind == 'a' then t.word else if t.kind == '+' then ">>"
      else [t.kind] }

  /** The tokens as text: gaps[i] before token i, and the last gap at the end. */
  function Render(ts: seq<Tok<string>>, gaps: seq<string>): (w: string)
    requires |gaps| == |ts| + 1
    decreases |ts|
  {
    if ts == [] then gaps[0] else gaps[0] + (Text(ts[0]) + Render(ts[1..], gaps[1..]))
  }

  const BLANKS: string := " \t\r\n\U{0B}"

  const SYMBOLS: string := "<|>&;()"

  predicate IsBlank(w: string) { forall i :: 0 <= i < |w| ==> w[i] in BLANKS }

  predicate Blanks(gaps: seq<string>) { forall i :: 0 <= i < |gaps| ==> IsBlank(gaps[i]) }

  /** Two tokens that the lexer would read as another one if nothing stood between them. */
  predicate NeedsGap(t: Tok<string>, u: Tok<string>) {
    (t.kind == 'a' && u.kind == 'a') || (t.kind == '>' && (u.kind == '>' || u.kind == '+'))
  }

  predicate Apart(ts: seq<Tok<string>>, gaps: seq<string>)
    requires |gaps| == |ts| + 1
  {
    forall i :: 0 < i < |ts| && NeedsGap(ts[i - 1], ts[i]) ==> gaps[i] != ""
  }

  lemma BlankSpaces(w: string)
    requires IsBlank(w)
    ensures forall i :: 0 <= i < |w| ==> IsSpace(w[i])
  {
  }

  /** Words that the lexer takes for one word. */
  predicate IsWord(w: string) { w != "" && forall i :: 0 <= i < |w| ==> w[i] !in BLANKS && w[i] !in SYMBOLS }

  predicate GoodTok(t: Tok<string>) {
    if t.kind == 'a' then IsWord(t.word) else t.word == "" && (t.kind == '+' || t.kind in SYMBOLS)
  }

  predicate GoodToks(ts: seq<Tok<string>>) { forall i :: 0 <= i < |ts| ==> GoodTok(ts[i]) }

  /** What a token with its place in the text says. */
  function Named(s: string, t: Tok<Span>): (r: Tok<string>) {
    Tok(t.kind, if t.kind == 'a' then Piece(s, t.word) else "")
  }

  function Piece(s: string, sp: Span): (w: string) { if sp.q <= sp.eq <= |s| then s[sp.q..sp.eq] else "" }

  function NamedToks(s: string, ts: seq<Tok<Span>>): (r: seq<Tok<string>>)
    ensures |r| == |ts| && forall i :: 0 <= i < |ts| ==> r[i] == Named(s, ts[i])
    decreases |ts|
  {
    if ts == [] then [] else [Named(s, ts[0])] + NamedToks(s, ts[1..])
  }

  /** The character c, coming right after the token t, does not belong to it. */
  predicate Ends(t: Tok<string>, c: char) { (t.kind == 'a' ==> !InWord(c)) && (t.kind == '>' ==> c != '>') }

  /** One token at position p. */
  lemma LexOne(s: string, p: nat, t: Tok<string>)
    requires GoodTok(t) && p + |Text(t)| <= |s| && s[p..p + |Text(t)|] == Text(t)
    ensures p < |s| && !IsSpace(s[p]) && Lex(s, p) != []
    ensures var n := p + |Text(t)|;
            if n < |s| && !Ends(t, s[n]) then Named(s, Lex(s, p)[0]) != t
            else Named(s, Lex(s, p)[0]) == t && Lex(s, p)[1..] == Lex(s, n)
  {
    hide Lex;
    var n := |Text(t)|;
    TextStarts(t);
    forall i | 0 <= i < n
      ensures s[p + i] == Text(t)[i]
    {
      assert s[p..p + n][i] == s[p + i];
    }
    assert s[p + 0] == Text(t)[0];
    assert n >= 2 ==> s[p + 1] == Text(t)[1];
    assert Skip(s, p) == p;
    LexFrom(s, p);
    if p + n < |s| && !Ends(t, s[p + n]) {
      if t.kind == 'a' {
        WordPast(s, p, p + n);
      }
    } else {
      if t.kind == 'a' {
        WordAt(s, p, p + n);
      }
      assert TokEnd(s, p) == p + n && Kind(s, p) == t.kind;
    }
  }

  lemma TextStarts(t: Tok<string>)
    requires GoodTok(t)
    ensures Text(t) != "" && !IsSpace(Text(t)[0]) && (t.kind == 'a' <==> !IsSymbol(Text(t)[0]))
  {
  }

  lemma {:induction false} WordAt(s: string, p: nat, e: nat)
    requires p <= e <= |s| && (forall i :: p <= i < e ==> InWord(s[i])) && (e < |s| ==> !InWord(s[e]))
    ensures WordEnd(s, p) == e
    decreases e - p
  {
    if p < e {
      WordAt(s, p + 1, e);
    }
  }

  lemma {:induction false} WordPast(s: string, p: nat, e: nat)
    requires p <= e < |s| && forall i :: p <= i <= e ==> InWord(s[i])
    ensures WordEnd(s, p) > e
    decreases e - p
  {
    if p < e {
      WordPast(s, p + 1, e);
    }
  }

  lemma LexFrom(s: string, p: nat)
    requires p < |s| && Skip(s, p) == p
    ensures Lex(s, p) == [Tok(Kind(s, p), Span(p, TokEnd(s, p)))] + Lex(s, TokEnd(s, p))
  {
  }

  lemma {:induction false} SkipBlank(s: string, p: nat, e: nat)
    requires p <= e <= |s| && (forall i :: p <= i < e ==> IsSpace(s[i])) && (e < |s| ==> !IsSpace(s[e]))
    ensures Skip(s, p) == e && Lex(s, e) == Lex(s, p)
    decreases e - p
  {
    hide Lex;
    if p < e {
      SkipBlank(s, p + 1, e);
    }
    LexSkips(s, p, e);
  }

  lemma NothingLeft(s: string, p: nat)
    requires p <= |s| && IsBlank(s[p..])
    ensures NamedToks(s, Lex(s, p)) == []
  {
    forall i | p <= i < |s|
      ensures IsSpace(s[i])
    {
      assert s[p..][i - p] == s[i];
    }
    SkipBlank(s, p, |s|);
  }

  lemma NamedFirst(s: string, ts: seq<Tok<Span>>, t: Tok<string>, more: seq<Tok<string>>)
    requires ts != []
    ensures NamedToks(s, ts) == [t] + more <==> Named(s, ts[0]) == t && NamedToks(s, ts[1..]) == more
  {
    assert NamedToks(s, ts) == [Named(s, ts[0])] + NamedToks(s, ts[1..]);
    assert NamedToks(s, ts)[1..] == NamedToks(s, ts[1..]) && ([t] + more)[1..] == more;
  }

  lemma RenderNone(gaps: seq<string>)
    requires |gaps| == 1
    ensures Render([], gaps) == gaps[0]
  {
  }

  /** Where the first token of a rendered text stands. */
  lemma RenderFirst(pre: string, ts: seq<Tok<string>>, gaps: seq<string>)
    requires ts != [] && |gaps| == |ts| + 1 && IsBlank(gaps[0]) && Text(ts[0]) != "" && !IsSpace(Text(ts[0])[0])
    ensures var s, q, w := pre + Render(ts, gaps), |pre| + |gaps[0]|, Text(ts[0]);
            && q + |w| <= |s| && s[q..q + |w|] == w
            && s == (pre + (gaps[0] + w)) + Render(ts[1..], gaps[1..])
            && (q + |w| < |s| <==> Render(ts[1..], gaps[1..]) != "")
            && (q + |w| < |s| ==> s[q + |w|] == Render(ts[1..], gaps[1..])[0])
            && Lex(s, q) == Lex(s, |pre|)
  {
    hide Text, Lex, IsSpace, IsBlank;
    BlankSpaces(gaps[0]);
    var gap, w, more := gaps[0], Text(ts[0]), Render(ts[1..], gaps[1..]);
    var s := pre + Render(ts, gaps);
    assert s == pre + (gap + (w + more));
    Laid(pre, gap, w, more);
    SkipBlank(s, |pre|, |pre| + |gap|);
  }

  lemma Laid(pre: string, gap: string, w: string, more: string)
    ensures var s, q := pre + (gap + (w + more)), |pre| + |gap|;
            && s == (pre + (gap + w)) + more && q + |w| <= |s| && s[q..q + |w|] == w
            && (q + |w| < |s| ==> s[q + |w|] == more[0]) && (w != "" ==> s[q] == w[0])
            && forall i :: |pre| <= i < q ==> s[i] == gap[i - |pre|]
  {
  }

  /** What follows a token ends it, except where a gap that is needed is missing. */
  lemma FollowEnds(t: Tok<string>, ts: seq<Tok<string>>, gaps: seq<string>)
    requires GoodTok(t) && GoodToks(ts) && |gaps| == |ts| + 1 && IsBlank(gaps[0])
    ensures var more := Render(ts, gaps);
            (more != "" ==> Ends(t, more[0])) <==> !(ts != [] && NeedsGap(t, ts[0]) && gaps[0] == "")
  {
    if ts == [] {
      RenderNone(gaps);
    } else {
      TextStarts(ts[0]);
      assert Render(ts, gaps) == gaps[0] + (Text(ts[0]) + Render(ts[1..], gaps[1..]));
    }
  }

  lemma ApartFirst(t: Tok<string>, ts: seq<Tok<string>>, gaps: seq<string>)
    requires |gaps| == |ts| + 2
    ensures Apart([t] + ts, gaps) <==>
            !(ts != [] && NeedsGap(t, ts[0]) && gaps[1] == "") && Apart(ts, gaps[1..])
  {
    hide NeedsGap;
    var all := [t] + ts;
    if Apart(all, gaps) {
      forall i | 0 < i < |ts| && NeedsGap(ts[i - 1], ts[i])
        ensures gaps[1..][i] != ""
      {
        assert all[i + 1] == ts[i] && all[i] == ts[i - 1];
      }
      if ts != [] {
        assert all[1] == ts[0] && all[0] == t;
      }
    }
    if !(ts != [] && NeedsGap(t, ts[0]) && gaps[1] == "") && Apart(ts, gaps[1..]) {
      forall i | 0 < i < |all| && NeedsGap(all[i - 1], all[i])
        ensures gaps[i] != ""
      {
        if i > 1 {
          assert gaps[1..][i - 1] == gaps[i] && ts[i - 2] == all[i - 1];
        }
      }
    }
  }

  /** The lexer finds the tokens that were printed, whatever blanks stand between them, exactly when there are some
      between two words and after a '>' that another one follows. */
  lemma {:induction false} LexRender(pre: string, ts: seq<Tok<string>>, gaps: seq<string>)
    requires GoodToks(ts) && |gaps| == |ts| + 1 && Blanks(gaps)
    ensures var s := pre + Render(ts, gaps); NamedToks(s, Lex(s, |pre|)) == ts <==> Apart(ts, gaps)
    decreases |ts|
  {
    hide Lex, GoodTok, Text, NamedToks, Named, Render, Apart, NeedsGap, IsBlank, Ends;
    var s := pre + Render(ts, gaps);
    if ts == [] {
      RenderNone(gaps);
      assert s[|pre|..] == gaps[0];
      NothingLeft(s, |pre|);
      ApartNone(gaps);
    } else {
      var t, q := ts[0], |pre| + |gaps[0]|;
      TextStarts(t);
      RenderFirst(pre, ts, gaps);
      LexOne(s, q, t);
      FollowEnds(t, ts[1..], gaps[1..]);
      ApartFirst(t, ts[1..], gaps);
      assert [t] + ts[1..] == ts;
      LexRender(pre + (gaps[0] + Text(t)), ts[1..], gaps[1..]);
      NamedFirst(s, Lex(s, |pre|), t, ts[1..]);
    }
  }

  lemma ApartNone(gaps: seq<string>)
    requires |gaps| == 1
    ensures Apart([], gaps)
  {
  }

  // Names instead of places

  function NamedRedirs(s: string, list: seq<Redirect<Span>>): (r: seq<Redirect<string>>)
    ensures |r| == |list|
    decreases |list|
  {
    if list == [] then [] else
    NamedRedirs(s, list[..|list| - 1]) + [Redirect(list[|list| - 1].op, Piece(s, list[|list| - 1].file))]
  }

  function NamedArgs(s: string, argv: seq<Span>): (r: seq<string>)
    ensures |r| == |argv|
    decreases |argv|
  {
    if argv == [] then [] else NamedArgs(s, argv[..|argv| - 1]) + [Piece(s, argv[|argv| - 1])]
  }

  /** The command with the words at the places that it names. */
  function NamedCmd(s: string, c: Cmd<Span>): (r: Cmd<string>) {
    match c
    case Exec(argv) => Exec(NamedArgs(s, argv))
    case Redir(x, to) => Redir(NamedCmd(s, x), Redirect(to.op, Piece(s, to.file)))
    case Pipe(l, r) => Pipe(NamedCmd(s, l), NamedCmd(s, r))
    case List(l, r) => List(NamedCmd(s, l), NamedCmd(s, r))
    case Back(x) => Back(NamedCmd(s, x))
  }

  function NamedParsed(s: string, p: Parsed<Span>): (r: Parsed<string>) {
    if p.Fail? then Fail else Ok(NamedCmd(s, p.cmd), NamedToks(s, p.rest))
  }

  lemma SameKinds(s: string, ts: seq<Tok<Span>>, c: char)
    ensures At(NamedToks(s, ts), c) <==> At(ts, c)
    ensures ts != [] ==> NamedToks(s, ts)[1..] == NamedToks(s, ts[1..])
    ensures NamedToks(s, ts) == [] <==> ts == []
  {
  }

  lemma NamedRedirsCons(s: string, list: seq<Redirect<Span>>, more: seq<Redirect<Span>>)
    ensures NamedRedirs(s, list + more) == NamedRedirs(s, list) + NamedRedirs(s, more)
    decreases |more|
  {
    if more == [] {
      assert list + more == list;
    } else {
      var all := list + more;
      assert all[..|all| - 1] == list + more[..|more| - 1];
      NamedRedirsCons(s, list, more[..|more| - 1]);
    }
  }

  lemma {:induction false} NamedWrap(s: string, c: Cmd<Span>, list: seq<Redirect<Span>>)
    ensures NamedCmd(s, Wrap(c, list)) == Wrap(NamedCmd(s, c), NamedRedirs(s, list))
    decreases |list|
  {
    if list != [] {
      NamedWrap(s, c, list[..|list| - 1]);
      var named := NamedRedirs(s, list);
      assert named[..|named| - 1] == NamedRedirs(s, list[..|list| - 1]);
    }
  }

  lemma {:induction false} NamedParseRedirs(s: string, ts: seq<Tok<Span>>)
    ensures var p, q := ParseRedirs(ts), ParseRedirs(NamedToks(s, ts));
            if p.NoFile? then q.NoFile? else q == Redirects(NamedRedirs(s, p.list), NamedToks(s, p.rest))
    decreases |ts|
  {
    hide NamedToks, NamedRedirs;
    SameKinds(s, ts, '<');
    SameKinds(s, ts, '>');
    SameKinds(s, ts, '+');
    if AtRedirect(ts) {
      SameKinds(s, ts[1..], 'a');
      if At(ts[1..], 'a') {
        assert ts[2..] == ts[1..][1..];
        assert NamedToks(s, ts)[2..] == NamedToks(s, ts)[1..][1..];
        NamedParseRedirs(s, ts[2..]);
        var first := [Redirect(ts[0].kind, ts[1].word)];
        NamedOne(s, first[0]);
        var p := ParseRedirs(ts[2..]);
        if p.Redirects? {
          NamedRedirsCons(s, first, p.list);
        }
      }
    } else {
      NamedNone(s);
    }
  }

  lemma NamedOne(s: string, r: Redirect<Span>)
    ensures NamedRedirs(s, [r]) == [Redirect(r.op, Piece(s, r.file))]
  {
    assert [r][..0] == [];
  }

  lemma NamedNone(s: string)
    ensures NamedRedirs(s, []) == []
  {
  }

  lemma NamedArg(s: string, argv: seq<Span>, at: Span)
    ensures NamedArgs(s, argv + [at]) == NamedArgs(s, argv) + [Piece(s, at)]
  {
    assert (argv + [at])[..|argv|] == argv;
  }

  lemma {:induction false} NamedParseArgs(s: string, ts: seq<Tok<Span>>, argv: seq<Span>, list: seq<Redirect<Span>>)
    ensures ParseArgs(NamedToks(s, ts), NamedArgs(s, argv), NamedRedirs(s, list)) == NamedParsed(s,
            ParseArgs(ts, argv, list))
    decreases |ts|
  {
    hide NamedToks, NamedRedirs, NamedArgs, Wrap, ParseRedirs;
    SameStops(s, ts);
    SameKinds(s, ts, 'a');
    if AtStop(ts) || ts == [] {
      NamedWrap(s, Exec(argv), list);
    } else if At(ts, 'a') && |argv| + 1 < MAXARGS {
      NamedParseRedirs(s, ts[1..]);
      var p := ParseRedirs(ts[1..]);
      FirstNamed(s, ts);
      if p.Redirects? {
        NamedArg(s, argv, ts[0].word);
        NamedRedirsCons(s, list, p.list);
        NamedParseArgs(s, p.rest, argv + [ts[0].word], list + p.list);
      }
    }
  }

  lemma FirstNamed(s: string, ts: seq<Tok<Span>>)
    requires ts != []
    ensures NamedToks(s, ts) != [] && NamedToks(s, ts)[0] == Named(s, ts[0])
  {
  }

  lemma SameStops(s: string, ts: seq<Tok<Span>>)
    ensures AtStop(NamedToks(s, ts)) <==> AtStop(ts)
  {
    hide NamedToks;
    SameKinds(s, ts, '|');
    SameKinds(s, ts, ')');
    SameKinds(s, ts, '&');
    SameKinds(s, ts, ';');
  }

  lemma {:induction false} NamedParseExec(s: string, ts: seq<Tok<Span>>)
    ensures ParseExec(NamedToks(s, ts)) == NamedParsed(s, ParseExec(ts))
    decreases |ts|, 0
  {
    hide NamedToks, NamedRedirs, Wrap, ParseRedirs, ParseArgs, ParseLine, NamedArgs;
    SameKinds(s, ts, '(');
    if At(ts, '(') {
      NamedParseLine(s, ts[1..]);
      var line := ParseLine(ts[1..]);
      if line.Ok? {
        SameKinds(s, line.rest, ')');
        if At(line.rest, ')') {
          NamedParseRedirs(s, line.rest[1..]);
          var more := ParseRedirs(line.rest[1..]);
          if more.Redirects? {
            NamedWrap(s, line.cmd, more.list);
          }
        }
      }
    } else {
      NamedParseRedirs(s, ts);
      var first := ParseRedirs(ts);
      if first.Redirects? {
        NoArgs(s);
        NamedParseArgs(s, first.rest, [], first.list);
      }
    }
  }

  lemma NoArgs(s: string)
    ensures NamedArgs(s, []) == []
  {
  }

  lemma {:induction false} NamedParsePipe(s: string, ts: seq<Tok<Span>>)
    ensures ParsePipe(NamedToks(s, ts)) == NamedParsed(s, ParsePipe(ts))
    decreases |ts|, 1
  {
    hide NamedToks, ParseExec;
    NamedParseExec(s, ts);
    var left := ParseExec(ts);
    if left.Ok? {
      SameKinds(s, left.rest, '|');
      if At(left.rest, '|') {
        NamedParsePipe(s, left.rest[1..]);
      }
    }
  }

  lemma {:induction false} NamedParseBacks(s: string, c: Cmd<Span>, ts: seq<Tok<Span>>)
    ensures ParseBacks(NamedCmd(s, c), NamedToks(s, ts)) == NamedParsed(s, ParseBacks(c, ts))
    decreases |ts|
  {
    hide NamedToks;
    SameKinds(s, ts, '&');
    if At(ts, '&') {
      NamedParseBacks(s, Back(c), ts[1..]);
    }
  }

  lemma {:induction false} NamedParseLine(s: string, ts: seq<Tok<Span>>)
    ensures ParseLine(NamedToks(s, ts)) == NamedParsed(s, ParseLine(ts))
    decreases |ts|, 2
  {
    hide NamedToks, ParsePipe, ParseBacks;
    NamedParsePipe(s, ts);
    var first := ParsePipe(ts);
    if first.Ok? {
      NamedParseBacks(s, first.cmd, first.rest);
      var left := ParseBacks(first.cmd, first.rest);
      SameKinds(s, left.rest, ';');
      if At(left.rest, ';') {
        NamedParseLine(s, left.rest[1..]);
      }
    }
  }

  // The command line as a whole

  predicate WordsOk(c: Cmd<string>) {
    match c
    case Exec(argv) => forall i :: 0 <= i < |argv| ==> IsWord(argv[i])
    case Redir(x, to) => WordsOk(x) && IsWord(to.file) && (to.op == '<' || to.op == '>' || to.op == '+')
    case Pipe(l, r) => WordsOk(l) && WordsOk(r)
    case List(l, r) => WordsOk(l) && WordsOk(r)
    case Back(x) => WordsOk(x)
  }

  lemma {:induction false} GoodWords(argv: seq<string>)
    requires forall i :: 0 <= i < |argv| ==> IsWord(argv[i])
    ensures GoodToks(Words(argv))
    decreases |argv|
  {
    if argv != [] {
      GoodWords(argv[1..]);
    }
  }

  lemma GoodJoin(a: seq<Tok<string>>, b: seq<Tok<string>>)
    requires GoodToks(a) && GoodToks(b)
    ensures GoodToks(a + b)
  {
  }

  lemma GoodSign(k: char)
    requires IsSymbol(k) || k == '+'
    ensures GoodToks([Sign(k)])
  {
  }

  lemma {:induction false} GoodLine(c: Cmd<string>)
    requires WordsOk(c)
    ensures GoodToks(PrintLine(c)) && GoodToks(PrintBacks(c)) && GoodToks(PrintPipe(c)) && GoodToks(PrintExec(c))
  {
    hide GoodToks, IsWord;
    GoodSign('(');
    GoodSign(')');
    match c
    case Exec(argv) =>
      GoodWords(argv);
      assert PrintLine(c) == PrintBacks(c) && PrintBacks(c) == PrintPipe(c) && PrintPipe(c) == PrintExec(c);
    case Redir(x, to) =>
      assert PrintLine(c) == PrintBacks(c) && PrintBacks(c) == PrintPipe(c) && PrintPipe(c) == PrintExec(c);
      GoodLine(x);
      GoodRedir(to);
      GoodJoin(PrintExec(x), [Sign(to.op), Tok('a', to.file)]);
    case Pipe(l, r) =>
      GoodLine(l);
      GoodLine(r);
      GoodSign('|');
      GoodThree(PrintExec(l), '|', PrintPipe(r));
      assert PrintLine(c) == PrintBacks(c) && PrintBacks(c) == PrintPipe(c);
      GoodParens(PrintExec(l) + [Sign('|')] + PrintPipe(r));
    case List(l, r) =>
      GoodLine(l);
      GoodLine(r);
      GoodSign(';');
      GoodThree(PrintBacks(l), ';', PrintLine(r));
      assert PrintBacks(c) == PrintPipe(c) && PrintPipe(c) == PrintExec(c);
      GoodParens(PrintBacks(l) + [Sign(';')] + PrintLine(r));
    case Back(x) =>
      GoodLine(x);
      GoodSign('&');
      GoodJoin(PrintBacks(x), [Sign('&')]);
      GoodParens(PrintBacks(x) + [Sign('&')]);
  }

  lemma GoodRedir(to: Redirect<string>)
    requires IsWord(to.file) && (to.op == '<' || to.op == '>' || to.op == '+')
    ensures GoodToks([Sign(to.op), Tok('a', to.file)])
  {
  }

  lemma GoodThree(a: seq<Tok<string>>, k: char, b: seq<Tok<string>>)
    requires GoodToks(a) && GoodToks(b) && GoodToks([Sign(k)])
    ensures GoodToks(a + [Sign(k)] + b)
  {
    hide GoodToks;
    GoodJoin(a, [Sign(k)]);
    GoodJoin(a + [Sign(k)], b);
  }

  lemma GoodParens(a: seq<Tok<string>>)
    requires GoodToks(a) && GoodToks([Sign('(')]) && GoodToks([Sign(')')])
    ensures GoodToks([Sign('(')] + a + [Sign(')')])
  {
    hide GoodToks;
    GoodJoin([Sign('(')], a);
    GoodJoin([Sign('(')] + a, [Sign(')')]);
  }

  /** Parsing the printed text of a command gives the command back, however its tokens are set apart. */
  lemma TextRoundTrip(c: Cmd<string>, gaps: seq<string>)
    requires Expressible(c) && WordsOk(c)
    requires |gaps| == |PrintLine(c)| + 1 && Blanks(gaps) && Apart(PrintLine(c), gaps)
    ensures var s := Render(PrintLine(c), gaps);
            var p := ParseCmd(Lex(s, 0));
            p.Ok? && NamedCmd(s, p.cmd) == c
  {
    hide ParseLine, PrintLine, NamedToks, NamedCmd, Lex, GoodToks, WordsOk, Render, Blanks, Apart;
    var ts := PrintLine(c);
    var s := Render(ts, gaps);
    GoodLine(c);
    LexRender("", ts, gaps);
    assert "" + s == s;
    RoundTrip(c);
    NamedParseLine(s, Lex(s, 0));
    var line := ParseLine(Lex(s, 0));
    if line.Ok? {
      SameKinds(s, line.rest, 'a');
    }
  }

  /** Parsing a text gives the command c exactly if its tokens are a line of the grammar that means c. */
  lemma TextMeans(s: string, c: Cmd<string>)
    ensures var p := ParseCmd(Lex(s, 0));
            p.Ok? && NamedCmd(s, p.cmd) == c <==> ShellSyntax.Means(NamedToks(s, Lex(s, 0)), c)
  {
    hide ParseLine, NamedToks, NamedCmd, Lex, ShellSyntax.Means;
    var ts := Lex(s, 0);
    NamedSigns(s, ts);
    ShellSyntax.AcceptsExactly(NamedToks(s, ts), c);
    NamedParseLine(s, ts);
    var line := ParseLine(ts);
    if line.Ok? {
      SameKinds(s, line.rest, 'a');
    }
  }

  lemma NamedSigns(s: string, ts: seq<Tok<Span>>)
    ensures ShellSyntax.Signs(NamedToks(s, ts))
  {
  }

  // nulterminate()

  /** The places that a command names. */
  ghost function Spans(c: Cmd<Span>): (r: set<Span>) {
    match c
    case Exec(argv) => set sp | sp in argv
    case Redir(x, to) => Spans(x) + {to.file}
    case Pipe(l, r) => Spans(l) + Spans(r)
    case List(l, r) => Spans(l) + Spans(r)
    case Back(x) => Spans(x)
  }

  ghost predicate EndsAt(c: Cmd<Span>, i: int) {
    exists sp :: sp in Spans(c) && sp.eq == i
  }

  /** Writes a NUL after every word that the command names. */
  method NulTerminate(c: Cmd<Span>, buf: array<char>)
    requires forall sp :: sp in Spans(c) ==> sp.eq < buf.Length
    modifies buf
    ensures forall i :: 0 <= i < buf.Length ==> buf[i] == if EndsAt(c, i) then '\0' else old(buf[i])
    decreases c
  {
    match c
    case Exec(argv) =>
      for i := 0 to |argv|
        invariant forall j :: 0 <= j < buf.Length ==>
                    buf[j] == if (exists k :: 0 <= k < i && argv[k].eq == j) then '\0' else old(buf[j])
      {
        assert argv[i] in Spans(c);
        buf[argv[i].eq] := '\0';
      }
      forall j | 0 <= j < buf.Length
        ensures EndsAt(c, j) <==> exists k :: 0 <= k < |argv| && argv[k].eq == j
      {
        if k :| 0 <= k < |argv| && argv[k].eq == j {
          assert argv[k] in Spans(c);
        }
      }
    case Redir(x, to) =>
      assert forall j :: EndsAt(c, j) <==> EndsAt(x, j) || to.file.eq == j by {
        assert to.file in Spans(c);
      }
      NulTerminate(x, buf);
      buf[to.file.eq] := '\0';
    case Pipe(l, r) =>
      NulTerminate(l, buf);
      NulTerminate(r, buf);
      assert forall j :: EndsAt(c, j) <==> EndsAt(l, j) || EndsAt(r, j);
    case List(l, r) =>
      NulTerminate(l, buf);
      NulTerminate(r, buf);
      assert forall j :: EndsAt(c, j) <==> EndsAt(l, j) || EndsAt(r, j);
    case Back(x) =>
      NulTerminate(x, buf);
      assert forall j :: EndsAt(c, j) <==> EndsAt(x, j);
  }

  /** The places of the words among the tokens. */
  ghost function WordSpans(ts: seq<Tok<Span>>): (r: set<Span>) {
    set i | 0 <= i < |ts| && ts[i].kind == 'a' :: ts[i].word
  }

  ghost function RedirSpans(list: seq<Redirect<Span>>): (r: set<Span>) {
    set i | 0 <= i < |list| :: list[i].file
  }

  lemma TailSpans(ts: seq<Tok<Span>>)
    requires ts != []
    ensures WordSpans(ts[1..]) <= WordSpans(ts) && (ts[0].kind == 'a' ==> ts[0].word in WordSpans(ts))
  {
    forall sp | sp in WordSpans(ts[1..])
      ensures sp in WordSpans(ts)
    {
      var i :| 0 <= i < |ts[1..]| && ts[1..][i].kind == 'a' && ts[1..][i].word == sp;
      assert ts[i + 1].word == sp;
    }
  }

  lemma {:induction false} WrapSpans(c: Cmd<Span>, list: seq<Redirect<Span>>)
    ensures Spans(Wrap(c, list)) <= Spans(c) + RedirSpans(list)
    decreases |list|
  {
    if list != [] {
      WrapSpans(c, list[..|list| - 1]);
      var last := list[|list| - 1];
      assert last.file in RedirSpans(list);
      forall sp | sp in RedirSpans(list[..|list| - 1])
        ensures sp in RedirSpans(list)
      {
        var i :| 0 <= i < |list| - 1 && list[..|list| - 1][i].file == sp;
        assert list[i].file == sp;
      }
    }
  }

  lemma {:induction false} RedirsFromWords(ts: seq<Tok<Span>>)
    ensures var p := ParseRedirs(ts);
            p.Redirects? ==> RedirSpans(p.list) <= WordSpans(ts) && WordSpans(p.rest) <= WordSpans(ts)
    decreases |ts|
  {
    if AtRedirect(ts) && At(ts[1..], 'a') {
      assert ts[2..] == ts[1..][1..];
      TailSpans(ts);
      TailSpans(ts[1..]);
      RedirsFromWords(ts[2..]);
      var p := ParseRedirs(ts[2..]);
      if p.Redirects? {
        JoinRedirSpans([Redirect(ts[0].kind, ts[1].word)], p.list);
        assert ts[1..][0] == ts[1];
      }
    }
  }

  lemma JoinRedirSpans(a: seq<Redirect<Span>>, b: seq<Redirect<Span>>)
    ensures RedirSpans(a + b) == RedirSpans(a) + RedirSpans(b)
  {
    forall sp | sp in RedirSpans(b)
      ensures sp in RedirSpans(a + b)
    {
      var i :| 0 <= i < |b| && b[i].file == sp;
      assert (a + b)[|a| + i].file == sp;
    }
    forall sp | sp in RedirSpans(a)
      ensures sp in RedirSpans(a + b)
    {
      var i :| 0 <= i < |a| && a[i].file == sp;
      assert (a + b)[i].file == sp;
    }
  }

  lemma {:induction false} ArgsFromWords(ts: seq<Tok<Span>>, argv: seq<Span>, list: seq<Redirect<Span>>, all: set<Span>)
    requires WordSpans(ts) <= all && (forall sp :: sp in argv ==> sp in all) && RedirSpans(list) <= all
    ensures var p := ParseArgs(ts, argv, list); p.Ok? ==> Spans(p.cmd) <= all && WordSpans(p.rest) <= all
    decreases |ts|
  {
    hide WordSpans, RedirSpans, ParseRedirs, Wrap;
    if AtStop(ts) || ts == [] {
      WrapSpans(Exec(argv), list);
    } else if At(ts, 'a') && |argv| + 1 < MAXARGS {
      TailSpans(ts);
      RedirsFromWords(ts[1..]);
      var p := ParseRedirs(ts[1..]);
      if p.Redirects? {
        JoinRedirSpans(list, p.list);
        ArgsFromWords(p.rest, argv + [ts[0].word], list + p.list, all);
      }
    }
  }

  lemma {:induction false} ExecFromWords(ts: seq<Tok<Span>>)
    ensures var p := ParseExec(ts); p.Ok? ==> Spans(p.cmd) <= WordSpans(ts) && WordSpans(p.rest) <= WordSpans(ts)
    decreases |ts|, 0
  {
    hide WordSpans, RedirSpans, ParseRedirs, ParseArgs, ParseLine, Wrap;
    if At(ts, '(') {
      TailSpans(ts);
      LineFromWords(ts[1..]);
      var line := ParseLine(ts[1..]);
      if line.Ok? && At(line.rest, ')') {
        TailSpans(line.rest);
        RedirsFromWords(line.rest[1..]);
        var more := ParseRedirs(line.rest[1..]);
        if more.Redirects? {
          WrapSpans(line.cmd, more.list);
        }
      }
    } else {
      RedirsFromWords(ts);
      var first := ParseRedirs(ts);
      if first.Redirects? {
        ArgsFromWords(first.rest, [], first.list, WordSpans(ts));
      }
    }
  }

  lemma {:induction false} PipeFromWords(ts: seq<Tok<Span>>)
    ensures var p := ParsePipe(ts); p.Ok? ==> Spans(p.cmd) <= WordSpans(ts) && WordSpans(p.rest) <= WordSpans(ts)
    decreases |ts|, 1
  {
    hide WordSpans, ParseExec;
    ExecFromWords(ts);
    var left := ParseExec(ts);
    if left.Ok? && At(left.rest, '|') {
      TailSpans(left.rest);
      PipeFromWords(left.rest[1..]);
    }
  }

  lemma {:induction false} BacksFromWords(c: Cmd<Span>, ts: seq<Tok<Span>>)
    ensures var p := ParseBacks(c, ts); Spans(p.cmd) == Spans(c) && WordSpans(p.rest) <= WordSpans(ts)
    decreases |ts|
  {
    hide WordSpans;
    if At(ts, '&') {
      TailSpans(ts);
      BacksFromWords(Back(c), ts[1..]);
    }
  }

  /** The parser only names words of the text. */
  lemma {:induction false} LineFromWords(ts: seq<Tok<Span>>)
    ensures var p := ParseLine(ts); p.Ok? ==> Spans(p.cmd) <= WordSpans(ts) && WordSpans(p.rest) <= WordSpans(ts)
    decreases |ts|, 2
  {
    hide WordSpans, ParsePipe, ParseBacks;
    PipeFromWords(ts);
    var first := ParsePipe(ts);
    if first.Ok? {
      BacksFromWords(first.cmd, first.rest);
      var left := ParseBacks(first.cmd, first.rest);
      if At(left.rest, ';') {
        TailSpans(left.rest);
        LineFromWords(left.rest[1..]);
      }
    }
  }

  /** A word of the text: it ends with the text or before a character that no word holds. */
  predicate WordOf(s: string, sp: Span) {
    && sp.q < sp.eq <= |s| && (forall i :: sp.q <= i < sp.eq ==> InWord(s[i]))
    && (sp.eq < |s| ==> !InWord(s[sp.eq]))
  }

  lemma {:induction false} LexWords(s: string, p: nat, sp: Span)
    requires p <= |s| && sp in WordSpans(Lex(s, p))
    ensures WordOf(s, sp)
    decreases |s| - p
  {
    var q := Skip(s, p);
    if q < |s| {
      var ts := Lex(s, p);
      assert ts[1..] == Lex(s, TokEnd(s, q));
      var i :| 0 <= i < |ts| && ts[i].kind == 'a' && ts[i].word == sp;
      if i > 0 {
        assert ts[1..][i - 1] == ts[i];
        LexWords(s, TokEnd(s, q), sp);
      }
    }
  }

  /** The C string at q: up to the next NUL. */
  ghost predicate StringAt(buf: seq<char>, q: nat, w: string) {
    q + |w| < |buf| && buf[q..q + |w|] == w && buf[q + |w|] == '\0' && NulFree(w)
  }

  /** Parses a command line and terminates its words: afterwards each of them is a C string in the buffer. */
  method ParseAndTerminate(s: string, buf: array<char>) returns (r: Option<Cmd<Span>>)
    requires NulFree(s) && buf[..] == s + ['\0']
    modifies buf
    ensures var f := ParseCmd(Lex(s, 0)); (r.Some? <==> f.Ok?) && (r.Some? ==> f == Ok(r.value, []))
    ensures r.Some? ==> forall sp :: sp in Spans(r.value) ==> StringAt(buf[..], sp.q, Piece(s, sp))
  {
    hide ParseLine, Lex;
    var parser := new Parser(s);
    r := parser.ParseCmd();
    if r.Some? {
      var c := r.value;
      ghost var before := buf[..];
      forall sp | sp in Spans(c)
        ensures WordOf(s, sp)
      {
        LineFromWords(Lex(s, 0));
        LexWords(s, 0, sp);
      }
      NulTerminate(c, buf);
      forall sp | sp in Spans(c)
        ensures StringAt(buf[..], sp.q, Piece(s, sp))
      {
        Terminated(s, c, before, buf[..], sp);
      }
    }
  }

  /** No NUL lands inside a word. */
  lemma Terminated(s: string, c: Cmd<Span>, before: seq<char>, after: seq<char>, sp: Span)
    requires NulFree(s) && before == s + ['\0'] && |after| == |before| && sp in Spans(c)
    requires forall x :: x in Spans(c) ==> WordOf(s, x)
    requires forall i :: 0 <= i < |before| ==> after[i] == if EndsAt(c, i) then '\0' else before[i]
    ensures StringAt(after, sp.q, Piece(s, sp))
  {
    assert WordOf(s, sp) && EndsAt(c, sp.eq);
    forall i | sp.q <= i < sp.eq
      ensures after[i] == s[i]
    {
      forall x | x in Spans(c)
        ensures x.eq != i
      {
        assert WordOf(s, x);
      }
    }
    assert after[sp.q..sp.eq] == s[sp.q..sp.eq];
  }
}
