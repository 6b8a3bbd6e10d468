/** The command language of riscv/user/sh.c:271-499 over tokens: what the recursive-descent routines
    accept, a printer for command trees, and the proof that parsing undoes printing. */
module ShellGrammar {

  const MAXARGS := 10

  /** Kinds of tokens as gettoken() returns them: 'a' is a word, '+' is ">>". */
  datatype Tok<T> = Tok(kind: char, word: T)

  /** A redirection: its token and the file. */
  datatype Redirect<T> = Redirect(op: char, file: T)

  datatype Cmd<T> =
    | Exec(argv: seq<T>)
    | Redir(cmd: Cmd<T>, to: Redirect<T>)
    | Pipe(left: Cmd<T>, right: Cmd<T>)
    | List(left: Cmd<T>, right: Cmd<T>)
    | Back(cmd: Cmd<T>)

  /** Fail stands for a panic of the shell. */
  datatype Parsed<T> = Fail | Ok(cmd: Cmd<T>, rest: seq<Tok<T>>)

  datatype Redirects<T> = NoFile | Redirects(list: seq<Redirect<T>>, rest: seq<Tok<T>>)

  predicate At<T>(ts: seq<Tok<T>>, kind: char) { ts != [] && ts[0].kind == kind }

  predicate AtRedirect<T>(ts: seq<Tok<T>>) { At(ts, '<') || At(ts, '>') || At(ts, '+') }

  predicate AtStop<T>(ts: seq<Tok<T>>) { At(ts, '|') || At(ts, ')') || At(ts, '&') || At(ts, ';') }

  /** The redirections around a command, the first one innermost. */
  function Wrap<T>(c: Cmd<T>, list: seq<Redirect<T>>): (r: Cmd<T>)
    decreases |list|
  {
    if list == [] then c else Redir(Wrap(c, list[..|list| - 1]), list[|list| - 1])
  }

  // The parser over tokens

  /** parseredirs(). */
  function ParseRedirs<T>(ts: seq<Tok<T>>): (r: Redirects<T>)
    ensures r.Redirects? ==> |r.rest| <= |ts| && !AtRedirect(r.rest)
    decreases |ts|
  {
    if !AtRedirect(ts) then Redirects([], ts)
    else if !At(ts[1..], 'a') then NoFile
    else
      var more := ParseRedirs(ts[2..]);
      if more.NoFile? then NoFile
      else Redirects([Redirect(ts[0].kind, ts[1].word)] + more.list, more.rest)
  }

  /** The loop of parseexec() over arguments and redirections. */
  function ParseArgs<T>(ts: seq<Tok<T>>, argv: seq<T>, list: seq<Redirect<T>>): (r: Parsed<T>)
    ensures r.Ok? ==> |r.rest| <= |ts|
    decreases |ts|
  {
    if AtStop(ts) || ts == [] then Ok(Wrap(Exec(argv), list), ts)
    else if !At(ts, 'a') || |argv| + 1 >= MAXARGS then Fail
    else
      var more := ParseRedirs(ts[1..]);
      if more.NoFile? then Fail else ParseArgs(more.rest, argv + [ts[0].word], list + more.list)
  }

  /** parseexec(), with parseblock() for a command in parentheses. */
  function ParseExec<T>(ts: seq<Tok<T>>): (r: Parsed<T>)
    ensures r.Ok? ==> |r.rest| <= |ts|
    decreases |ts|, 0
  {
    if At(ts, '(') then
      var line := ParseLine(ts[1..]);
      if line.Fail? || !At(line.rest, ')') then Fail
      else
        var more := ParseRedirs(line.rest[1..]);
        if more.NoFile? then Fail else Ok(Wrap(line.cmd, more.list), more.rest)
    else
      var first := ParseRedirs(ts);
      if first.NoFile? then Fail else ParseArgs(first.rest, [], first.list)
  }

  /** parsepipe(). */
  function ParsePipe<T>(ts: seq<Tok<T>>): (r: Parsed<T>)
    ensures r.Ok? ==> |r.rest| <= |ts|
    decreases |ts|, 1
  {
    var left := ParseExec(ts);
    if left.Fail? || !At(left.rest, '|') then left
    else
      var right := ParsePipe(left.rest[1..]);
      if right.Fail? then Fail else Ok(Pipe(left.cmd, right.cmd), right.rest)
  }

  /** The loop of parseline() over '&'. */
  function ParseBacks<T>(c: Cmd<T>, ts: seq<Tok<T>>): (r: Parsed<T>)
    ensures r.Ok? && |r.rest| <= |ts| && !At(r.rest, '&')
    decreases |ts|
  {
    if At(ts, '&') then ParseBacks(Back(c), ts[1..]) else Ok(c, ts)
  }

  /** parseline(). */
  function ParseLine<T>(ts: seq<Tok<T>>): (r: Parsed<T>)
    ensures r.Ok? ==> |r.rest| <= |ts|
    decreases |ts|, 2
  {
    var first := ParsePipe(ts);
    if first.Fail? then Fail
    else
      var left := ParseBacks(first.cmd, first.rest);
      if !At(left.rest, ';') then left
      else
        var right := ParseLine(left.rest[1..]);
        if right.Fail? then Fail else Ok(List(left.cmd, right.cmd), right.rest)
  }

  /** parsecmd(): a line and nothing after it. */
  function ParseCmd<T>(ts: seq<Tok<T>>): (r: Parsed<T>)
  {
    var line := ParseLine(ts);
    if line.Fail? || line.rest != [] then Fail else line
  }

  // The printer

  function Sign(kind: char): (t: Tok<string>) { Tok(kind, "") }

  function Words(argv: seq<string>): (ts: seq<Tok<string>>)
    ensures |ts| == |argv|
    decreases |argv|
  {
    if argv == [] then [] else [Tok('a', argv[0])] + Words(argv[1..])
  }

  function PrintLine(c: Cmd<string>): (ts: seq<Tok<string>>)
    decreases c, 3
  {
    if c.List? then PrintBacks(c.left) + [Sign(';')] + PrintLine(c.right) else PrintBacks(c)
  }

  function PrintBacks(c: Cmd<string>): (ts: seq<Tok<string>>)
    decreases c, 2
  {
    if c.Back? then PrintBacks(c.cmd) + [Sign('&')] else PrintPipe(c)
  }

  function PrintPipe(c: Cmd<string>): (ts: seq<Tok<string>>)
    decreases c, 1
  {
    if c.Pipe? then PrintExec(c.left) + [Sign('|')] + PrintPipe(c.right) else PrintExec(c)
  }

  /** Commands without redirections, then the redirections; what is no simple command goes in parentheses. */
  function PrintExec(c: Cmd<string>): (ts: seq<Tok<string>>)
    decreases c, 0
  {
    match c
    case Exec(argv) => Words(argv)
    case Redir(x, to) => PrintExec(x) + [Sign(to.op), Tok('a', to.file)]
    case List(l, r) => [Sign('(')] + (PrintBacks(l) + [Sign(';')] + PrintLine(r)) + [Sign(')')]
    case Back(x) => [Sign('(')] + (PrintBacks(x) + [Sign('&')]) + [Sign(')')]
    case Pipe(l, r) => [Sign('(')] + (PrintExec(l) + [Sign('|')] + PrintPipe(r)) + [Sign(')')]
  }

  /** What the shell can express: simple commands with fewer than MAXARGS arguments, and the three redirections. */
  predicate Expressible(c: Cmd<string>) {
    match c
    case Exec(argv) => |argv| < MAXARGS
    case Redir(x, to) => Expressible(x) && (to.op == '<' || to.op == '>' || to.op == '+')
    case Pipe(l, r) => Expressible(l) && Expressible(r)
    case List(l, r) => Expressible(l) && Expressible(r)
    case Back(x) => Expressible(x)
  }

  // Parsing undoes printing

  /** The command inside the redirections of c, and these. */
  function Base(c: Cmd<string>): (b: Cmd<string>)
    ensures !b.Redir?
  {
    if c.Redir? then Base(c.cmd) else c
  }

  function Reds(c: Cmd<string>): (list: seq<Redirect<string>>) {
    if c.Redir? then Reds(c.cmd) + [c.to] else []
  }

  function RedToks(list: seq<Redirect<string>>): (ts: seq<Tok<string>>)
    decreases |list|
  {
    if list == [] then []
    else RedToks(list[..|list| - 1]) + [Sign(list[|list| - 1].op), Tok('a', list[|list| - 1].file)]
  }

  predicate Ops(list: seq<Redirect<string>>) {
    forall i :: 0 <= i < |list| ==> list[i].op == '<' || list[i].op == '>' || list[i].op == '+'
  }

  lemma {:induction false} Stripped(c: Cmd<string>)
    ensures Wrap(Base(c), Reds(c)) == c && PrintExec(c) == PrintExec(Base(c)) + RedToks(Reds(c))
    ensures Expressible(c) ==> Expressible(Base(c)) && Ops(Reds(c))
    ensures Base(c) == c || Base(c) < c
  {
    if c.Redir? {
      Stripped(c.cmd);
      var list := Reds(c.cmd);
      assert (list + [c.to])[..|list|] == list;
      assert PrintExec(Base(c)) + RedToks(list) + [Sign(c.to.op), Tok('a', c.to.file)] == PrintExec(Base(c))
          + RedToks(Reds(c));
    } else {
      assert PrintExec(c) + [] == PrintExec(c);
    }
  }

  /** The first redirection comes first in print. */
  lemma {:induction false} RedToksFirst(list: seq<Redirect<string>>)
    requires list != []
    ensures RedToks(list) == [Sign(list[0].op), Tok('a', list[0].file)] + RedToks(list[1..])
    decreases |list|
  {
    var init := list[..|list| - 1];
    if init == [] {
      assert list[1..] == [];
    } else {
      RedToksFirst(init);
      assert list[1..][..|list| - 2] == init[1..];
      assert init[0] == list[0];
    }
  }

  lemma {:induction false} RedirsPrinted(list: seq<Redirect<string>>, rest: seq<Tok<string>>)
    requires Ops(list) && !AtRedirect(rest)
    ensures ParseRedirs(RedToks(list) + rest) == Redirects(list, rest)
    decreases |list|
  {
    if list == [] {
      assert RedToks(list) + rest == rest;
    } else {
      RedToksFirst(list);
      var ts := RedToks(list) + rest;
      assert ts[2..] == RedToks(list[1..]) + rest && ts[0] == Sign(list[0].op) && ts[1] == Tok('a', list[0].file);
      assert ts[1..][0] == ts[1];
      RedirsPrinted(list[1..], rest);
      assert [list[0]] + list[1..] == list;
    }
  }

  /** The end of a simple command. */
  predicate Follow(ts: seq<Tok<string>>) { ts == [] || AtStop(ts) }

  lemma NoRedirs(ts: seq<Tok<string>>)
    requires !AtRedirect(ts)
    ensures ParseRedirs(ts) == Redirects([], ts)
  {
  }

  lemma OneWord(w: string, ts: seq<Tok<string>>, argv: seq<string>, list: seq<Redirect<string>>)
    requires |argv| + 1 < MAXARGS && ParseRedirs(ts).Redirects?
    ensures ParseArgs([Tok('a', w)] + ts, argv, list) == ParseArgs(ParseRedirs(ts).rest, argv + [w], list
            + ParseRedirs(ts).list)
  {
    hide ParseRedirs;
    assert ([Tok('a', w)] + ts)[1..] == ts;
  }

  lemma ArgsEnd(ts: seq<Tok<string>>, argv: seq<string>, list: seq<Redirect<string>>)
    requires Follow(ts)
    ensures ParseArgs(ts, argv, list) == Ok(Wrap(Exec(argv), list), ts)
  {
  }

  lemma {:induction false} ArgsPrinted(argv: seq<string>, list: seq<Redirect<string>>, rest: seq<Tok<string>>,
      before: seq<string>)
    requires argv != [] && |before| + |argv| < MAXARGS && Ops(list) && Follow(rest)
    ensures ParseArgs(Words(argv) + RedToks(list) + rest, before, []) == Ok(Wrap(Exec(before + argv), list), rest)
    decreases |argv|
  {
    hide ParseArgs, ParseRedirs, RedToks, Wrap;
    var w, more := argv[0], Words(argv[1..]) + RedToks(list) + rest;
    assert Words(argv) + RedToks(list) + rest == [Tok('a', w)] + more;
    if |argv| == 1 {
      assert more == RedToks(list) + rest;
      RedirsPrinted(list, rest);
      OneWord(w, more, before, []);
      ArgsEnd(rest, before + [w], [] + list);
      assert before + [w] == before + argv && [] + list == list;
    } else {
      assert more[0] == Tok('a', argv[1]);
      NoRedirs(more);
      OneWord(w, more, before, []);
      assert [] + ParseRedirs(more).list == [];
      ArgsPrinted(argv[1..], list, rest, before + [w]);
      assert before + [w] + argv[1..] == before + argv;
    }
  }

  lemma NoParen(ts: seq<Tok<string>>)
    requires !At(ts, '(') && ParseRedirs(ts).Redirects?
    ensures ParseExec(ts) == ParseArgs(ParseRedirs(ts).rest, [], ParseRedirs(ts).list)
  {
    hide ParseRedirs, ParseArgs;
  }

  lemma SimplePrinted(argv: seq<string>, list: seq<Redirect<string>>, rest: seq<Tok<string>>)
    requires |argv| < MAXARGS && Ops(list) && Follow(rest)
    ensures ParseExec(Words(argv) + RedToks(list) + rest) == Ok(Wrap(Exec(argv), list), rest)
  {
    hide ParseArgs, ParseRedirs, RedToks, Wrap, ParseExec;
    var ts := Words(argv) + RedToks(list) + rest;
    if argv == [] {
      assert ts == RedToks(list) + rest;
      RedirsPrinted(list, rest);
      NotParen(list, rest);
      NoParen(ts);
      ArgsEnd(rest, [], list);
    } else {
      assert ts[0] == Tok('a', argv[0]);
      NoRedirs(ts);
      NoParen(ts);
      ArgsPrinted(argv, list, rest, []);
      assert [] + argv == argv;
    }
  }

  lemma NotParen(list: seq<Redirect<string>>, rest: seq<Tok<string>>)
    requires Ops(list) && Follow(rest)
    ensures !At(RedToks(list) + rest, '(')
  {
    if list == [] {
      assert RedToks(list) + rest == rest;
    } else {
      hide RedToks;
      RedToksFirst(list);
      assert (RedToks(list) + rest)[0] == Sign(list[0].op);
    }
  }

  predicate Composite(c: Cmd<string>) { c.List? || c.Back? || c.Pipe? }

  lemma InParens(c: Cmd<string>)
    requires Composite(c)
    ensures PrintExec(c) == [Sign('(')] + PrintLine(c) + [Sign(')')]
  {
    match c
    case List(l, r) =>
      assert PrintLine(c) == PrintBacks(l) + [Sign(';')] + PrintLine(r);
    case Back(x) =>
      assert PrintLine(c) == PrintBacks(c) && PrintBacks(c) == PrintBacks(x) + [Sign('&')];
    case Pipe(l, r) =>
      assert PrintLine(c) == PrintBacks(c) && PrintBacks(c) == PrintPipe(c);
      assert PrintPipe(c) == PrintExec(l) + [Sign('|')] + PrintPipe(r);
  }

  /** What parseblock() makes of a line in parentheses with redirections after it. */
  lemma Block(line: seq<Tok<string>>, c: Cmd<string>, list: seq<Redirect<string>>, rest: seq<Tok<string>>)
    requires Ops(list) && Follow(rest)
    requires ParseLine(line + ([Sign(')')] + (RedToks(list) + rest))) == Ok(c, [Sign(')')] + (RedToks(list) + rest))
    ensures ParseExec([Sign('(')] + (line + ([Sign(')')] + (RedToks(list) + rest)))) == Ok(Wrap(c, list), rest)
  {
    hide ParseLine, ParseRedirs, RedToks, Wrap, ParseArgs;
    var inner := line + ([Sign(')')] + (RedToks(list) + rest));
    assert ([Sign('(')] + inner)[1..] == inner;
    assert ([Sign(')')] + (RedToks(list) + rest))[1..] == RedToks(list) + rest;
    RedirsPrinted(list, rest);
  }

  lemma {:induction false} ExecPrinted(c: Cmd<string>, rest: seq<Tok<string>>)
    requires Expressible(c) && Follow(rest)
    ensures ParseExec(PrintExec(c) + rest) == Ok(c, rest)
    decreases c, 1
  {
    hide ParseExec, ParseLine, RedToks, Wrap, PrintLine, PrintExec, Words, Base, Reds;
    Stripped(c);
    var b, list := Base(c), Reds(c);
    if b.Exec? {
      PrintsWords(b.argv);
      SimplePrinted(b.argv, list, rest);
    } else {
      InParens(b);
      var tail := [Sign(')')] + (RedToks(list) + rest);
      assert PrintExec(c) + rest == [Sign('(')] + (PrintLine(b) + tail);
      LinePrinted(b, tail);
      Block(PrintLine(b), b, list, rest);
    }
  }

  lemma PrintsWords(argv: seq<string>)
    ensures PrintExec(Exec(argv)) == Words(argv)
  {
  }

  lemma {:induction false} PipePrinted(c: Cmd<string>, rest: seq<Tok<string>>)
    requires Expressible(c) && Follow(rest) && !At(rest, '|')
    ensures ParsePipe(PrintPipe(c) + rest) == Ok(c, rest)
    decreases c, 2
  {
    hide ParseExec, PrintExec, PrintLine, PrintBacks;
    if c.Pipe? {
      var more := PrintPipe(c.right) + rest;
      assert PrintPipe(c) + rest == PrintExec(c.left) + ([Sign('|')] + more);
      ExecPrinted(c.left, [Sign('|')] + more);
      assert ([Sign('|')] + more)[1..] == more;
      PipePrinted(c.right, rest);
    } else {
      ExecPrinted(c, rest);
    }
  }

  /** Where the loop over '&' stands after the command that it follows. */
  lemma {:induction false} BacksPrinted(c: Cmd<string>, rest: seq<Tok<string>>)
    requires Expressible(c) && Follow(rest) && !At(rest, '|')
    ensures var f := ParsePipe(PrintBacks(c) + rest); f.Ok? && ParseBacks(f.cmd, f.rest) == ParseBacks(c, rest)
    decreases c, 3
  {
    hide ParsePipe, PrintPipe, PrintExec, PrintLine;
    if c.Back? {
      assert PrintBacks(c) + rest == PrintBacks(c.cmd) + ([Sign('&')] + rest);
      BacksPrinted(c.cmd, [Sign('&')] + rest);
      assert ([Sign('&')] + rest)[1..] == rest;
    } else {
      PipePrinted(c, rest);
    }
  }

  /** A line ends with the input or with a parenthesis. */
  lemma {:induction false} LinePrinted(c: Cmd<string>, rest: seq<Tok<string>>)
    requires Expressible(c) && (rest == [] || At(rest, ')'))
    ensures ParseLine(PrintLine(c) + rest) == Ok(c, rest)
    decreases c, if Composite(c) then 0 else 4
  {
    hide ParsePipe, ParseBacks, PrintBacks, PrintPipe, PrintExec;
    match c
    case List(l, r) =>
      var more := [Sign(';')] + (PrintLine(r) + rest);
      assert PrintLine(c) + rest == PrintBacks(l) + more;
      BacksPrinted(l, more);
      NoBacks(l, more);
      assert more[1..] == PrintLine(r) + rest;
      LinePrinted(r, rest);
    case Back(x) =>
      BackLine(x);
      assert PrintLine(c) + rest == PrintBacks(x) + ([Sign('&')] + rest);
      BacksPrinted(x, [Sign('&')] + rest);
      OneBack(x, rest);
      NoBacks(c, rest);
    case Pipe(l, r) =>
      PipeLine(c);
      PipeRest(l, r, rest);
      ExecPrinted(l, [Sign('|')] + (PrintPipe(r) + rest));
      PipePrinted(r, rest);
      PipeParsed(l, r, rest);
      NoBacks(c, rest);
    case _ =>
      SimpleLine(c);
      PipePrinted(c, rest);
      NoBacks(c, rest);
  }

  lemma NoBacks(c: Cmd<string>, ts: seq<Tok<string>>)
    requires !At(ts, '&')
    ensures ParseBacks(c, ts) == Ok(c, ts)
  {
  }

  lemma OneBack(x: Cmd<string>, ts: seq<Tok<string>>)
    ensures ParseBacks(x, [Sign('&')] + ts) == ParseBacks(Back(x), ts)
  {
    assert ([Sign('&')] + ts)[1..] == ts;
  }

  lemma BackLine(x: Cmd<string>)
    ensures PrintLine(Back(x)) == PrintBacks(x) + [Sign('&')]
  {
    assert PrintLine(Back(x)) == PrintBacks(Back(x));
  }

  lemma PipeLine(c: Cmd<string>)
    requires c.Pipe?
    ensures PrintLine(c) == PrintPipe(c)
  {
    assert PrintLine(c) == PrintBacks(c);
  }

  lemma SimpleLine(c: Cmd<string>)
    requires c.Exec? || c.Redir?
    ensures PrintLine(c) == PrintPipe(c)
  {
    assert PrintLine(c) == PrintBacks(c);
  }

  lemma PipeRest(l: Cmd<string>, r: Cmd<string>, rest: seq<Tok<string>>)
    ensures PrintPipe(Pipe(l, r)) + rest == PrintExec(l) + ([Sign('|')] + (PrintPipe(r) + rest))
  {
    hide PrintExec, PrintLine, PrintBacks;
    assert PrintPipe(Pipe(l, r)) == PrintExec(l) + [Sign('|')] + PrintPipe(r);
    Regroup(PrintExec(l), [Sign('|')], PrintPipe(r), rest);
  }

  lemma Regroup<T>(a: seq<T>, b: seq<T>, c: seq<T>, d: seq<T>)
    ensures a + b + c + d == a + (b + (c + d))
  {
  }

  lemma PipeParsed(l: Cmd<string>, r: Cmd<string>, rest: seq<Tok<string>>)
    requires ParseExec(PrintExec(l) + ([Sign('|')] + (PrintPipe(r) + rest))) == Ok(l, [Sign('|')]
             + (PrintPipe(r) + rest))
    requires ParsePipe(PrintPipe(r) + rest) == Ok(r, rest)
    ensures ParsePipe(PrintPipe(Pipe(l, r)) + rest) == Ok(Pipe(l, r), rest)
  {
    hide ParseExec, PrintExec, PrintPipe;
    PipeRest(l, r, rest);
    assert ([Sign('|')] + (PrintPipe(r) + rest))[1..] == PrintPipe(r) + rest;
  }

  /** Parsing what the printer prints gives the command back. */
  lemma RoundTrip(c: Cmd<string>)
    requires Expressible(c)
    ensures ParseCmd(PrintLine(c)) == Ok(c, [])
  {
    hide ParseLine, PrintLine;
    LinePrinted(c, []);
    assert PrintLine(c) + [] == PrintLine(c);
  }
}
