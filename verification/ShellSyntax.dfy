/** The command language of riscv/user/sh.c:271-499 as a grammar: syntax trees with the tokens they stand for. The
    recursive-descent routines accept exactly these token sequences and build exactly their commands. */
module ShellSyntax {
  import opened ShellGrammar

  /** What a simple command is made of, in any order: words, and redirections to a file. */
  datatype Item = Word(w: string) | Into(r: Redirect<string>)

  datatype Simple = Plain(items: seq<Item>) | Block(line: Line, items: seq<Item>)

  datatype Pipeline = One(exec: Simple) | Bar(exec: Simple, more: Pipeline)

  datatype Line = Last(pipe: Pipeline, amps: nat) | Then(pipe: Pipeline, amps: nat, more: Line)

  // The tokens that syntax stands for

  function Toks(x: Item): (ts: seq<Tok<string>>) {
    match x
    case Word(w) => [Tok('a', w)]
    case Into(r) => [Sign(r.op), Tok('a', r.file)]
  }

  function ItemToks(items: seq<Item>): (ts: seq<Tok<string>>)
    decreases |items|
  {
    if items == [] then [] else Toks(items[0]) + ItemToks(items[1..])
  }

  function SimpleToks(e: Simple): (ts: seq<Tok<string>>) {
    match e
    case Plain(items) => ItemToks(items)
    case Block(line, items) => [Sign('(')] + (LineToks(line) + ([Sign(')')] + ItemToks(items)))
  }

  function PipeToks(p: Pipeline): (ts: seq<Tok<string>>) {
    match p
    case One(e) => SimpleToks(e)
    case Bar(e, more) => SimpleToks(e) + ([Sign('|')] + PipeToks(more))
  }

  function Amps(n: nat): (ts: seq<Tok<string>>) { if n == 0 then [] else [Sign('&')] + Amps(n - 1) }

  function LineToks(l: Line): (ts: seq<Tok<string>>) {
    match l
    case Last(p, n) => PipeToks(p) + Amps(n)
    case Then(p, n, more) => PipeToks(p) + (Amps(n) + ([Sign(';')] + LineToks(more)))
  }

  // The command that it means

  function WordsOf(items: seq<Item>): (ws: seq<string>)
    decreases |items|
  {
    if items == [] then [] else (if items[0].Word? then [items[0].w] else []) + WordsOf(items[1..])
  }

  function RedsOf(items: seq<Item>): (list: seq<Redirect<string>>)
    decreases |items|
  {
    if items == [] then [] else (if items[0].Into? then [items[0].r] else []) + RedsOf(items[1..])
  }

  function SimpleTree(e: Simple): (c: Cmd<string>) {
    match e
    case Plain(items) => Wrap(Exec(WordsOf(items)), RedsOf(items))
    case Block(line, items) => Wrap(LineTree(line), RedsOf(items))
  }

  function PipeTree(p: Pipeline): (c: Cmd<string>) {
    match p
    case One(e) => SimpleTree(e)
    case Bar(e, more) => Pipe(SimpleTree(e), PipeTree(more))
  }

  function Backs(c: Cmd<string>, n: nat): (r: Cmd<string>)
    decreases n
  {
    if n == 0 then c else Backs(Back(c), n - 1)
  }

  function LineTree(l: Line): (c: Cmd<string>) {
    match l
    case Last(p, n) => Backs(PipeTree(p), n)
    case Then(p, n, more) => List(Backs(PipeTree(p), n), LineTree(more))
  }

  // Which syntax there is

  predicate IsOp(op: char) { op == '<' || op == '>' || op == '+' }

  predicate OpsOk(items: seq<Item>) { forall i :: 0 <= i < |items| && items[i].Into? ==> IsOp(items[i].r.op) }

  predicate OnlyReds(items: seq<Item>) { forall i :: 0 <= i < |items| ==> items[i].Into? }

  predicate SimpleOk(e: Simple) {
    match e
    case Plain(items) => OpsOk(items) && |WordsOf(items)| < MAXARGS
    case Block(line, items) => LineOk(line) && OpsOk(items) && OnlyReds(items)
  }

  predicate PipeOk(p: Pipeline) {
    match p
    case One(e) => SimpleOk(e)
    case Bar(e, more) => SimpleOk(e) && PipeOk(more)
  }

  predicate LineOk(l: Line) {
    match l
    case Last(p, _) => PipeOk(p)
    case Then(p, _, more) => PipeOk(p) && LineOk(more)
  }

  // All of it is accepted

  /** The number of redirections at the front. */
  function Lead(items: seq<Item>): (n: nat)
    ensures n <= |items|
    decreases |items|
  {
    if items != [] && items[0].Into? then 1 + Lead(items[1..]) else 0
  }

  lemma First(x: Item, tail: seq<Item>)
    ensures ItemToks([x] + tail) == Toks(x) + ItemToks(tail)
    ensures WordsOf([x] + tail) == (if x.Word? then [x.w] else []) + WordsOf(tail)
    ensures RedsOf([x] + tail) == (if x.Into? then [x.r] else []) + RedsOf(tail)
  {
    assert ([x] + tail)[1..] == tail;
  }

  lemma OneRedir(r: Redirect<string>, ts: seq<Tok<string>>)
    requires IsOp(r.op) && ParseRedirs(ts).Redirects?
    ensures ParseRedirs([Sign(r.op), Tok('a', r.file)] + ts) ==
            Redirects([r] + ParseRedirs(ts).list, ParseRedirs(ts).rest)
  {
    var all := [Sign(r.op), Tok('a', r.file)] + ts;
    assert all[2..] == ts && all[1..][0] == all[1];
  }

  lemma {:induction false} RedirsAccepted(items: seq<Item>, rest: seq<Tok<string>>)
    requires OpsOk(items) && !AtRedirect(rest)
    ensures ParseRedirs(ItemToks(items) + rest) ==
            Redirects(RedsOf(items[..Lead(items)]), ItemToks(items[Lead(items)..]) + rest)
    decreases |items|
  {
    if items == [] {
      assert ItemToks(items) + rest == rest;
    } else if items[0].Into? {
      hide ItemToks, RedsOf, ParseRedirs;
      var x, tail, n := items[0], items[1..], Lead(items[1..]);
      assert items == [x] + tail && items[..1 + n] == [x] + tail[..n] && items[1 + n..] == tail[n..];
      First(x, tail);
      First(x, tail[..n]);
      RedirsAccepted(tail, rest);
      Joined(Toks(x), ItemToks(tail), rest);
      OneRedir(x.r, ItemToks(tail) + rest);
    } else {
      assert items[0..] == items && items[..0] == [];
      assert (ItemToks(items) + rest)[0] == Tok('a', items[0].w);
    }
  }

  lemma {:induction false} LeadSplit(items: seq<Item>)
    ensures var n := Lead(items);
            && WordsOf(items) == WordsOf(items[n..]) && RedsOf(items) == RedsOf(items[..n]) + RedsOf(items[n..])
            && (n < |items| ==> items[n].Word?) && (OnlyReds(items) ==> n == |items|)
    decreases |items|
  {
    if items != [] && items[0].Into? {
      hide WordsOf, RedsOf, ItemToks;
      var x, tail, n := items[0], items[1..], Lead(items[1..]);
      LeadSplit(tail);
      assert items == [x] + tail && items[..1 + n] == [x] + tail[..n] && items[1 + n..] == tail[n..];
      First(x, tail);
      First(x, tail[..n]);
      Joined([x.r], RedsOf(tail[..n]), RedsOf(tail[n..]));
      assert [] + WordsOf(tail) == WordsOf(tail);
      if OnlyReds(items) {
        assert forall i :: 0 <= i < |tail| ==> tail[i] == items[i + 1];
      }
    } else {
      assert items[0..] == items && items[..0] == [];
    }
  }

  /** The loop over arguments takes words and redirections in any order. */
  lemma {:induction false} ArgsAccepted(items: seq<Item>, rest: seq<Tok<string>>, argv: seq<string>,
                                        list: seq<Redirect<string>>)
    requires OpsOk(items) && Follow(rest) && (items != [] ==> items[0].Word?) && |argv| + |WordsOf(items)| < MAXARGS
    ensures ParseArgs(ItemToks(items) + rest, argv, list) ==
            Ok(Wrap(Exec(argv + WordsOf(items)), list + RedsOf(items)), rest)
    decreases |items|
  {
    hide ParseArgs, ParseRedirs, Wrap, ItemToks, WordsOf, RedsOf;
    if items == [] {
      NoItems(rest);
      assert argv + [] == argv && list + [] == list;
      ArgsEnd(rest, argv, list);
    } else {
      var w, tail := items[0].w, items[1..];
      var n := Lead(tail);
      assert items == [items[0]] + tail;
      First(items[0], tail);
      Joined([Tok('a', w)], ItemToks(tail), rest);
      RedirsAccepted(tail, rest);
      OneWord(w, ItemToks(tail) + rest, argv, list);
      LeadSplit(tail);
      ArgsAccepted(tail[n..], rest, argv + [w], list + RedsOf(tail[..n]));
      assert argv + [w] + WordsOf(tail) == argv + WordsOf(items);
      assert list + RedsOf(tail[..n]) + RedsOf(tail[n..]) == list + RedsOf(items);
    }
  }

  lemma PlainAccepted(items: seq<Item>, rest: seq<Tok<string>>)
    requires OpsOk(items) && |WordsOf(items)| < MAXARGS && Follow(rest)
    ensures ParseExec(ItemToks(items) + rest) == Ok(SimpleTree(Plain(items)), rest)
  {
    hide ParseArgs, ParseRedirs, Wrap, ParseExec, WordsOf, RedsOf;
    var ts, n := ItemToks(items) + rest, Lead(items);
    RedirsAccepted(items, rest);
    LeadSplit(items);
    StartsPlain(items, rest);
    NoParen(ts);
    ArgsAccepted(items[n..], rest, [], RedsOf(items[..n]));
    assert [] + WordsOf(items[n..]) == WordsOf(items);
  }

  lemma StartsPlain(items: seq<Item>, rest: seq<Tok<string>>)
    requires OpsOk(items) && Follow(rest)
    ensures !At(ItemToks(items) + rest, '(')
  {
    if items == [] {
      assert ItemToks(items) + rest == rest;
    }
  }

  lemma {:induction false} SimpleAccepted(e: Simple, rest: seq<Tok<string>>)
    requires SimpleOk(e) && Follow(rest)
    ensures ParseExec(SimpleToks(e) + rest) == Ok(SimpleTree(e), rest)
    decreases e, 0
  {
    hide ParseExec, ParseLine, ParseRedirs, ParseArgs, Wrap, LineToks, LineTree, ItemToks, OpsOk;
    match e
    case Plain(items) =>
      PlainAccepted(items, rest);
    case Block(line, items) =>
      var tail := ItemToks(items) + rest;
      var close := [Sign(')')] + tail;
      assert SimpleToks(e) + rest == [Sign('(')] + (LineToks(line) + close);
      LineAccepted(line, close);
      RedirsAccepted(items, rest);
      LeadSplit(items);
      assert items[|items|..] == [] && items[..|items|] == items;
      NoItems(rest);
      BlockParsed(LineToks(line), LineTree(line), tail);
  }

  lemma NoItems(rest: seq<Tok<string>>)
    ensures ItemToks([]) + rest == rest && RedsOf([]) == [] && WordsOf([]) == []
  {
  }

  lemma BlockParsed(line: seq<Tok<string>>, c: Cmd<string>, tail: seq<Tok<string>>)
    requires ParseLine(line + ([Sign(')')] + tail)) == Ok(c, [Sign(')')] + tail) && ParseRedirs(tail).Redirects?
    ensures ParseExec([Sign('(')] + (line + ([Sign(')')] + tail))) ==
            Ok(Wrap(c, ParseRedirs(tail).list), ParseRedirs(tail).rest)
  {
    hide ParseLine, ParseRedirs, Wrap, ParseArgs;
    assert ([Sign('(')] + (line + ([Sign(')')] + tail)))[1..] == line + ([Sign(')')] + tail);
    assert ([Sign(')')] + tail)[1..] == tail;
  }

  lemma {:induction false} PipeAccepted(p: Pipeline, rest: seq<Tok<string>>)
    requires PipeOk(p) && Follow(rest) && !At(rest, '|')
    ensures ParsePipe(PipeToks(p) + rest) == Ok(PipeTree(p), rest)
    decreases p, 1
  {
    hide ParseExec, SimpleToks, SimpleTree, SimpleOk;
    match p
    case One(e) =>
      SimpleAccepted(e, rest);
    case Bar(e, more) =>
      var tail := PipeToks(more) + rest;
      assert PipeToks(p) + rest == SimpleToks(e) + ([Sign('|')] + tail);
      SimpleAccepted(e, [Sign('|')] + tail);
      assert ([Sign('|')] + tail)[1..] == tail;
      PipeAccepted(more, rest);
  }

  lemma {:induction false} AmpsAccepted(c: Cmd<string>, n: nat, rest: seq<Tok<string>>)
    requires !At(rest, '&')
    ensures ParseBacks(c, Amps(n) + rest) == Ok(Backs(c, n), rest)
    decreases n
  {
    if n == 0 {
      assert Amps(n) + rest == rest;
    } else {
      assert (Amps(n) + rest)[1..] == Amps(n - 1) + rest;
      AmpsAccepted(Back(c), n - 1, rest);
    }
  }

  lemma AmpsFollow(n: nat, rest: seq<Tok<string>>)
    requires Follow(rest) && !At(rest, '|')
    ensures Follow(Amps(n) + rest) && !At(Amps(n) + rest, '|')
  {
    if n == 0 {
      assert Amps(n) + rest == rest;
    }
  }

  /** A line ends with the input or with a parenthesis. */
  lemma {:induction false} LineAccepted(l: Line, rest: seq<Tok<string>>)
    requires LineOk(l) && (rest == [] || At(rest, ')'))
    ensures ParseLine(LineToks(l) + rest) == Ok(LineTree(l), rest)
    decreases l, 2
  {
    hide ParsePipe, ParseBacks, PipeToks, PipeTree, PipeOk, Amps, Backs;
    match l
    case Last(p, n) =>
      assert LineToks(l) + rest == PipeToks(p) + (Amps(n) + rest);
      AmpsFollow(n, rest);
      PipeAccepted(p, Amps(n) + rest);
      AmpsAccepted(PipeTree(p), n, rest);
    case Then(p, n, more) =>
      var tail := LineToks(more) + rest;
      var semi := [Sign(';')] + tail;
      assert LineToks(l) + rest == PipeToks(p) + (Amps(n) + semi);
      AmpsFollow(n, semi);
      PipeAccepted(p, Amps(n) + semi);
      AmpsAccepted(PipeTree(p), n, semi);
      assert semi[1..] == tail;
      LineAccepted(more, rest);
  }

  // Nothing else is accepted

  /** Signs carry no word. */
  predicate Signs(ts: seq<Tok<string>>) { forall i :: 0 <= i < |ts| && ts[i].kind != 'a' ==> ts[i] == Sign(ts[i].kind) }

  lemma SignsFrom(ts: seq<Tok<string>>, k: nat)
    requires Signs(ts) && k <= |ts|
    ensures Signs(ts[k..])
  {
    forall i | 0 <= i < |ts[k..]| && ts[k..][i].kind != 'a'
      ensures ts[k..][i] == Sign(ts[k..][i].kind)
    {
      assert ts[k..][i] == ts[k + i];
    }
  }

  lemma SignAt(ts: seq<Tok<string>>, kind: char)
    requires Signs(ts) && At(ts, kind) && kind != 'a'
    ensures ts == [Sign(kind)] + ts[1..] && Signs(ts[1..])
  {
    SignsFrom(ts, 1);
  }

  lemma {:induction false} RedirsSound(ts: seq<Tok<string>>) returns (items: seq<Item>)
    requires Signs(ts) && ParseRedirs(ts).Redirects?
    ensures OpsOk(items) && OnlyReds(items) && RedsOf(items) == ParseRedirs(ts).list && WordsOf(items) == []
    ensures ts == ItemToks(items) + ParseRedirs(ts).rest && Signs(ParseRedirs(ts).rest)
    decreases |ts|
  {
    hide ItemToks, WordsOf, RedsOf;
    items := [];
    NoItems(ts);
    if AtRedirect(ts) {
      SignsFrom(ts, 2);
      var more := RedirsSound(ts[2..]);
      var r := Redirect(ts[0].kind, ts[1].word);
      items := [Into(r)] + more;
      First(Into(r), more);
      assert ts[1..][0] == ts[1];
      assert ts == [Sign(r.op), Tok('a', r.file)] + ts[2..];
      Joined([Sign(r.op), Tok('a', r.file)], ItemToks(more), ParseRedirs(ts).rest);
    }
  }

  lemma Joined<T>(a: seq<T>, b: seq<T>, c: seq<T>)
    ensures a + (b + c) == (a + b) + c
  {
  }

  lemma {:induction false} ToksJoin(a: seq<Item>, b: seq<Item>)
    ensures ItemToks(a + b) == ItemToks(a) + ItemToks(b)
    decreases |a|
  {
    if a == [] {
      assert a + b == b;
    } else {
      hide Toks;
      assert (a + b)[0] == a[0] && (a + b)[1..] == a[1..] + b;
      ToksJoin(a[1..], b);
      Joined(Toks(a[0]), ItemToks(a[1..]), ItemToks(b));
    }
  }

  lemma {:induction false} WordsJoin(a: seq<Item>, b: seq<Item>)
    ensures WordsOf(a + b) == WordsOf(a) + WordsOf(b)
    decreases |a|
  {
    if a == [] {
      assert a + b == b;
    } else {
      assert (a + b)[0] == a[0] && (a + b)[1..] == a[1..] + b;
      WordsJoin(a[1..], b);
    }
  }

  lemma {:induction false} RedsJoin(a: seq<Item>, b: seq<Item>)
    ensures RedsOf(a + b) == RedsOf(a) + RedsOf(b)
    decreases |a|
  {
    if a == [] {
      assert a + b == b;
    } else {
      assert (a + b)[0] == a[0] && (a + b)[1..] == a[1..] + b;
      RedsJoin(a[1..], b);
    }
  }

  lemma ItemsJoin(a: seq<Item>, b: seq<Item>)
    ensures ItemToks(a + b) == ItemToks(a) + ItemToks(b)
    ensures WordsOf(a + b) == WordsOf(a) + WordsOf(b) && RedsOf(a + b) == RedsOf(a) + RedsOf(b)
  {
    hide ItemToks, WordsOf, RedsOf;
    ToksJoin(a, b);
    WordsJoin(a, b);
    RedsJoin(a, b);
  }

  /** A word, the redirections behind it and what follows, put together. */
  lemma WordAndReds(w: string, reds: seq<Item>, more: seq<Item>, argv: seq<string>, list: seq<Redirect<string>>,
                    rest: seq<Tok<string>>)
    requires WordsOf(reds) == []
    ensures var items := [Word(w)] + (reds + more);
            && argv + WordsOf(items) == argv + [w] + WordsOf(more)
            && list + RedsOf(items) == list + RedsOf(reds) + RedsOf(more)
            && ItemToks(items) + rest == [Tok('a', w)] + (ItemToks(reds) + (ItemToks(more) + rest))
  {
    hide ItemToks, RedsOf, WordsOf;
    ItemsJoin(reds, more);
    First(Word(w), reds + more);
    Regroup([Tok('a', w)], ItemToks(reds), ItemToks(more), rest);
    Joined([Tok('a', w)], ItemToks(reds), ItemToks(more));
  }

  lemma {:induction false} ArgsSound(ts: seq<Tok<string>>, argv: seq<string>, list: seq<Redirect<string>>)
    returns (items: seq<Item>)
    requires Signs(ts) && ParseArgs(ts, argv, list).Ok? && |argv| < MAXARGS
    ensures OpsOk(items) && |argv| + |WordsOf(items)| < MAXARGS
    ensures ParseArgs(ts, argv, list).cmd == Wrap(Exec(argv + WordsOf(items)), list + RedsOf(items))
    ensures ts == ItemToks(items) + ParseArgs(ts, argv, list).rest && Signs(ParseArgs(ts, argv, list).rest)
    decreases |ts|
  {
    hide ParseRedirs, Wrap, ItemToks, OpsOk, WordsOf, RedsOf, Signs;
    items := [];
    NoItems(ts);
    OpsNone();
    if AtStop(ts) || ts == [] {
      assert argv + [] == argv && list + [] == list;
    } else {
      var w := ts[0].word;
      SignsFrom(ts, 1);
      var reds := RedirsSound(ts[1..]);
      var p := ParseRedirs(ts[1..]);
      var more := ArgsSound(p.rest, argv + [w], list + p.list);
      items := [Word(w)] + (reds + more);
      WordAndReds(w, reds, more, argv, list, ParseArgs(ts, argv, list).rest);
      assert ts == [Tok('a', w)] + ts[1..];
      OpsJoin(reds, more);
      OpsJoin([Word(w)], reds + more);
    }
  }

  lemma {:induction false} SimpleSound(ts: seq<Tok<string>>) returns (e: Simple)
    requires Signs(ts) && ParseExec(ts).Ok?
    ensures SimpleOk(e) && ParseExec(ts).cmd == SimpleTree(e)
    ensures ts == SimpleToks(e) + ParseExec(ts).rest && Signs(ParseExec(ts).rest)
    decreases |ts|, 0
  {
    hide ParseLine, ParseRedirs, ParseArgs, Wrap, LineToks, LineTree, ItemToks, OpsOk, LineOk;
    if At(ts, '(') {
      SignAt(ts, '(');
      var line := LineSound(ts[1..]);
      var p := ParseLine(ts[1..]);
      SignAt(p.rest, ')');
      var items := RedirsSound(p.rest[1..]);
      e := Block(line, items);
      assert ts == [Sign('(')] + (LineToks(line) + ([Sign(')')] + (ItemToks(items) + ParseExec(ts).rest)));
    } else {
      var first := RedirsSound(ts);
      var p := ParseRedirs(ts);
      var more := ArgsSound(p.rest, [], p.list);
      e := Plain(first + more);
      ItemsJoin(first, more);
      OpsJoin(first, more);
      assert [] + WordsOf(more) == WordsOf(more);
      assert ts == ItemToks(first) + (ItemToks(more) + ParseExec(ts).rest);
    }
  }

  lemma OpsNone()
    ensures OpsOk([])
  {
  }

  lemma OpsJoin(a: seq<Item>, b: seq<Item>)
    requires OpsOk(a) && OpsOk(b)
    ensures OpsOk(a + b)
  {
  }

  lemma {:induction false} PipeSound(ts: seq<Tok<string>>) returns (p: Pipeline)
    requires Signs(ts) && ParsePipe(ts).Ok?
    ensures PipeOk(p) && ParsePipe(ts).cmd == PipeTree(p)
    ensures ts == PipeToks(p) + ParsePipe(ts).rest && Signs(ParsePipe(ts).rest)
    decreases |ts|, 1
  {
    hide ParseExec, SimpleToks, SimpleTree, SimpleOk;
    var e := SimpleSound(ts);
    p := One(e);
    var left := ParseExec(ts);
    if At(left.rest, '|') {
      SignAt(left.rest, '|');
      var more := PipeSound(left.rest[1..]);
      p := Bar(e, more);
      assert ts == SimpleToks(e) + ([Sign('|')] + (PipeToks(more) + ParsePipe(ts).rest));
    }
  }

  lemma {:induction false} AmpsSound(c: Cmd<string>, ts: seq<Tok<string>>) returns (n: nat)
    requires Signs(ts)
    ensures ParseBacks(c, ts).cmd == Backs(c, n) && ts == Amps(n) + ParseBacks(c, ts).rest
    ensures Signs(ParseBacks(c, ts).rest)
    decreases |ts|
  {
    n := 0;
    if At(ts, '&') {
      SignAt(ts, '&');
      var m := AmpsSound(Back(c), ts[1..]);
      n := m + 1;
      assert Amps(n) == [Sign('&')] + Amps(m);
      Joined([Sign('&')], Amps(m), ParseBacks(c, ts).rest);
    }
  }

  lemma {:induction false} LineSound(ts: seq<Tok<string>>) returns (l: Line)
    requires Signs(ts) && ParseLine(ts).Ok?
    ensures LineOk(l) && ParseLine(ts).cmd == LineTree(l)
    ensures ts == LineToks(l) + ParseLine(ts).rest && Signs(ParseLine(ts).rest)
    decreases |ts|, 2
  {
    hide ParsePipe, ParseBacks, PipeToks, PipeTree, PipeOk, Amps, Backs;
    var first := ParsePipe(ts);
    var p := PipeSound(ts);
    var n := AmpsSound(first.cmd, first.rest);
    l := Last(p, n);
    var left := ParseBacks(first.cmd, first.rest);
    if At(left.rest, ';') {
      SignAt(left.rest, ';');
      var more := LineSound(left.rest[1..]);
      l := Then(p, n, more);
      assert ts == PipeToks(p) + (Amps(n) + ([Sign(';')] + (LineToks(more) + ParseLine(ts).rest)));
    } else {
      assert ts == PipeToks(p) + (Amps(n) + ParseLine(ts).rest);
    }
  }

  /** The tokens are a line of the grammar that means c. */
  ghost predicate Means(ts: seq<Tok<string>>, c: Cmd<string>) {
    exists l: Line :: LineOk(l) && LineToks(l) == ts && LineTree(l) == c
  }

  /** The parser accepts exactly the lines of the grammar, and builds what they mean, which is one command only. */
  lemma AcceptsExactly(ts: seq<Tok<string>>, c: Cmd<string>)
    requires Signs(ts)
    ensures ParseCmd(ts) == Ok(c, []) <==> Means(ts, c)
    ensures ParseCmd(ts).Ok? ==> ParseCmd(ts).rest == []
  {
    hide ParseLine, LineToks, LineTree, LineOk;
    if ParseCmd(ts) == Ok(c, []) {
      var l := LineSound(ts);
      assert LineToks(l) == LineToks(l) + [];
    }
    if Means(ts, c) {
      var l: Line :| LineOk(l) && LineToks(l) == ts && LineTree(l) == c;
      LineAccepted(l, []);
      assert LineToks(l) + [] == ts;
    }
  }
}
