/**
 The shell's language, apart from its parser: how lexemes are spelled in a line, which sequences of
 lexemes are commands, and which command each of them stands for.
 */
module ShellGrammar {
  import opened Basics
  import opened Shell

  // ---------------------------------------------------------------- commands

  /** A command with its words as strings. */
  datatype Cmd =
    | Run(argv: seq<string>)
    | Redirect(cmd: Cmd, file: string, mode: Mode)
    | Piped(left: Cmd, right: Cmd)
    | Then(left: Cmd, right: Cmd)
    | Background(cmd: Cmd)

  predicate SpanOk(s: string, w: Span) { 0 <= w.q <= w.eq <= |s| }

  function Text(s: string, w: Span): (t: string) { if SpanOk(s, w) then s[w.q..w.eq] else "" }

  function Texts(s: string, ws: seq<Span>): (ts: seq<string>) {
    if |ws| == 0 then [] else Texts(s, ws[..|ws| - 1]) + [Text(s, ws[|ws| - 1])]
  }

  /** The command that a tree of positions in s stands for. */
  function Meaning(s: string, t: Tree): (c: Cmd) {
    match t
    case TExec(args) => Run(Texts(s, args))
    case TRedir(t', file, mode) => Redirect(Meaning(s, t'), Text(s, file), mode)
    case TPipe(l, r) => Piped(Meaning(s, l), Meaning(s, r))
    case TList(l, r) => Then(Meaning(s, l), Meaning(s, r))
    case TBack(t') => Background(Meaning(s, t'))
  }

  // ---------------------------------------------------------------- lexemes and their spelling

  predicate WordOk(w: string) { |w| > 0 && forall i :: 0 <= i < |w| ==> IsWord(w[i]) }

  datatype Lexeme = Lexeme(kind: Kind, text: string)

  function Sym(c: char): (l: Lexeme) { Lexeme(Symbol(c), [c]) }

  function WordLex(w: string): (l: Lexeme) { Lexeme(Kind.Word, w) }

  predicate LexOk(l: Lexeme) {
    match l.kind
    case End => false
    case Symbol(c) => IsSymbol(c) && l.text == [c]
    case Append => l.text == ">>"
    case Word => WordOk(l.text)
  }

  predicate Blank(s: string, i: int, j: int) {
    0 <= i <= j <= |s| && forall k :: i <= k < j ==> IsSpace(s[k])
  }

  /** The text w stands at position i of s. */
  predicate Here(s: string, i: int, w: string) { 0 <= i && i + |w| <= |s| && s[i..i + |w|] == w }

  /** A lexeme that ends at e ends there: a word is as long as it can be, and > is not the beginning of >>. */
  predicate Ends(s: string, e: int, l: Lexeme)
    requires 0 <= e <= |s|
  {
    && (l.kind.Word? && e < |s| ==> !IsWord(s[e]))
    && (l.kind == Symbol('>') && e < |s| ==> s[e] != '>')
  }

  /** After any blanks, the lexeme stands at q. */
  predicate Stands(s: string, i: int, q: int, l: Lexeme) {
    Blank(s, i, q) && LexOk(l) && Here(s, q, l.text) && Ends(s, q + |l.text|, l)
  }

  /** From position i on, the line consists of these lexemes, with blanks between, before and behind them. */
  ghost predicate Spelled(s: string, i: int, ls: seq<Lexeme>)
    decreases |ls|
  {
    if ls == [] then Blank(s, i, |s|)
    else exists q :: Stands(s, i, q, ls[0]) && Spelled(s, q + |ls[0].text|, ls[1..])
  }

  // ---------------------------------------------------------------- the grammar

  datatype Redir = Redir(mode: Mode, file: string)

  /** A simple command is a sequence of words and redirections in any order. */
  datatype Item = Arg(word: string) | Into(redir: Redir)

  /**
   script ::= pipe {"&"} [";" script]     pipe ::= unit ["|" pipe]
   unit ::= {item} | "(" script ")" {redir}
   */
  datatype Unit = Plain(items: seq<Item>) | Group(script: Script, redirs: seq<Redir>)
  datatype Pipeline = One(unit: Unit) | Bar(unit: Unit, more: Pipeline)
  datatype Script = Last(pipe: Pipeline, amps: nat) | More(pipe: Pipeline, amps: nat, rest: Script)

  function OperatorOf(m: Mode): (l: Lexeme) {
    if m.Input? then Sym('<') else if m.Output? then Sym('>') else Lexeme(Append, ">>")
  }

  function RedirLex(r: Redir): (ls: seq<Lexeme>) { [OperatorOf(r.mode), WordLex(r.file)] }

  function RedirsLex(rs: seq<Redir>): (ls: seq<Lexeme>) {
    if rs == [] then [] else RedirLex(rs[0]) + RedirsLex(rs[1..])
  }

  function ItemLex(x: Item): (ls: seq<Lexeme>) { if x.Arg? then [WordLex(x.word)] else RedirLex(x.redir) }

  function ItemsLex(xs: seq<Item>): (ls: seq<Lexeme>) {
    if xs == [] then [] else ItemLex(xs[0]) + ItemsLex(xs[1..])
  }

  function UnitLex(u: Unit): (ls: seq<Lexeme>) {
    match u
    case Plain(items) => ItemsLex(items)
    case Group(script, redirs) => [Sym('(')] + ScriptLex(script) + [Sym(')')] + RedirsLex(redirs)
  }

  function PipeLex(p: Pipeline): (ls: seq<Lexeme>) {
    match p
    case One(u) => UnitLex(u)
    case Bar(u, more) => UnitLex(u) + [Sym('|')] + PipeLex(more)
  }

  function Amps(n: nat): (ls: seq<Lexeme>) { if n == 0 then [] else [Sym('&')] + Amps(n - 1) }

  function ScriptLex(l: Script): (ls: seq<Lexeme>) {
    match l
    case Last(p, n) => PipeLex(p) + Amps(n)
    case More(p, n, rest) => PipeLex(p) + Amps(n) + [Sym(';')] + ScriptLex(rest)
  }

  // ---------------------------------------------------------------- what the grammar allows

  function WordsOf(xs: seq<Item>): (ws: seq<string>) {
    if xs == [] then [] else (if xs[0].Arg? then [xs[0].word] else []) + WordsOf(xs[1..])
  }

  function RedirsOf(xs: seq<Item>): (rs: seq<Redir>) {
    if xs == [] then [] else (if xs[0].Into? then [xs[0].redir] else []) + RedirsOf(xs[1..])
  }

  predicate RedirsOk(rs: seq<Redir>) { forall i :: 0 <= i < |rs| ==> WordOk(rs[i].file) }

  predicate ItemOk(x: Item) { WordOk(if x.Arg? then x.word else x.redir.file) }

  predicate ItemsOk(xs: seq<Item>) { forall i :: 0 <= i < |xs| ==> ItemOk(xs[i]) }

  /** Words are words, and every simple command has fewer than MAXARGS of them. */
  predicate UnitOk(u: Unit) {
    match u
    case Plain(items) => ItemsOk(items) && |WordsOf(items)| < MAXARGS
    case Group(script, redirs) => ScriptOk(script) && RedirsOk(redirs)
  }

  predicate PipeOk(p: Pipeline) {
    match p
    case One(u) => UnitOk(u)
    case Bar(u, more) => UnitOk(u) && PipeOk(more)
  }

  predicate ScriptOk(l: Script) {
    match l
    case Last(p, n) => PipeOk(p)
    case More(p, n, rest) => PipeOk(p) && ScriptOk(rest)
  }

  // ---------------------------------------------------------------- what it means

  /** Redirections around a command, the first one innermost. */
  function Nest(c: Cmd, rs: seq<Redir>): (r: Cmd)
    decreases |rs|
  {
    if rs == [] then c else Nest(Redirect(c, rs[0].file, rs[0].mode), rs[1..])
  }

  function Backgrounds(c: Cmd, n: nat): (r: Cmd)
    decreases n
  {
    if n == 0 then c else Backgrounds(Background(c), n - 1)
  }

  function UnitCmd(u: Unit): (c: Cmd) {
    match u
    case Plain(items) => Nest(Run(WordsOf(items)), RedirsOf(items))
    case Group(script, redirs) => Nest(ScriptCmd(script), redirs)
  }

  function PipeCmd(p: Pipeline): (c: Cmd) {
    match p
    case One(u) => UnitCmd(u)
    case Bar(u, more) => Piped(UnitCmd(u), PipeCmd(more))
  }

  function ScriptCmd(l: Script): (c: Cmd) {
    match l
    case Last(p, n) => Backgrounds(PipeCmd(p), n)
    case More(p, n, rest) => Then(Backgrounds(PipeCmd(p), n), ScriptCmd(rest))
  }

  /** The line s is a way to write l. */
  ghost predicate Writes(s: string, l: Script) { ScriptOk(l) && Spelled(s, 0, ScriptLex(l)) }

  // ---------------------------------------------------------------- what the tokenizer makes of a spelling

  lemma {:induction false} SkipBlank(s: string, i: int, q: int)
    requires Blank(s, i, q) && (q < |s| ==> !IsSpace(s[q]))
    ensures Skip(s, i) == q
    decreases q - i
  {
    if i < q {
      SkipBlank(s, i + 1, q);
    }
  }

  lemma {:induction false} SkipIsBlank(s: string, i: int)
    requires 0 <= i <= |s|
    ensures Blank(s, i, Skip(s, i)) && (Skip(s, i) < |s| ==> !IsSpace(s[Skip(s, i)]))
    decreases |s| - i
  {
    if i < |s| && IsSpace(s[i]) {
      SkipIsBlank(s, i + 1);
    }
  }

  lemma BlankBoth(s: string, i: int, j: int, k: int)
    requires Blank(s, i, j) && Blank(s, j, k)
    ensures Blank(s, i, k)
  {
  }

  /** Blanks in front change nothing. */
  lemma SpelledBefore(s: string, i: int, j: int, ls: seq<Lexeme>)
    requires Blank(s, i, j) && Spelled(s, j, ls)
    ensures Spelled(s, i, ls)
  {
    if ls == [] {
      BlankBoth(s, i, j, |s|);
    } else {
      var q :| Stands(s, j, q, ls[0]) && Spelled(s, q + |ls[0].text|, ls[1..]);
      BlankBoth(s, i, j, q);
      assert Stands(s, i, q, ls[0]);
    }
  }

  lemma StandsAt(s: string, i: int, q: int, l: Lexeme)
    requires Stands(s, i, q, l)
    ensures 0 <= i <= q && 0 < |l.text| && q + |l.text| <= |s| && Skip(s, i) == q
    ensures s[q] == l.text[0] && !IsSpace(s[q]) && s[q] != '\0'
  {
    assert s[q] == s[q..q + |l.text|][0];
    SkipBlank(s, i, q);
  }

  lemma {:induction false} WordEnds(s: string, i: int, w: string)
    requires Here(s, i, w) && (forall j :: 0 <= j < |w| ==> IsWord(w[j])) && (i + |w| < |s| ==> !IsWord(s[i + |w|]))
    requires NulFree(s)
    ensures WordEnd(s, i) == i + |w|
    decreases |w|
  {
    if |w| > 0 {
      assert s[i] == s[i..i + |w|][0] == w[0];
      assert s[i + 1..i + 1 + |w[1..]|] == s[i..i + |w|][1..] == w[1..];
      WordEnds(s, i + 1, w[1..]);
    } else if i < |s| {
      assert s[i] != '\0';
    }
  }

  /** gettoken finds the lexeme that stands there. */
  lemma TokenOf(s: string, i: int, q: int, l: Lexeme)
    requires NulFree(s) && Stands(s, i, q, l)
    ensures var e := q + |l.text|; Tok(s, i) == Token(l.kind, q, e, Skip(s, e)) && s[q..e] == l.text
  {
    StandsAt(s, i, q, l);
    var e := q + |l.text|;
    assert forall j :: 0 <= j < |l.text| ==> s[q..e][j] == s[q + j];
    if l.kind.Word? {
      WordEnds(s, q, l.text);
    } else if l.kind.Append? {
      assert s[q + 1] == l.text[1];
    }
  }

  /** A lexeme that stands there is the token there, and what comes behind it is spelled from behind the token on. */
  lemma HeadAt(s: string, i: int, q: int, l: Lexeme, more: seq<Lexeme>)
    requires NulFree(s) && Stands(s, i, q, l) && Spelled(s, q + |l.text|, more)
    ensures 0 <= i <= q < |s| && q + |l.text| <= |s| && Skip(s, i) == q
    ensures var e := q + |l.text|;
      && Tok(s, i) == Token(l.kind, q, e, Skip(s, e)) && s[q..e] == l.text
      && s[q] == l.text[0] && Spelled(s, Skip(s, e), more) && i < Skip(s, e) <= |s|
  {
    hide Spelled, Tok, Skip, Stands, NulFree;
    StandsAt(s, i, q, l);
    TokenOf(s, i, q, l);
    SpelledAfter(s, q + |l.text|, more);
  }

  lemma Start(s: string, i: int, ls: seq<Lexeme>) returns (q: int)
    requires ls != [] && Spelled(s, i, ls)
    ensures Stands(s, i, q, ls[0]) && Spelled(s, q + |ls[0].text|, ls[1..])
  {
    hide Stands;
    q :| Stands(s, i, q, ls[0]) && Spelled(s, q + |ls[0].text|, ls[1..]);
  }

  lemma Cons(s: string, i: int, q: int, l: Lexeme, rest: seq<Lexeme>)
    requires Stands(s, i, q, l) && Spelled(s, q + |l.text|, rest)
    ensures Spelled(s, i, [l] + rest)
  {
    var ls := [l] + rest;
    assert ls[1..] == rest;
    assert Stands(s, i, q, ls[0]) && Spelled(s, q + |ls[0].text|, ls[1..]);
  }

  /** The first lexeme of a spelling. */
  lemma Head(s: string, i: int, ls: seq<Lexeme>) returns (q: int)
    requires NulFree(s) && ls != [] && Spelled(s, i, ls)
    ensures 0 <= i <= q < |s| && q + |ls[0].text| <= |s| && Skip(s, i) == q
    ensures var e := q + |ls[0].text|;
      && Tok(s, i) == Token(ls[0].kind, q, e, Skip(s, e)) && s[q..e] == ls[0].text
      && s[q] == ls[0].text[0] && Spelled(s, Skip(s, e), ls[1..]) && i < Skip(s, e) <= |s|
  {
    hide Spelled, Tok, Skip, Stands, NulFree;
    q := Start(s, i, ls);
    HeadAt(s, i, q, ls[0], ls[1..]);
  }

  /** The same lexemes from behind the blanks on. */
  lemma SpelledAfter(s: string, i: int, ls: seq<Lexeme>)
    requires Spelled(s, i, ls)
    ensures 0 <= i <= |s| && Spelled(s, Skip(s, i), ls)
  {
    if ls == [] {
      SkipBlank(s, i, |s|);
    } else {
      var q :| Stands(s, i, q, ls[0]) && Spelled(s, q + |ls[0].text|, ls[1..]);
      StandsAt(s, i, q, ls[0]);
      assert Stands(s, q, q, ls[0]);
    }
  }

  lemma SpelledEnd(s: string, i: int)
    requires Spelled(s, i, [])
    ensures 0 <= i <= |s| && Skip(s, i) == |s|
  {
    SkipBlank(s, i, |s|);
  }

  // ---------------------------------------------------------------- simple commands, item by item

  /** One more word for the command inside the redirections. */
  function AddWord(c: Cmd, w: string): (r: Cmd) {
    match c
    case Run(argv) => Run(argv + [w])
    case Redirect(c', file, mode) => Redirect(AddWord(c', w), file, mode)
    case _ => c
  }

  function Extend(c: Cmd, xs: seq<Item>): (r: Cmd)
    decreases |xs|
  {
    if xs == [] then c
    else if xs[0].Arg? then Extend(AddWord(c, xs[0].word), xs[1..])
    else Extend(Redirect(c, xs[0].redir.file, xs[0].redir.mode), xs[1..])
  }

  lemma {:induction false} AddWordNest(c: Cmd, rs: seq<Redir>, w: string)
    ensures AddWord(Nest(c, rs), w) == Nest(AddWord(c, w), rs)
    decreases |rs|
  {
    if rs != [] {
      AddWordNest(Redirect(c, rs[0].file, rs[0].mode), rs[1..], w);
    }
  }

  lemma {:induction false} NestBoth(c: Cmd, a: seq<Redir>, b: seq<Redir>)
    ensures Nest(Nest(c, a), b) == Nest(c, a + b)
    decreases |a|
  {
    if a == [] {
      assert a + b == b;
    } else {
      NestBoth(Redirect(c, a[0].file, a[0].mode), a[1..], b);
      assert (a + b)[1..] == a[1..] + b;
    }
  }

  lemma Associative<T>(a: seq<T>, b: seq<T>, c: seq<T>)
    ensures a + (b + c) == a + b + c
  {
  }

  lemma ArgFirst(ws: seq<string>, xs: seq<Item>)
    requires xs != [] && xs[0].Arg?
    ensures ws + WordsOf(xs) == ws + [xs[0].word] + WordsOf(xs[1..]) && RedirsOf(xs) == RedirsOf(xs[1..])
  {
    Associative(ws, [xs[0].word], WordsOf(xs[1..]));
  }

  lemma IntoFirst(rs: seq<Redir>, xs: seq<Item>)
    requires xs != [] && xs[0].Into?
    ensures rs + RedirsOf(xs) == rs + [xs[0].redir] + RedirsOf(xs[1..]) && WordsOf(xs) == WordsOf(xs[1..])
  {
    Associative(rs, [xs[0].redir], RedirsOf(xs[1..]));
  }

  lemma NestOne(c: Cmd, rs: seq<Redir>, r: Redir)
    ensures Redirect(Nest(c, rs), r.file, r.mode) == Nest(c, rs + [r])
  {
    NestBoth(c, rs, [r]);
    assert [r][1..] == [];
  }

  /** Words and redirections end up apart, each in their order. */
  lemma {:induction false} ExtendIs(ws: seq<string>, rs: seq<Redir>, xs: seq<Item>)
    ensures Extend(Nest(Run(ws), rs), xs) == Nest(Run(ws + WordsOf(xs)), rs + RedirsOf(xs))
    decreases |xs|
  {
    hide Nest, AddWord;
    if xs == [] {
      assert ws + [] == ws && rs + [] == rs;
    } else {
      hide WordsOf, RedirsOf;
      if xs[0].Arg? {
        ArgFirst(ws, xs);
        AddWordNest(Run(ws), rs, xs[0].word);
        assert AddWord(Run(ws), xs[0].word) == Run(ws + [xs[0].word]) by { AddToRun(ws, xs[0].word); }
        ExtendIs(ws + [xs[0].word], rs, xs[1..]);
      } else {
        IntoFirst(rs, xs);
        NestOne(Run(ws), rs, xs[0].redir);
        ExtendIs(ws, rs + [xs[0].redir], xs[1..]);
      }
    }
  }

  lemma AddToRun(ws: seq<string>, w: string)
    ensures AddWord(Run(ws), w) == Run(ws + [w])
  {
  }

  lemma PlainCmd(xs: seq<Item>)
    ensures Extend(Run([]), xs) == UnitCmd(Plain(xs))
  {
    ExtendIs([], [], xs);
    assert [] + WordsOf(xs) == WordsOf(xs) && [] + RedirsOf(xs) == RedirsOf(xs);
  }

  // ---------------------------------------------------------------- trees of simple commands

  predicate Simple(t: Tree) { t.TExec? || (t.TRedir? && Simple(t.tree)) }

  lemma {:induction false} AddArgMeans(s: string, t: Tree, w: Span)
    requires Simple(t)
    ensures Meaning(s, AddArg(t, w)) == AddWord(Meaning(s, t), Text(s, w))
    ensures Simple(AddArg(t, w)) && ArgCount(AddArg(t, w)) == ArgCount(t) + 1
  {
    match t
    case TExec(args) => assert (args + [w])[..|args|] == args;
    case TRedir(t', file, mode) => AddArgMeans(s, t', w);
  }

  lemma {:induction false} RedirsSimple(s: string, i: int, t: Tree)
    requires 0 <= i <= |s| && Simple(t) && Redirs(s, i, t).Ok?
    ensures Simple(Redirs(s, i, t).tree) && ArgCount(Redirs(s, i, t).tree) == ArgCount(t)
    decreases |s| - i
  {
    hide Tok, Skip;
    if Peek(s, i, "<>") {
      var op := Tok(s, Skip(s, i));
      var file := Tok(s, op.next);
      RedirsSimple(s, file.next, TRedir(t, Span(file.q, file.eq), ModeOf(op.kind)));
    }
  }
}
