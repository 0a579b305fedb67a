/**
 The parser accepts everything the grammar writes, however it is spelled, and gives it its meaning.
 */
module ShellParses {
  import opened Basics
  import opened Shell
  import opened ShellGrammar

  // ---------------------------------------------------------------- looking ahead

  /** What peek sees is the first character of the first lexeme. */
  lemma PeekHead(s: string, i: int, ls: seq<Lexeme>, toks: string)
    requires NulFree(s) && Spelled(s, i, ls)
    ensures 0 <= i <= |s| && (Peek(s, i, toks) <==> ls != [] && ls[0].text != "" && ls[0].text[0] in toks)
    ensures Skip(s, i) <= |s| && Spelled(s, Skip(s, i), ls)
  {
    SpelledAfter(s, i, ls);
    if ls == [] {
      SpelledEnd(s, i);
    } else {
      var q := Head(s, i, ls);
      assert s[q] != '\0';
    }
  }

  /** No redirection comes next. */
  predicate NoRedir(ls: seq<Lexeme>) { ls == [] || (ls[0].text != "" && ls[0].text[0] !in "<>") }

  /** What can follow a unit, a pipeline and a script. */
  predicate AfterUnit(ls: seq<Lexeme>) {
    ls == [] || ls[0] == Sym('|') || ls[0] == Sym('&') || ls[0] == Sym(';') || ls[0] == Sym(')')
  }

  predicate AfterPipe(ls: seq<Lexeme>) { ls == [] || ls[0] == Sym('&') || ls[0] == Sym(';') || ls[0] == Sym(')') }

  predicate AfterScript(ls: seq<Lexeme>) { ls == [] || ls[0] == Sym(')') }

  /** The tree stands for the command, and the rest of the line is as expected. */
  ghost predicate Gives(s: string, r: Result, c: Cmd, rest: seq<Lexeme>) {
    r.Ok? && Meaning(s, r.tree) == c && Spelled(s, r.pos, rest)
  }

  // ---------------------------------------------------------------- redirections

  lemma OperatorMode(m: Mode)
    ensures ModeOf(OperatorOf(m).kind) == m && OperatorOf(m).text != "" && OperatorOf(m).text[0] in "<>"
  {
  }

  lemma RedirsStep(s: string, i: int, t: Tree)
    requires 0 <= i <= |s| && Peek(s, i, "<>") && Tok(s, Tok(s, Skip(s, i)).next).kind.Word?
    ensures var op := Tok(s, Skip(s, i)); var file := Tok(s, op.next);
      Redirs(s, i, t) == Redirs(s, file.next, TRedir(t, Span(file.q, file.eq), ModeOf(op.kind)))
  {
  }

  lemma RedirsStop(s: string, i: int, t: Tree)
    requires 0 <= i <= |s| && !Peek(s, i, "<>")
    ensures Redirs(s, i, t) == Ok(t, Skip(s, i))
  {
  }

  lemma RedirLexes(rs: seq<Redir>, rest: seq<Lexeme>)
    requires rs != []
    ensures var ls, more := RedirsLex(rs) + rest, RedirsLex(rs[1..]) + rest;
      |ls| >= 2 && ls[0] == OperatorOf(rs[0].mode) && ls[1] == WordLex(rs[0].file) && ls[1..][1..] == more
  {
    var more := RedirsLex(rs[1..]) + rest;
    assert RedirsLex(rs) + rest == [OperatorOf(rs[0].mode), WordLex(rs[0].file)] + more;
  }

  lemma {:induction false} RedirsParse(s: string, i: int, t: Tree, rs: seq<Redir>, rest: seq<Lexeme>)
    requires NulFree(s) && Spelled(s, i, RedirsLex(rs) + rest) && NoRedir(rest) && RedirsOk(rs)
    ensures 0 <= i <= |s| && Gives(s, Redirs(s, i, t), Nest(Meaning(s, t), rs), rest)
    decreases |rs|
  {
    hide Spelled, Tok, Skip, Redirs, Peek, Stands, OperatorOf, NulFree, ModeOf;
    var ls := RedirsLex(rs) + rest;
    PeekHead(s, i, ls, "<>");
    if rs == [] {
      assert ls == rest;
      RedirsStop(s, i, t);
    } else {
      hide RedirsLex;
      RedirLexes(rs, rest);
      OperatorMode(rs[0].mode);
      var j := Skip(s, i);
      var q := Head(s, j, ls);
      var op := Tok(s, j);
      var q' := Head(s, op.next, ls[1..]);
      var file := Tok(s, op.next);
      RedirsStep(s, i, t);
      RedirsParse(s, file.next, TRedir(t, Span(file.q, file.eq), ModeOf(op.kind)), rs[1..], rest);
    }
  }

  // ---------------------------------------------------------------- simple commands

  /** The redirections that come before the first word. */
  function Leading(xs: seq<Item>): (rs: seq<Redir>)
    ensures |rs| <= |xs|
  {
    if xs == [] || xs[0].Arg? then [] else [xs[0].redir] + Leading(xs[1..])
  }

  lemma {:induction false} LeadingLex(xs: seq<Item>)
    ensures ItemsLex(xs) == RedirsLex(Leading(xs)) + ItemsLex(xs[|Leading(xs)|..])
    decreases |xs|
  {
    if xs != [] && xs[0].Into? {
      LeadingLex(xs[1..]);
      LeadingTail(xs);
    } else {
      assert xs[0..] == xs;
    }
  }

  lemma LeadingTail(xs: seq<Item>)
    requires xs != [] && xs[0].Into?
    ensures Leading(xs)[0] == xs[0].redir && Leading(xs)[1..] == Leading(xs[1..])
    ensures xs[|Leading(xs)|..] == xs[1..][|Leading(xs[1..])|..]
  {
  }

  lemma {:induction false} LeadingExtend(c: Cmd, xs: seq<Item>)
    ensures Extend(c, xs) == Extend(Nest(c, Leading(xs)), xs[|Leading(xs)|..])
    decreases |xs|
  {
    hide AddWord;
    if xs != [] && xs[0].Into? {
      LeadingExtend(Redirect(c, xs[0].redir.file, xs[0].redir.mode), xs[1..]);
      LeadingTail(xs);
    } else {
      assert xs[0..] == xs;
    }
  }

  lemma {:induction false} LeadingOk(xs: seq<Item>)
    requires ItemsOk(xs)
    ensures var rs := Leading(xs); var tail := xs[|rs|..];
      RedirsOk(rs) && ItemsOk(tail) && WordsOf(xs) == WordsOf(tail) && (tail == [] || tail[0].Arg?)
    decreases |xs|
  {
    hide WordOk;
    if xs != [] && xs[0].Into? {
      assert ItemOk(xs[0]) && ItemsOk(xs[1..]);
      LeadingOk(xs[1..]);
      LeadingTail(xs);
      assert WordsOf(xs) == WordsOf(xs[1..]);
    } else {
      assert xs[0..] == xs;
    }
  }

  /** Words and redirections are not what stops the loop of parseexec. */
  lemma ArgsStop(s: string, i: int, t: Tree, rest: seq<Lexeme>)
    requires NulFree(s) && Spelled(s, i, rest) && AfterUnit(rest)
    ensures 0 <= i <= |s| && Gives(s, Args(s, i, t), Meaning(s, t), rest)
  {
    hide Spelled;
    PeekHead(s, i, rest, "|)&;");
    if rest == [] {
      SpelledEnd(s, i);
      SkipTwice(s, i);
    }
  }

  lemma ArgsStep(s: string, i: int, t: Tree)
    requires 0 <= i <= |s| && !Peek(s, i, "|)&;") && Tok(s, Skip(s, i)).kind.Word?
    ensures var w := Tok(s, Skip(s, i)); var t' := AddArg(t, Span(w.q, w.eq));
      && (ArgCount(t') < MAXARGS && Redirs(s, w.next, t').Ok? ==>
            Args(s, i, t) == Args(s, Redirs(s, w.next, t').pos, Redirs(s, w.next, t').tree))
  {
  }

  lemma TailFollows(xs: seq<Item>, rest: seq<Lexeme>)
    requires ItemsOk(xs) && AfterUnit(rest) && (xs == [] || xs[0].Arg?)
    ensures NoRedir(ItemsLex(xs) + rest)
  {
    if xs != [] {
      assert ItemOk(xs[0]);
      assert (ItemsLex(xs) + rest)[0] == WordLex(xs[0].word);
      assert IsWord(xs[0].word[0]);
    } else {
      assert ItemsLex(xs) + rest == rest;
    }
  }

  lemma WordFirst(xs: seq<Item>, rest: seq<Lexeme>)
    requires ItemsOk(xs) && xs != [] && xs[0].Arg?
    ensures var ls := ItemsLex(xs) + rest;
      && ls != [] && ls[0] == WordLex(xs[0].word) && ls[1..] == ItemsLex(xs[1..]) + rest
      && ls[0].text != "" && ls[0].text[0] !in "|)&;" && ItemsOk(xs[1..]) && |WordsOf(xs)| == 1 + |WordsOf(xs[1..])|
  {
    assert ItemOk(xs[0]) && IsWord(xs[0].word[0]);
    assert ItemsLex(xs) + rest == [WordLex(xs[0].word)] + (ItemsLex(xs[1..]) + rest);
  }

  lemma {:induction false} ArgsParse(s: string, i: int, t: Tree, xs: seq<Item>, rest: seq<Lexeme>)
    requires NulFree(s) && Spelled(s, i, ItemsLex(xs) + rest) && AfterUnit(rest) && ItemsOk(xs)
    requires (xs == [] || xs[0].Arg?) && Simple(t) && ArgCount(t) + |WordsOf(xs)| < MAXARGS
    ensures 0 <= i <= |s| && Gives(s, Args(s, i, t), Extend(Meaning(s, t), xs), rest)
    decreases |xs|
  {
    hide Spelled, Tok, Skip, Redirs, Peek, Stands, NulFree, Args, AddArg, ArgCount, Simple, Meaning, Nest, AddWord;
    if xs == [] {
      assert ItemsLex(xs) + rest == rest;
      ArgsStop(s, i, t, rest);
    } else {
      hide ItemsOk;
      WordFirst(xs, rest);
      hide ItemsLex, WordsOf;
      var ls := ItemsLex(xs) + rest;
      PeekHead(s, i, ls, "|)&;");
      var j := Skip(s, i);
      var q := Head(s, j, ls);
      var w := Tok(s, j);
      var t' := AddArg(t, Span(w.q, w.eq));
      AddArgMeans(s, t, Span(w.q, w.eq));
      var c := Meaning(s, t');
      var r := AfterWord(s, w.next, t', xs[1..], rest);
      ArgsStep(s, i, t);
      var tail := xs[1..][|Leading(xs[1..])|..];
      ArgsParse(s, r.pos, r.tree, tail, rest);
    }
  }

  /** The redirections behind a word. */
  lemma AfterWord(s: string, i: int, t: Tree, xs: seq<Item>, rest: seq<Lexeme>) returns (r: Result)
    requires NulFree(s) && Spelled(s, i, ItemsLex(xs) + rest) && AfterUnit(rest) && ItemsOk(xs) && Simple(t)
    ensures 0 <= i <= |s| && r == Redirs(s, i, t) && r.Ok? && Simple(r.tree) && ArgCount(r.tree) == ArgCount(t)
    ensures var tail := xs[|Leading(xs)|..];
      && Spelled(s, r.pos, ItemsLex(tail) + rest) && ItemsOk(tail) && (tail == [] || tail[0].Arg?)
      && WordsOf(tail) == WordsOf(xs) && Extend(Meaning(s, r.tree), tail) == Extend(Meaning(s, t), xs)
  {
    hide Spelled, Redirs, Simple, ArgCount, Meaning, Nest, Extend, ItemsOk, RedirsOk, NoRedir, NulFree, AfterUnit;
    LeadingLex(xs);
    LeadingExtend(Meaning(s, t), xs);
    LeadingOk(xs);
    hide WordsOf, Leading;
    var rs := Leading(xs);
    var tail := xs[|rs|..];
    assert ItemsLex(xs) + rest == RedirsLex(rs) + (ItemsLex(tail) + rest);
    TailFollows(tail, rest);
    RedirsParse(s, i, t, rs, ItemsLex(tail) + rest);
    r := Redirs(s, i, t);
    RedirsSimple(s, i, t);
  }

  /** A simple command begins with a word, a redirection or what follows it. */
  lemma PlainFirst(xs: seq<Item>, rest: seq<Lexeme>)
    requires ItemsOk(xs) && AfterUnit(rest)
    ensures var ls := ItemsLex(xs) + rest; ls == [] || ls[0].text == "" || ls[0].text[0] != '('
  {
    if xs == [] {
      assert ItemsLex(xs) + rest == rest;
    } else {
      assert ItemOk(xs[0]);
      assert (ItemsLex(xs) + rest)[0] == ItemLex(xs[0])[0];
      if xs[0].Arg? {
        assert IsWord(xs[0].word[0]);
      } else {
        OperatorMode(xs[0].redir.mode);
      }
    }
  }

  lemma PlainParses(s: string, i: int, xs: seq<Item>, rest: seq<Lexeme>)
    requires NulFree(s) && Spelled(s, i, ItemsLex(xs) + rest) && AfterUnit(rest) && UnitOk(Plain(xs))
    ensures 0 <= i <= |s| && Gives(s, Exec(s, i), UnitCmd(Plain(xs)), rest)
  {
    hide Spelled, Tok, Redirs, Args, Block, NulFree;
    PlainFirst(xs, rest);
    PeekHead(s, i, ItemsLex(xs) + rest, "(");
    hide ItemsLex, Peek, Skip;
    var r := AfterWord(s, Skip(s, i), TExec([]), xs, rest);
    ArgsParse(s, r.pos, r.tree, xs[|Leading(xs)|..], rest);
    PlainCmd(xs);
    assert Exec(s, i) == Args(s, r.pos, r.tree);
  }

  // ---------------------------------------------------------------- groups, pipelines, scripts

  lemma ExecIsBlock(s: string, i: int)
    requires 0 <= i <= |s| && Peek(s, i, "(")
    requires var r := Shell.Line(s, Tok(s, Skip(s, i)).next); r.Ok? && Peek(s, r.pos, ")")
    ensures var r := Shell.Line(s, Tok(s, Skip(s, i)).next);
      Exec(s, i) == Redirs(s, Tok(s, Skip(s, r.pos)).next, r.tree)
  {
    hide Tok, Shell.Line, Redirs;
    SkipTwice(s, i);
  }

  lemma AfterNoRedir(rest: seq<Lexeme>)
    requires AfterUnit(rest)
    ensures NoRedir(rest)
  {
  }

  lemma GroupParses(s: string, i: int, l: Script, rs: seq<Redir>, rest: seq<Lexeme>)
    requires NulFree(s) && Spelled(s, i, UnitLex(Group(l, rs)) + rest) && AfterUnit(rest) && UnitOk(Group(l, rs))
    ensures 0 <= i <= |s| && Gives(s, Exec(s, i), UnitCmd(Group(l, rs)), rest)
    decreases Group(l, rs), 3
  {
    hide Spelled, Tok, Skip, Redirs, Peek, Stands, NulFree, Shell.Line, Exec, RedirsLex, ScriptLex, Nest, ScriptCmd;
    hide RedirsOk, ScriptOk;
    var behind := [Sym(')')] + (RedirsLex(rs) + rest);
    var ls := [Sym('(')] + (ScriptLex(l) + behind);
    assert UnitLex(Group(l, rs)) + rest == ls;
    PeekHead(s, i, ls, "(");
    var j := Skip(s, i);
    var q := Head(s, j, ls);
    assert ls[1..] == ScriptLex(l) + behind;
    ScriptParses(s, Tok(s, j).next, l, behind);
    var r := Shell.Line(s, Tok(s, j).next);
    PeekHead(s, r.pos, behind, ")");
    var q' := Head(s, Skip(s, r.pos), behind);
    assert behind[1..] == RedirsLex(rs) + rest;
    AfterNoRedir(rest);
    ExecIsBlock(s, i);
    RedirsParse(s, Tok(s, Skip(s, r.pos)).next, r.tree, rs, rest);
  }

  lemma UnitParses(s: string, i: int, u: Unit, rest: seq<Lexeme>)
    requires NulFree(s) && Spelled(s, i, UnitLex(u) + rest) && AfterUnit(rest) && UnitOk(u)
    ensures 0 <= i <= |s| && Gives(s, Exec(s, i), UnitCmd(u), rest)
    decreases u, 4
  {
    hide Spelled, NulFree, Exec, UnitCmd, Gives;
    match u
    case Plain(items) => PlainParses(s, i, items, rest);
    case Group(l, rs) => GroupParses(s, i, l, rs, rest);
  }

  lemma PipeStop(s: string, i: int)
    requires 0 <= i <= |s| && Exec(s, i).Ok? && !Peek(s, Exec(s, i).pos, "|")
    ensures Shell.Pipe(s, i) == Ok(Exec(s, i).tree, Skip(s, Exec(s, i).pos))
  {
    hide Exec;
  }

  lemma PipeStep(s: string, i: int)
    requires 0 <= i <= |s| && Exec(s, i).Ok? && Peek(s, Exec(s, i).pos, "|")
    requires Shell.Pipe(s, Tok(s, Skip(s, Exec(s, i).pos)).next).Ok?
    ensures var r := Exec(s, i); var r' := Shell.Pipe(s, Tok(s, Skip(s, r.pos)).next);
      Shell.Pipe(s, i) == Ok(TPipe(r.tree, r'.tree), r'.pos)
  {
    hide Exec, Tok, Skip, Peek;
  }

  lemma PipeParses(s: string, i: int, p: Pipeline, rest: seq<Lexeme>)
    requires NulFree(s) && Spelled(s, i, PipeLex(p) + rest) && AfterPipe(rest) && PipeOk(p)
    ensures 0 <= i <= |s| && Gives(s, Shell.Pipe(s, i), PipeCmd(p), rest)
    decreases p, 5
  {
    hide Spelled, Tok, Skip, Peek, Stands, NulFree, Exec, Shell.Pipe, UnitLex, UnitCmd, UnitOk;
    var u := p.unit;
    var behind := if p.One? then rest else [Sym('|')] + (PipeLex(p.more) + rest);
    assert PipeLex(p) + rest == UnitLex(u) + behind;
    UnitParses(s, i, u, behind);
    var r := Exec(s, i);
    PeekHead(s, r.pos, behind, "|");
    if p.One? {
      PipeStop(s, i);
    } else {
      hide PipeLex;
      var q := Head(s, Skip(s, r.pos), behind);
      assert behind[1..] == PipeLex(p.more) + rest;
      PipeParses(s, Tok(s, Skip(s, r.pos)).next, p.more, rest);
      PipeStep(s, i);
    }
  }

  lemma BacksStep(s: string, i: int, t: Tree)
    requires 0 <= i <= |s|
    ensures Backs(s, i, t) == if Peek(s, i, "&") then Backs(s, Tok(s, Skip(s, i)).next, TBack(t)) else Ok(t, Skip(s, i))
  {
  }

  lemma {:induction false} AmpsParse(s: string, i: int, t: Tree, n: nat, rest: seq<Lexeme>)
    requires NulFree(s) && Spelled(s, i, Amps(n) + rest) && (rest == [] || rest[0] == Sym(';') || rest[0] == Sym(')'))
    ensures 0 <= i <= |s| && Gives(s, Backs(s, i, t), Backgrounds(Meaning(s, t), n), rest)
    decreases n
  {
    hide Spelled, Tok, Skip, Peek, Stands, NulFree, Backs;
    var ls := Amps(n) + rest;
    PeekHead(s, i, ls, "&");
    BacksStep(s, i, t);
    if n == 0 {
      assert ls == rest;
    } else {
      assert ls == [Sym('&')] + (Amps(n - 1) + rest);
      var q := Head(s, Skip(s, i), ls);
      AmpsParse(s, Tok(s, Skip(s, i)).next, TBack(t), n - 1, rest);
    }
  }

  lemma LineStop(s: string, i: int)
    requires 0 <= i <= |s| && Shell.Pipe(s, i).Ok?
    requires var p := Shell.Pipe(s, i); !Peek(s, Backs(s, p.pos, p.tree).pos, ";")
    ensures var p := Shell.Pipe(s, i); var b := Backs(s, p.pos, p.tree);
      Shell.Line(s, i) == Ok(b.tree, Skip(s, b.pos))
  {
    hide Shell.Pipe, Backs, Peek, Skip;
  }

  lemma LineStep(s: string, i: int)
    requires 0 <= i <= |s| && Shell.Pipe(s, i).Ok?
    requires var p := Shell.Pipe(s, i); var b := Backs(s, p.pos, p.tree);
      Peek(s, b.pos, ";") && Shell.Line(s, Tok(s, Skip(s, b.pos)).next).Ok?
    ensures var p := Shell.Pipe(s, i); var b := Backs(s, p.pos, p.tree);
      var r := Shell.Line(s, Tok(s, Skip(s, b.pos)).next);
      Shell.Line(s, i) == Ok(TList(b.tree, r.tree), r.pos)
  {
    hide Shell.Pipe, Backs, Peek, Skip, Tok;
  }

  lemma ScriptParses(s: string, i: int, l: Script, rest: seq<Lexeme>)
    requires NulFree(s) && Spelled(s, i, ScriptLex(l) + rest) && AfterScript(rest) && ScriptOk(l)
    ensures 0 <= i <= |s| && Gives(s, Shell.Line(s, i), ScriptCmd(l), rest)
    decreases l, 6
  {
    hide Spelled, Tok, Skip, Peek, Stands, NulFree, Shell.Pipe, Shell.Line, Backs, PipeLex, PipeCmd, PipeOk, Amps;
    hide Backgrounds;
    var after := if l.Last? then rest else [Sym(';')] + (ScriptLex(l.rest) + rest);
    var behind := Amps(l.amps) + after;
    assert ScriptLex(l) + rest == PipeLex(l.pipe) + behind;
    AmpsFollow(l.amps, after);
    PipeParses(s, i, l.pipe, behind);
    var p := Shell.Pipe(s, i);
    AmpsParse(s, p.pos, p.tree, l.amps, after);
    var b := Backs(s, p.pos, p.tree);
    PeekHead(s, b.pos, after, ";");
    if l.Last? {
      LineStop(s, i);
    } else {
      hide ScriptLex;
      var q := Head(s, Skip(s, b.pos), after);
      assert after[1..] == ScriptLex(l.rest) + rest;
      ScriptParses(s, Tok(s, Skip(s, b.pos)).next, l.rest, rest);
      LineStep(s, i);
    }
  }

  lemma AmpsFollow(n: nat, after: seq<Lexeme>)
    requires after == [] || after[0] == Sym(';') || after[0] == Sym(')')
    ensures AfterPipe(Amps(n) + after)
  {
    if n == 0 {
      assert Amps(n) + after == after;
    }
  }

  /** Whatever the grammar writes, in whatever spelling, the parser reads as the command it stands for. */
  lemma Accepts(s: string, l: Script)
    requires NulFree(s) && Writes(s, l)
    ensures Command(s).Ok? && Meaning(s, Command(s).tree) == ScriptCmd(l)
  {
    hide Shell.Line, ScriptLex, ScriptCmd, ScriptOk, NulFree;
    assert ScriptLex(l) + [] == ScriptLex(l);
    ScriptParses(s, 0, l, []);
    SpelledEnd(s, Shell.Line(s, 0).pos);
  }
}
