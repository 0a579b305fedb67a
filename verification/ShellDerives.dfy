/**
 The parser accepts nothing but what the grammar writes, and so a line is a command exactly if the
 grammar can write it; every command can be written, with parentheses only where they are needed.
 */
module ShellDerives {
  import opened Basics
  import opened Shell
  import opened ShellGrammar
  import opened ShellParses
  import ShellWords

  // ---------------------------------------------------------------- tokens are lexemes

  function LexemeAt(s: string, i: int): (l: Lexeme)
    requires 0 <= i <= |s|
  {
    Lexeme(Tok(s, i).kind, s[Tok(s, i).q..Tok(s, i).eq])
  }

  lemma WordStands(s: string, i: int, q: int, e: int)
    requires NulFree(s) && Blank(s, i, q) && q < |s| && IsWord(s[q]) && e == WordEnd(s, q)
    ensures q < e <= |s| && Stands(s, i, q, Lexeme(Kind.Word, s[q..e]))
  {
    ShellWords.WordRun(s, q);
    hide WordEnd;
    var w := s[q..e];
    assert forall k :: 0 <= k < |w| ==> w[k] == s[q + k] && IsWord(w[k]);
  }

  lemma SymbolStands(s: string, i: int, q: int)
    requires Blank(s, i, q) && q < |s| && IsSymbol(s[q]) && !(s[q] == '>' && At(s, q + 1) == '>')
    ensures Stands(s, i, q, Lexeme(Symbol(s[q]), s[q..q + 1]))
  {
    assert s[q..q + 1] == [s[q]];
  }

  lemma AppendStands(s: string, i: int, q: int)
    requires Blank(s, i, q) && q < |s| && s[q] == '>' && At(s, q + 1) == '>'
    ensures q + 2 <= |s| && Stands(s, i, q, Lexeme(Append, s[q..q + 2]))
  {
    assert s[q..q + 2] == [s[q], s[q + 1]] == ">>";
  }

  /** What gettoken looked at. */
  lemma TokenIs(s: string, i: int)
    requires NulFree(s) && 0 <= i <= |s| && !Tok(s, i).kind.End?
    ensures var t := Tok(s, i);
      && t.q == Skip(s, i) < |s| && t.next == Skip(s, t.eq)
      && (t.kind.Word? ==> IsWord(s[t.q]) && t.eq == WordEnd(s, t.q))
      && (t.kind.Append? ==> s[t.q] == '>' && At(s, t.q + 1) == '>' && t.eq == t.q + 2)
      && (t.kind.Symbol? ==> IsSymbol(s[t.q]) && !(s[t.q] == '>' && At(s, t.q + 1) == '>') && t.eq == t.q + 1
                             && t.kind == Symbol(s[t.q]))
  {
    SkipIsBlank(s, i);
    hide Skip, WordEnd;
  }

  lemma TokenStands(s: string, i: int)
    requires NulFree(s) && 0 <= i <= |s| && !Tok(s, i).kind.End?
    ensures Stands(s, i, Tok(s, i).q, LexemeAt(s, i)) && Tok(s, i).next == Skip(s, Tok(s, i).eq)
  {
    hide Stands, WordEnd, Blank, Tok, Skip, NulFree;
    SkipIsBlank(s, i);
    TokenIs(s, i);
    var q := Skip(s, i);
    if Tok(s, i).kind.Word? {
      WordStands(s, i, q, Tok(s, i).eq);
    } else if Tok(s, i).kind.Append? {
      AppendStands(s, i, q);
    } else {
      SymbolStands(s, i, q);
    }
  }

  /** A token in front of a spelling. */
  lemma Prepend(s: string, i: int, rest: seq<Lexeme>)
    requires NulFree(s) && 0 <= i <= |s| && !Tok(s, i).kind.End? && Spelled(s, Tok(s, i).next, rest)
    ensures Spelled(s, i, [LexemeAt(s, i)] + rest)
  {
    hide Tok, Skip, NulFree, Spelled, Stands, Blank;
    TokenStands(s, i);
    var t := Tok(s, i);
    SkipIsBlank(s, t.eq);
    SpelledBefore(s, t.eq, t.next, rest);
    Cons(s, i, t.q, LexemeAt(s, i), rest);
  }

  /** The same in front of which blanks have been skipped. */
  lemma PrependSkipped(s: string, i: int, rest: seq<Lexeme>)
    requires NulFree(s) && 0 <= i <= |s| && !Tok(s, Skip(s, i)).kind.End? && Spelled(s, Tok(s, Skip(s, i)).next, rest)
    ensures Spelled(s, i, [LexemeAt(s, Skip(s, i))] + rest)
  {
    hide Tok, Spelled, LexemeAt;
    Prepend(s, Skip(s, i), rest);
    SkipIsBlank(s, i);
    SpelledBefore(s, i, Skip(s, i), [LexemeAt(s, Skip(s, i))] + rest);
  }

  lemma SkippedBack(s: string, i: int, rest: seq<Lexeme>)
    requires 0 <= i <= |s| && Spelled(s, Skip(s, i), rest)
    ensures Spelled(s, i, rest)
  {
    SkipIsBlank(s, i);
    SpelledBefore(s, i, Skip(s, i), rest);
  }

  /** A one-character symbol that peek saw. */
  lemma SymbolAt(s: string, i: int, c: char)
    requires 0 <= i <= |s| && Peek(s, i, [c]) && IsSymbol(c) && c != '>'
    ensures LexemeAt(s, Skip(s, i)) == Sym(c) && !Tok(s, Skip(s, i)).kind.End?
  {
    SkipTwice(s, i);
    var q := Skip(s, i);
    assert s[q..q + 1] == [s[q]];
  }

  lemma WordAt(s: string, i: int)
    requires NulFree(s) && 0 <= i <= |s| && Tok(s, i).kind.Word?
    ensures LexemeAt(s, i) == WordLex(Text(s, Span(Tok(s, i).q, Tok(s, i).eq)))
    ensures WordOk(Text(s, Span(Tok(s, i).q, Tok(s, i).eq)))
  {
    TokenStands(s, i);
  }

  lemma OperatorAt(s: string, i: int)
    requires 0 <= i <= |s| && Peek(s, i, "<>")
    ensures LexemeAt(s, Skip(s, i)) == OperatorOf(ModeOf(Tok(s, Skip(s, i)).kind)) && !Tok(s, Skip(s, i)).kind.End?
  {
    SkipTwice(s, i);
    var q := Skip(s, i);
    var t := Tok(s, q);
    if t.kind.Append? {
      assert s[q..q + 2] == [s[q], s[q + 1]] == ">>";
    } else {
      assert s[q..q + 1] == [s[q]];
    }
  }

  // ---------------------------------------------------------------- redirections and words

  lemma {:induction false} RedirsDerive(s: string, i: int, t: Tree, rest: seq<Lexeme>) returns (rs: seq<Redir>)
    requires NulFree(s) && 0 <= i <= |s| && Redirs(s, i, t).Ok? && Spelled(s, Redirs(s, i, t).pos, rest)
    ensures RedirsOk(rs) && Spelled(s, i, RedirsLex(rs) + rest)
    ensures Meaning(s, Redirs(s, i, t).tree) == Nest(Meaning(s, t), rs)
    decreases |s| - i
  {
    hide Tok, Skip, Peek, Spelled, LexemeAt, OperatorOf, ModeOf, NulFree, WordOk, Text;
    if !Peek(s, i, "<>") {
      rs := [];
      SkippedBack(s, i, rest);
      assert RedirsLex(rs) + rest == rest;
    } else {
      var op := Tok(s, Skip(s, i));
      var file := Tok(s, op.next);
      var t' := TRedir(t, Span(file.q, file.eq), ModeOf(op.kind));
      var more := RedirsDerive(s, file.next, t', rest);
      var r := Redir(ModeOf(op.kind), Text(s, Span(file.q, file.eq)));
      rs := [r] + more;
      WordAt(s, op.next);
      OperatorAt(s, i);
      Prepend(s, op.next, RedirsLex(more) + rest);
      PrependSkipped(s, i, [WordLex(r.file)] + (RedirsLex(more) + rest));
      assert rs[1..] == more;
      assert RedirsLex(rs) + rest == [OperatorOf(r.mode)] + ([WordLex(r.file)] + (RedirsLex(more) + rest));
    }
  }

  function Intos(rs: seq<Redir>): (xs: seq<Item>)
    ensures |xs| == |rs|
  {
    if rs == [] then [] else [Into(rs[0])] + Intos(rs[1..])
  }

  lemma IntosStep(rs: seq<Redir>, xs: seq<Item>)
    requires rs != []
    ensures var all := Intos(rs) + xs; all != [] && all[0] == Into(rs[0]) && all[1..] == Intos(rs[1..]) + xs
  {
  }

  lemma {:induction false} IntosLex(rs: seq<Redir>, xs: seq<Item>)
    ensures ItemsLex(Intos(rs) + xs) == RedirsLex(rs) + ItemsLex(xs)
    decreases |rs|
  {
    hide RedirLex;
    if rs == [] {
      assert Intos(rs) + xs == xs;
    } else {
      IntosLex(rs[1..], xs);
      IntosStep(rs, xs);
    }
  }

  lemma {:induction false} IntosWords(rs: seq<Redir>, xs: seq<Item>)
    ensures WordsOf(Intos(rs) + xs) == WordsOf(xs)
    decreases |rs|
  {
    if rs == [] {
      assert Intos(rs) + xs == xs;
    } else {
      IntosWords(rs[1..], xs);
      IntosStep(rs, xs);
      assert [] + WordsOf(xs) == WordsOf(xs);
    }
  }

  lemma {:induction false} IntosExtend(c: Cmd, rs: seq<Redir>, xs: seq<Item>)
    ensures Extend(c, Intos(rs) + xs) == Extend(Nest(c, rs), xs)
    decreases |rs|
  {
    hide AddWord;
    if rs == [] {
      assert Intos(rs) + xs == xs;
    } else {
      IntosExtend(Redirect(c, rs[0].file, rs[0].mode), rs[1..], xs);
      IntosStep(rs, xs);
    }
  }

  lemma {:induction false} IntosOk(rs: seq<Redir>, xs: seq<Item>)
    requires RedirsOk(rs) && ItemsOk(xs)
    ensures ItemsOk(Intos(rs) + xs)
    decreases |rs|
  {
    hide WordOk;
    if rs == [] {
      assert Intos(rs) + xs == xs;
    } else {
      assert RedirsOk(rs[1..]);
      IntosOk(rs[1..], xs);
      assert Intos(rs) + xs == [Into(rs[0])] + (Intos(rs[1..]) + xs);
      assert ItemOk(Into(rs[0]));
    }
  }

  lemma WordThenLex(w: string, rs: seq<Redir>, xs: seq<Item>, rest: seq<Lexeme>)
    ensures ItemsLex([Arg(w)] + (Intos(rs) + xs)) + rest == [WordLex(w)] + (RedirsLex(rs) + (ItemsLex(xs) + rest))
  {
    hide RedirsLex, Intos;
    IntosLex(rs, xs);
    var more := Intos(rs) + xs;
    assert ([Arg(w)] + more)[1..] == more;
    Associative([WordLex(w)], RedirsLex(rs) + ItemsLex(xs), rest);
    Associative(RedirsLex(rs), ItemsLex(xs), rest);
  }

  /** A word, the redirections behind it, and the rest of a simple command. */
  lemma WordAndMore(c: Cmd, w: string, rs: seq<Redir>, xs: seq<Item>, rest: seq<Lexeme>)
    requires WordOk(w) && RedirsOk(rs) && ItemsOk(xs)
    ensures var all := [Arg(w)] + (Intos(rs) + xs);
      && ItemsOk(all) && ItemsLex(all) + rest == [WordLex(w)] + (RedirsLex(rs) + (ItemsLex(xs) + rest))
      && Extend(c, all) == Extend(Nest(AddWord(c, w), rs), xs) && |WordsOf(all)| == 1 + |WordsOf(xs)|
  {
    hide WordOk, AddWord, Nest, RedirsLex, Intos, ItemsLex;
    WordThenLex(w, rs, xs, rest);
    IntosWords(rs, xs);
    IntosExtend(AddWord(c, w), rs, xs);
    IntosOk(rs, xs);
    var more := Intos(rs) + xs;
    var all := [Arg(w)] + more;
    assert all[1..] == more && ItemOk(Arg(w));
  }

  lemma {:induction false} ArgsDerive(s: string, i: int, t: Tree, rest: seq<Lexeme>) returns (xs: seq<Item>)
    requires NulFree(s) && 0 <= i <= |s| && Simple(t) && ArgCount(t) < MAXARGS
    requires Args(s, i, t).Ok? && Spelled(s, Args(s, i, t).pos, rest)
    ensures ItemsOk(xs) && Spelled(s, i, ItemsLex(xs) + rest) && ArgCount(t) + |WordsOf(xs)| < MAXARGS
    ensures Meaning(s, Args(s, i, t).tree) == Extend(Meaning(s, t), xs)
    decreases |s| - i
  {
    hide Tok, Skip, Peek, Spelled, LexemeAt, NulFree, WordOk, Text, Redirs, AddArg, ArgCount, Meaning, Simple, Nest;
    hide AddWord, RedirsOk;
    var w := Tok(s, Skip(s, i));
    if Peek(s, i, "|)&;") || w.kind.End? {
      xs := [];
      ArgsEnd(s, i, t, rest);
      assert ItemsLex(xs) + rest == rest;
    } else {
      var t' := AddArg(t, Span(w.q, w.eq));
      AddArgMeans(s, t, Span(w.q, w.eq));
      var r := Redirs(s, w.next, t');
      RedirsSimple(s, w.next, t');
      var more := ArgsDerive(s, r.pos, r.tree, rest);
      var rs := RedirsDerive(s, w.next, t', ItemsLex(more) + rest);
      var word := Text(s, Span(w.q, w.eq));
      WordAt(s, Skip(s, i));
      PrependSkipped(s, i, RedirsLex(rs) + (ItemsLex(more) + rest));
      WordAndMore(Meaning(s, t), word, rs, more, rest);
      xs := [Arg(word)] + (Intos(rs) + more);
    }
  }

  lemma ArgsEnd(s: string, i: int, t: Tree, rest: seq<Lexeme>)
    requires 0 <= i <= |s| && (Peek(s, i, "|)&;") || Tok(s, Skip(s, i)).kind.End?)
    requires Spelled(s, Args(s, i, t).pos, rest)
    ensures Args(s, i, t).Ok? && Args(s, i, t).tree == t && Spelled(s, i, rest)
  {
    hide Spelled;
    SkipTwice(s, i);
    SkippedBack(s, i, rest);
  }

  // ---------------------------------------------------------------- units, pipelines, scripts

  lemma PlainDerive(s: string, i: int, rest: seq<Lexeme>) returns (u: Unit)
    requires NulFree(s) && 0 <= i <= |s| && !Peek(s, i, "(") && Exec(s, i).Ok? && Spelled(s, Exec(s, i).pos, rest)
    ensures UnitOk(u) && Spelled(s, i, UnitLex(u) + rest) && Meaning(s, Exec(s, i).tree) == UnitCmd(u)
  {
    hide Tok, Skip, Peek, Spelled, NulFree, Redirs, Args, Extend, Nest, ItemsOk, RedirsOk;
    var r := Redirs(s, Skip(s, i), TExec([]));
    RedirsSimple(s, Skip(s, i), TExec([]));
    var more := ArgsDerive(s, r.pos, r.tree, rest);
    var rs := RedirsDerive(s, Skip(s, i), TExec([]), ItemsLex(more) + rest);
    SkippedBack(s, i, RedirsLex(rs) + (ItemsLex(more) + rest));
    IntosLex(rs, more);
    IntosWords(rs, more);
    IntosExtend(Run([]), rs, more);
    IntosOk(rs, more);
    hide Intos, ItemsLex, RedirsLex, WordsOf;
    var xs := Intos(rs) + more;
    u := Plain(xs);
    PlainCmd(xs);
    Associative(RedirsLex(rs), ItemsLex(more), rest);
  }

  lemma BlockParts(s: string, i: int)
    requires 0 <= i <= |s| && Peek(s, i, "(") && Exec(s, i).Ok?
    ensures var r := Shell.Line(s, Tok(s, Skip(s, i)).next);
      r.Ok? && Peek(s, r.pos, ")") && Exec(s, i) == Redirs(s, Tok(s, Skip(s, r.pos)).next, r.tree)
  {
    hide Tok, Shell.Line, Redirs;
    SkipTwice(s, i);
  }

  lemma {:induction false} GroupDerive(s: string, i: int, rest: seq<Lexeme>) returns (u: Unit)
    requires NulFree(s) && 0 <= i <= |s| && Peek(s, i, "(") && Exec(s, i).Ok? && Spelled(s, Exec(s, i).pos, rest)
    ensures UnitOk(u) && Spelled(s, i, UnitLex(u) + rest) && Meaning(s, Exec(s, i).tree) == UnitCmd(u)
    decreases |s| - i, 0
  {
    hide Tok, Skip, Peek, Spelled, NulFree, Redirs, Nest, RedirsOk, Shell.Line, Exec, LexemeAt, RedirsLex, ScriptLex;
    hide ScriptOk, ScriptCmd;
    BlockParts(s, i);
    SymbolAt(s, i, '(');
    var j := Tok(s, Skip(s, i)).next;
    var r := Shell.Line(s, j);
    SymbolAt(s, r.pos, ')');
    var k := Tok(s, Skip(s, r.pos)).next;
    var rs := RedirsDerive(s, k, r.tree, rest);
    PrependSkipped(s, r.pos, RedirsLex(rs) + rest);
    Forward(s, i);
    var l := ScriptDerive(s, j, [Sym(')')] + (RedirsLex(rs) + rest));
    PrependSkipped(s, i, ScriptLex(l) + ([Sym(')')] + (RedirsLex(rs) + rest)));
    u := Group(l, rs);
    assert UnitLex(u) + rest == [Sym('(')] + (ScriptLex(l) + ([Sym(')')] + (RedirsLex(rs) + rest)));
  }

  lemma Forward(s: string, i: int)
    requires 0 <= i <= |s| && !Tok(s, Skip(s, i)).kind.End?
    ensures i < Tok(s, Skip(s, i)).next <= |s|
  {
  }

  lemma {:induction false} UnitDerive(s: string, i: int, rest: seq<Lexeme>) returns (u: Unit)
    requires NulFree(s) && 0 <= i <= |s| && Exec(s, i).Ok? && Spelled(s, Exec(s, i).pos, rest)
    ensures UnitOk(u) && Spelled(s, i, UnitLex(u) + rest) && Meaning(s, Exec(s, i).tree) == UnitCmd(u)
    decreases |s| - i, 1
  {
    hide Spelled, NulFree, Exec, UnitOk, UnitLex, UnitCmd, Peek;
    if Peek(s, i, "(") {
      u := GroupDerive(s, i, rest);
    } else {
      u := PlainDerive(s, i, rest);
    }
  }

  lemma PipeParts(s: string, i: int)
    requires 0 <= i <= |s| && Shell.Pipe(s, i).Ok?
    ensures Exec(s, i).Ok?
    ensures var r := Exec(s, i);
      if Peek(s, r.pos, "|") then
        var r' := Shell.Pipe(s, Tok(s, Skip(s, r.pos)).next);
        r'.Ok? && Shell.Pipe(s, i) == Ok(TPipe(r.tree, r'.tree), r'.pos)
      else Shell.Pipe(s, i) == Ok(r.tree, Skip(s, r.pos))
  {
    hide Exec, Tok, Skip, Peek;
  }

  lemma {:induction false} PipeDerive(s: string, i: int, rest: seq<Lexeme>) returns (p: Pipeline)
    requires NulFree(s) && 0 <= i <= |s| && Shell.Pipe(s, i).Ok? && Spelled(s, Shell.Pipe(s, i).pos, rest)
    ensures PipeOk(p) && Spelled(s, i, PipeLex(p) + rest) && Meaning(s, Shell.Pipe(s, i).tree) == PipeCmd(p)
    decreases |s| - i, 2
  {
    hide Tok, Skip, Peek, Spelled, NulFree, Exec, Shell.Pipe, UnitOk, UnitLex, UnitCmd, LexemeAt;
    PipeParts(s, i);
    var r := Exec(s, i);
    if Peek(s, r.pos, "|") {
      SymbolAt(s, r.pos, '|');
      Forward(s, r.pos);
      var j := Tok(s, Skip(s, r.pos)).next;
      var more := PipeDerive(s, j, rest);
      PrependSkipped(s, r.pos, PipeLex(more) + rest);
      var u := UnitDerive(s, i, [Sym('|')] + (PipeLex(more) + rest));
      p := Bar(u, more);
      assert PipeLex(p) + rest == UnitLex(u) + ([Sym('|')] + (PipeLex(more) + rest));
    } else {
      SkippedBack(s, r.pos, rest);
      var u := UnitDerive(s, i, rest);
      p := One(u);
    }
  }

  lemma {:induction false} AmpsDerive(s: string, i: int, t: Tree, rest: seq<Lexeme>) returns (n: nat)
    requires NulFree(s) && 0 <= i <= |s| && Spelled(s, Backs(s, i, t).pos, rest)
    ensures Spelled(s, i, Amps(n) + rest) && Meaning(s, Backs(s, i, t).tree) == Backgrounds(Meaning(s, t), n)
    decreases |s| - i
  {
    hide Tok, Skip, Peek, Spelled, NulFree, LexemeAt, Backs;
    BacksStep(s, i, t);
    if Peek(s, i, "&") {
      SymbolAt(s, i, '&');
      Forward(s, i);
      var m := AmpsDerive(s, Tok(s, Skip(s, i)).next, TBack(t), rest);
      PrependSkipped(s, i, Amps(m) + rest);
      n := m + 1;
      assert Amps(n) + rest == [Sym('&')] + (Amps(m) + rest);
    } else {
      n := 0;
      SkippedBack(s, i, rest);
      assert Amps(n) + rest == rest;
    }
  }

  lemma LineParts(s: string, i: int)
    requires 0 <= i <= |s| && Shell.Line(s, i).Ok?
    ensures Shell.Pipe(s, i).Ok?
    ensures var p := Shell.Pipe(s, i); var b := Backs(s, p.pos, p.tree);
      if Peek(s, b.pos, ";") then
        var r := Shell.Line(s, Tok(s, Skip(s, b.pos)).next);
        r.Ok? && Shell.Line(s, i) == Ok(TList(b.tree, r.tree), r.pos)
      else Shell.Line(s, i) == Ok(b.tree, Skip(s, b.pos))
  {
    hide Shell.Pipe, Backs, Tok, Skip, Peek;
  }

  lemma {:induction false} ScriptDerive(s: string, i: int, rest: seq<Lexeme>) returns (l: Script)
    requires NulFree(s) && 0 <= i <= |s| && Shell.Line(s, i).Ok? && Spelled(s, Shell.Line(s, i).pos, rest)
    ensures ScriptOk(l) && Spelled(s, i, ScriptLex(l) + rest) && Meaning(s, Shell.Line(s, i).tree) == ScriptCmd(l)
    decreases |s| - i, 3
  {
    hide Tok, Skip, Peek, Spelled, NulFree, Shell.Pipe, Shell.Line, Backs, PipeOk, PipeLex, PipeCmd, LexemeAt, Amps;
    hide Backgrounds;
    LineParts(s, i);
    var p := Shell.Pipe(s, i);
    var b := Backs(s, p.pos, p.tree);
    if Peek(s, b.pos, ";") {
      SymbolAt(s, b.pos, ';');
      Forward(s, b.pos);
      var more := ScriptDerive(s, Tok(s, Skip(s, b.pos)).next, rest);
      var after := [Sym(';')] + (ScriptLex(more) + rest);
      PrependSkipped(s, b.pos, ScriptLex(more) + rest);
      var n := AmpsDerive(s, p.pos, p.tree, after);
      var pipe := PipeDerive(s, i, Amps(n) + after);
      l := More(pipe, n, more);
      assert ScriptLex(l) + rest == PipeLex(pipe) + (Amps(n) + after);
    } else {
      SkippedBack(s, b.pos, rest);
      var n := AmpsDerive(s, p.pos, p.tree, rest);
      var pipe := PipeDerive(s, i, Amps(n) + rest);
      l := Last(pipe, n);
      assert ScriptLex(l) + rest == PipeLex(pipe) + (Amps(n) + rest);
    }
  }

  // ---------------------------------------------------------------- the parser is the grammar

  lemma Derives(s: string) returns (l: Script)
    requires NulFree(s) && Command(s).Ok?
    ensures Writes(s, l) && Meaning(s, Command(s).tree) == ScriptCmd(l)
  {
    hide Shell.Line, ScriptLex, ScriptCmd, ScriptOk, NulFree;
    var pos := Shell.Line(s, 0).pos;
    SkipIsBlank(s, pos);
    assert Spelled(s, pos, []);
    l := ScriptDerive(s, 0, []);
    assert ScriptLex(l) + [] == ScriptLex(l);
  }

  ghost predicate Denotes(s: string, l: Script, c: Cmd) { Writes(s, l) && ScriptCmd(l) == c }

  /** A line parses to a command exactly if it is a way to write that command; it is in error exactly if it is none. */
  lemma ParserIsGrammar(s: string, c: Cmd)
    requires NulFree(s)
    ensures (Command(s).Ok? && Meaning(s, Command(s).tree) == c) <==> exists l :: Denotes(s, l, c)
    ensures Command(s).Syntax? <==> !exists l :: Writes(s, l)
  {
    hide Command, Writes, ScriptCmd, NulFree;
    forall l | Writes(s, l)
      ensures Command(s).Ok? && Meaning(s, Command(s).tree) == ScriptCmd(l)
    {
      Accepts(s, l);
    }
    if Command(s).Ok? {
      var l := Derives(s);
      assert Denotes(s, l, Meaning(s, Command(s).tree));
    }
  }
}
