/**
 Every command of the shell can be written, with parentheses only where the grammar needs them, and
 the parser inverts the writing, however it is spelled.
 */
module ShellTrees {
  import opened Basics
  import opened Shell
  import opened ShellGrammar
  import opened ShellParses
  import opened ShellDerives

  // ---------------------------------------------------------------- writing a command

  /** Words are words, and every command has fewer than MAXARGS of them. */
  predicate CmdOk(c: Cmd) {
    match c
    case Run(argv) => |argv| < MAXARGS && forall i :: 0 <= i < |argv| ==> WordOk(argv[i])
    case Redirect(c', file, mode) => CmdOk(c') && WordOk(file)
    case Piped(l, r) => CmdOk(l) && CmdOk(r)
    case Then(l, r) => CmdOk(l) && CmdOk(r)
    case Background(c') => CmdOk(c')
  }

  /** What is inside the redirections of a command, and inside its &s. */
  function Base(c: Cmd): (b: Cmd)
    ensures !b.Redirect? && (b == c || b < c)
  {
    if c.Redirect? then Base(c.cmd) else c
  }

  function Outer(c: Cmd): (rs: seq<Redir>) {
    if c.Redirect? then Outer(c.cmd) + [Redir(c.mode, c.file)] else []
  }

  function Core(c: Cmd): (b: Cmd)
    ensures !b.Background? && (b == c || b < c) && (c.Background? ==> b < c)
  {
    if c.Background? then Core(c.cmd) else c
  }

  function Depth(c: Cmd): (n: nat) { if c.Background? then Depth(c.cmd) + 1 else 0 }

  function ArgsOf(argv: seq<string>): (xs: seq<Item>) {
    if argv == [] then [] else [Arg(argv[0])] + ArgsOf(argv[1..])
  }

  function ScriptOf(c: Cmd): (l: Script)
    decreases c, if c.Then? || c.Background? then 0 else if c.Piped? then 1 else 4
  {
    if c.Then? then More(PipeOf(Core(c.left)), Depth(c.left), ScriptOf(c.right)) else Last(PipeOf(Core(c)), Depth(c))
  }

  function PipeOf(c: Cmd): (p: Pipeline)
    decreases c, if c.Piped? then 0 else 3
  {
    if c.Piped? then Bar(UnitOf(c.left), PipeOf(c.right)) else One(UnitOf(c))
  }

  /** A simple command with its redirections behind its words, or a group. */
  function UnitOf(c: Cmd): (u: Unit)
    decreases c, 2
  {
    var b := Base(c);
    if b.Run? then Plain(ArgsOf(b.argv) + Intos(Outer(c))) else Group(ScriptOf(b), Outer(c))
  }

  // ---------------------------------------------------------------- it means what was written

  lemma {:induction false} NestOuter(c: Cmd)
    ensures Nest(Base(c), Outer(c)) == c
  {
    if c.Redirect? {
      NestOuter(c.cmd);
      var r := Redir(c.mode, c.file);
      NestBoth(Base(c), Outer(c.cmd), [r]);
      assert [r][1..] == [];
    }
  }

  lemma {:induction false} BackgroundsOuter(c: Cmd, n: nat)
    ensures Backgrounds(Background(c), n) == Background(Backgrounds(c, n))
    decreases n
  {
    if n > 0 {
      BackgroundsOuter(Background(c), n - 1);
    }
  }

  lemma {:induction false} BackgroundsCore(c: Cmd)
    ensures Backgrounds(Core(c), Depth(c)) == c
  {
    if c.Background? {
      BackgroundsCore(c.cmd);
      BackgroundsOuter(Core(c), Depth(c.cmd));
    }
  }

  lemma {:induction false} ArgsWords(argv: seq<string>, rs: seq<Redir>)
    ensures WordsOf(ArgsOf(argv) + Intos(rs)) == argv && RedirsOf(ArgsOf(argv) + Intos(rs)) == rs
    decreases |argv|, |rs|
  {
    var xs := ArgsOf(argv) + Intos(rs);
    if argv != [] {
      ArgsWords(argv[1..], rs);
      assert xs[0] == Arg(argv[0]) && xs[1..] == ArgsOf(argv[1..]) + Intos(rs);
    } else if rs != [] {
      ArgsWords([], rs[1..]);
      assert xs[0] == Into(rs[0]) && xs[1..] == ArgsOf([]) + Intos(rs[1..]);
    }
  }

  lemma ScriptMeans(c: Cmd)
    ensures ScriptCmd(ScriptOf(c)) == c
    decreases c, if c.Then? || c.Background? then 0 else if c.Piped? then 1 else 4
  {
    if c.Then? {
      PipeMeans(Core(c.left));
      BackgroundsCore(c.left);
      ScriptMeans(c.right);
    } else {
      PipeMeans(Core(c));
      BackgroundsCore(c);
    }
  }

  lemma PipeMeans(c: Cmd)
    ensures PipeCmd(PipeOf(c)) == c
    decreases c, if c.Piped? then 0 else 3
  {
    if c.Piped? {
      UnitMeans(c.left);
      PipeMeans(c.right);
    } else {
      UnitMeans(c);
    }
  }

  lemma UnitMeans(c: Cmd)
    ensures UnitCmd(UnitOf(c)) == c
    decreases c, 2
  {
    NestOuter(c);
    var b := Base(c);
    if b.Run? {
      ArgsWords(b.argv, Outer(c));
    } else {
      ScriptMeans(b);
    }
  }

  // ---------------------------------------------------------------- it is well formed

  lemma {:induction false} OuterOk(c: Cmd)
    requires CmdOk(c)
    ensures CmdOk(Base(c)) && RedirsOk(Outer(c))
  {
    hide WordOk;
    if c.Redirect? {
      OuterOk(c.cmd);
    }
  }

  lemma {:induction false} CoreOk(c: Cmd)
    requires CmdOk(c)
    ensures CmdOk(Core(c))
  {
    if c.Background? {
      CoreOk(c.cmd);
    }
  }

  lemma {:induction false} ArgsItemsOk(argv: seq<string>)
    requires forall i :: 0 <= i < |argv| ==> WordOk(argv[i])
    ensures ItemsOk(ArgsOf(argv))
  {
    hide WordOk;
    if argv != [] {
      ArgsItemsOk(argv[1..]);
      assert ItemOk(Arg(argv[0]));
    }
  }

  lemma ScriptFine(c: Cmd)
    requires CmdOk(c)
    ensures ScriptOk(ScriptOf(c))
    decreases c, if c.Then? || c.Background? then 0 else if c.Piped? then 1 else 4
  {
    if c.Then? {
      CoreOk(c.left);
      PipeFine(Core(c.left));
      ScriptFine(c.right);
    } else {
      CoreOk(c);
      PipeFine(Core(c));
    }
  }

  lemma PipeFine(c: Cmd)
    requires CmdOk(c)
    ensures PipeOk(PipeOf(c))
    decreases c, if c.Piped? then 0 else 3
  {
    if c.Piped? {
      UnitFine(c.left);
      PipeFine(c.right);
    } else {
      UnitFine(c);
    }
  }

  lemma UnitFine(c: Cmd)
    requires CmdOk(c)
    ensures UnitOk(UnitOf(c))
    decreases c, 2
  {
    OuterOk(c);
    var b := Base(c);
    if b.Run? {
      ArgsItemsOk(b.argv);
      IntosOk(Outer(c), []);
      assert Intos(Outer(c)) + [] == Intos(Outer(c));
      ArgsWords(b.argv, Outer(c));
    } else {
      ScriptFine(b);
    }
  }

  // ---------------------------------------------------------------- a spelling

  /** Every lexeme with a blank behind it. */
  function Print(ls: seq<Lexeme>): (s: string) { if ls == [] then "" else ls[0].text + " " + Print(ls[1..]) }

  ghost predicate AllLexOk(ls: seq<Lexeme>) { forall i :: 0 <= i < |ls| ==> LexOk(ls[i]) }

  lemma PrintedStands(pre: string, l: Lexeme, more: string)
    requires LexOk(l)
    ensures var s := pre + (l.text + " " + more); var e := |pre| + |l.text|;
      Stands(s, |pre|, |pre|, l) && Blank(s, e, e + 1) && s == pre + l.text + " " + more
  {
    var s, e := pre + (l.text + " " + more), |pre| + |l.text|;
    assert s[|pre|..e] == l.text && s[e] == ' ';
  }

  lemma {:induction false} PrintSpells(pre: string, ls: seq<Lexeme>)
    requires AllLexOk(ls)
    ensures Spelled(pre + Print(ls), |pre|, ls)
    decreases |ls|
  {
    hide LexOk, Stands, Blank;
    if ls != [] {
      var s, l, e := pre + Print(ls), ls[0], |pre| + |ls[0].text|;
      PrintedStands(pre, l, Print(ls[1..]));
      assert AllLexOk(ls[1..]);
      PrintSpells(pre + l.text + " ", ls[1..]);
      SpelledBefore(s, e, e + 1, ls[1..]);
    } else {
      PrintNothing(pre);
    }
  }

  lemma PrintNothing(pre: string)
    ensures Spelled(pre + Print([]), |pre|, [])
  {
  }

  lemma {:induction false} PrintNulFree(ls: seq<Lexeme>)
    requires AllLexOk(ls)
    ensures NulFree(Print(ls))
    decreases |ls|
  {
    if ls != [] {
      assert AllLexOk(ls[1..]);
      PrintNulFree(ls[1..]);
      assert LexOk(ls[0]);
    }
  }

  // ---------------------------------------------------------------- the round trip

  /** Whatever blanks are put between its lexemes, the writing of a command is parsed to that command. */
  lemma RoundTrip(c: Cmd, s: string)
    requires CmdOk(c) && NulFree(s) && Spelled(s, 0, ScriptLex(ScriptOf(c)))
    ensures Command(s).Ok? && Meaning(s, Command(s).tree) == c
  {
    hide Spelled, Command;
    ScriptFine(c);
    ScriptMeans(c);
    Accepts(s, ScriptOf(c));
  }

  lemma {:induction false} RedirsLexOk(rs: seq<Redir>)
    requires RedirsOk(rs)
    ensures AllLexOk(RedirsLex(rs))
  {
    if rs != [] {
      RedirsLexOk(rs[1..]);
    }
  }

  lemma {:induction false} ItemsLexOk(xs: seq<Item>)
    requires ItemsOk(xs)
    ensures AllLexOk(ItemsLex(xs))
  {
    hide WordOk;
    if xs != [] {
      ItemsLexOk(xs[1..]);
      assert ItemOk(xs[0]);
      assert AllLexOk(ItemLex(xs[0]));
    }
  }

  lemma {:induction false} AmpsLexOk(n: nat)
    ensures AllLexOk(Amps(n))
  {
    if n > 0 {
      AmpsLexOk(n - 1);
    }
  }

  lemma UnitLexOk(u: Unit)
    requires UnitOk(u)
    ensures AllLexOk(UnitLex(u))
  {
    match u
    case Plain(items) => ItemsLexOk(items);
    case Group(l, rs) => ScriptLexOk(l); RedirsLexOk(rs);
  }

  lemma PipeLexOk(p: Pipeline)
    requires PipeOk(p)
    ensures AllLexOk(PipeLex(p))
  {
    UnitLexOk(p.unit);
    if p.Bar? {
      PipeLexOk(p.more);
    }
  }

  lemma ScriptLexOk(l: Script)
    requires ScriptOk(l)
    ensures AllLexOk(ScriptLex(l))
  {
    PipeLexOk(l.pipe);
    AmpsLexOk(l.amps);
    if l.More? {
      ScriptLexOk(l.rest);
    }
  }

  /** So every command can be given to the shell: the parser inverts its printed form. */
  lemma PrintedRoundTrip(c: Cmd)
    requires CmdOk(c)
    ensures var s := Print(ScriptLex(ScriptOf(c))); Command(s).Ok? && Meaning(s, Command(s).tree) == c
  {
    hide Spelled, Command, Print;
    var ls := ScriptLex(ScriptOf(c));
    ScriptFine(c);
    ScriptLexOk(ScriptOf(c));
    PrintSpells("", ls);
    PrintNulFree(ls);
    assert "" + Print(ls) == Print(ls);
    RoundTrip(c, Print(ls));
  }
}
