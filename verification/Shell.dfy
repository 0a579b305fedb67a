/**
 The command parser of user/sh.c: tokens, recursive descent, and nulterminate.

 A line is a string without NULs; positions in it stand for the source's pointers, and a word is
 the pair of positions where it begins and ends.  panic is the result Syntax.
 */
module Shell {

  const MAXARGS := 10

  // ---------------------------------------------------------------- characters and tokens

  predicate IsSpace(c: char) { c == ' ' || c == '\t' || c == '\r' || c == '\n' || c == '\U{0B}' }

  predicate IsSymbol(c: char) { c == '<' || c == '|' || c == '>' || c == '&' || c == ';' || c == '(' || c == ')' }

  predicate IsWord(c: char) { !IsSpace(c) && !IsSymbol(c) && c != '\0' }

  /** The character at a position, NUL behind the end. */
  function At(s: string, i: int): (c: char) { if 0 <= i < |s| then s[i] else '\0' }

  function Skip(s: string, i: int): (j: int)
    requires 0 <= i <= |s|
    ensures i <= j <= |s|
    decreases |s| - i
  {
    if i < |s| && IsSpace(s[i]) then Skip(s, i + 1) else i
  }

  function WordEnd(s: string, i: int): (j: int)
    requires 0 <= i <= |s|
    ensures i <= j <= |s|
    decreases |s| - i
  {
    if i < |s| && !IsSpace(s[i]) && !IsSymbol(s[i]) then WordEnd(s, i + 1) else i
  }

  datatype Kind = End | Symbol(c: char) | Append | Word

  /** What gettoken finds: the kind, where the token begins and ends, and where it leaves *ps. */
  datatype Token = Token(kind: Kind, q: int, eq: int, next: int)

  function Tok(s: string, i: int): (t: Token)
    requires 0 <= i <= |s|
    ensures i <= t.q <= t.eq <= t.next <= |s| && (!t.kind.End? ==> i < t.next)
  {
    var q := Skip(s, i);
    if q == |s| || s[q] == '\0' then Token(End, q, q, Skip(s, q))
    else if s[q] == '>' && At(s, q + 1) == '>' then Token(Append, q, q + 2, Skip(s, q + 2))
    else if IsSymbol(s[q]) then Token(Symbol(s[q]), q, q + 1, Skip(s, q + 1))
    else Token(Word, q, WordEnd(s, q), Skip(s, WordEnd(s, q)))
  }

  // ---------------------------------------------------------------- trees

  datatype Span = Span(q: int, eq: int)

  datatype Mode = Input | Output | Appending

  /** A command as the parser builds it, with words as positions. */
  datatype Tree =
    | TExec(args: seq<Span>)
    | TRedir(tree: Tree, file: Span, mode: Mode)
    | TPipe(left: Tree, right: Tree)
    | TList(left: Tree, right: Tree)
    | TBack(tree: Tree)

  datatype Result = Ok(tree: Tree, pos: int) | Syntax

  // ---------------------------------------------------------------- the grammar as functions

  predicate Peek(s: string, i: int, toks: string)
    requires 0 <= i <= |s|
  {
    At(s, Skip(s, i)) != '\0' && At(s, Skip(s, i)) in toks
  }

  function ModeOf(k: Kind): (m: Mode) {
    if k == Symbol('<') then Input else if k == Append then Appending else Output
  }

  /** parseredirs around t; `pos` is where *ps is left. */
  function Redirs(s: string, i: int, t: Tree): (r: Result)
    requires 0 <= i <= |s|
    ensures r.Ok? ==> i <= r.pos <= |s|
    decreases |s| - i
  {
    if !Peek(s, i, "<>") then Ok(t, Skip(s, i))
    else
      var op := Tok(s, Skip(s, i));
      var file := Tok(s, op.next);
      if !file.kind.Word? then Syntax
      else Redirs(s, file.next, TRedir(t, Span(file.q, file.eq), ModeOf(op.kind)))
  }

  /** Filling the argv of the exec command inside the redirections. */
  function AddArg(t: Tree, w: Span): (r: Tree) {
    match t
    case TExec(args) => TExec(args + [w])
    case TRedir(t', file, mode) => TRedir(AddArg(t', w), file, mode)
    case _ => t
  }

  function ArgCount(t: Tree): (n: nat) {
    match t
    case TExec(args) => |args|
    case TRedir(t', file, mode) => ArgCount(t')
    case _ => 0
  }

  /** parseexec's loop. */
  function Args(s: string, i: int, t: Tree): (r: Result)
    requires 0 <= i <= |s|
    ensures r.Ok? ==> i <= r.pos <= |s|
    decreases |s| - i
  {
    if Peek(s, i, "|)&;") then Ok(t, Skip(s, i))
    else
      var w := Tok(s, Skip(s, i));
      if w.kind.End? then Ok(t, w.next)
      else if !w.kind.Word? then Syntax
      else
        var t' := AddArg(t, Span(w.q, w.eq));
        if ArgCount(t') >= MAXARGS then Syntax
        else
          var r := Redirs(s, w.next, t');
          if r.Syntax? then Syntax else Args(s, r.pos, r.tree)
  }

  function Backs(s: string, i: int, t: Tree): (r: Result)
    requires 0 <= i <= |s|
    ensures r.Ok? && i <= r.pos <= |s|
    decreases |s| - i
  {
    if Peek(s, i, "&") then Backs(s, Tok(s, Skip(s, i)).next, TBack(t)) else Ok(t, Skip(s, i))
  }

  function Block(s: string, i: int): (r: Result)
    requires 0 <= i <= |s|
    ensures r.Ok? ==> i <= r.pos <= |s|
    decreases |s| - i, 0
  {
    if !Peek(s, i, "(") then Syntax
    else
      var r := Line(s, Tok(s, Skip(s, i)).next);
      if r.Syntax? || !Peek(s, r.pos, ")") then Syntax
      else Redirs(s, Tok(s, Skip(s, r.pos)).next, r.tree)
  }

  function Exec(s: string, i: int): (r: Result)
    requires 0 <= i <= |s|
    ensures r.Ok? ==> i <= r.pos <= |s|
    decreases |s| - i, 1
  {
    if Peek(s, i, "(") then Block(s, Skip(s, i))
    else
      var r := Redirs(s, Skip(s, i), TExec([]));
      if r.Syntax? then Syntax else Args(s, r.pos, r.tree)
  }

  function Pipe(s: string, i: int): (r: Result)
    requires 0 <= i <= |s|
    ensures r.Ok? ==> i <= r.pos <= |s|
    decreases |s| - i, 2
  {
    var r := Exec(s, i);
    if r.Syntax? then Syntax
    else if !Peek(s, r.pos, "|") then Ok(r.tree, Skip(s, r.pos))
    else
      var r' := Pipe(s, Tok(s, Skip(s, r.pos)).next);
      if r'.Syntax? then Syntax else Ok(TPipe(r.tree, r'.tree), r'.pos)
  }

  function Line(s: string, i: int): (r: Result)
    requires 0 <= i <= |s|
    ensures r.Ok? ==> i <= r.pos <= |s|
    decreases |s| - i, 3
  {
    var r := Pipe(s, i);
    if r.Syntax? then Syntax
    else
      var b := Backs(s, r.pos, r.tree);
      if !Peek(s, b.pos, ";") then Ok(b.tree, Skip(s, b.pos))
      else
        var r' := Line(s, Tok(s, Skip(s, b.pos)).next);
        if r'.Syntax? then Syntax else Ok(TList(b.tree, r'.tree), r'.pos)
  }

  /** parsecmd: the whole line must be used up. */
  function Command(s: string): (r: Result) {
    var r := Line(s, 0);
    if r.Syntax? || Skip(s, r.pos) != |s| then Syntax else Ok(r.tree, |s|)
  }

  // ---------------------------------------------------------------- the parser

  method SkipSpace(s: string, i: int) returns (j: int)
    requires 0 <= i <= |s|
    ensures j == Skip(s, i)
  {
    j := i;
    while j < |s| && IsSpace(s[j])
      invariant i <= j <= |s| && Skip(s, i) == Skip(s, j)
    {
      j := j + 1;
    }
  }

  method GetToken(s: string, i: int) returns (t: Token)
    requires 0 <= i <= |s|
    ensures t == Tok(s, i)
  {
    var j := SkipSpace(s, i);
    var q, kind := j, Kind.End;
    var c := At(s, j);
    if c == '\0' {
    } else if c == '|' || c == '(' || c == ')' || c == ';' || c == '&' || c == '<' {
      kind, j := Symbol(c), j + 1;
    } else if c == '>' {
      kind, j := Symbol(c), j + 1;
      if At(s, j) == '>' {
        kind, j := Append, j + 1;
      }
    } else {
      kind := Word;
      while j < |s| && !IsSpace(s[j]) && !IsSymbol(s[j])
        invariant q <= j <= |s| && WordEnd(s, q) == WordEnd(s, j)
      {
        j := j + 1;
      }
    }
    var eq := j;
    j := SkipSpace(s, j);
    t := Token(kind, q, eq, j);
  }

  method PeekAt(s: string, i: int, toks: string) returns (r: bool, j: int)
    requires 0 <= i <= |s|
    ensures j == Skip(s, i) && r == Peek(s, i, toks)
  {
    j := SkipSpace(s, i);
    r := At(s, j) != '\0' && At(s, j) in toks;
  }

  lemma {:induction false} SkipTwice(s: string, i: int)
    requires 0 <= i <= |s|
    ensures Skip(s, Skip(s, i)) == Skip(s, i)
    decreases |s| - i
  {
    if i < |s| && IsSpace(s[i]) {
      SkipTwice(s, i + 1);
    }
  }

  method ParseRedirs(s: string, i: int, t: Tree) returns (r: Result)
    requires 0 <= i <= |s|
    ensures r == Redirs(s, i, t)
  {
    var tree, pos := t, i;
    while true
      invariant i <= pos <= |s| && Redirs(s, i, t) == Redirs(s, pos, tree)
      decreases |s| - pos
    {
      var more, j := PeekAt(s, pos, "<>");
      if !more {
        return Ok(tree, j);
      }
      var op := GetToken(s, j);
      var file := GetToken(s, op.next);
      if !file.kind.Word? {
        return Syntax;
      }
      SkipTwice(s, pos);
      tree := TRedir(tree, Span(file.q, file.eq), ModeOf(op.kind));
      pos := file.next;
    }
  }

  method ParseExec(s: string, i: int) returns (r: Result)
    requires 0 <= i <= |s|
    ensures r == Exec(s, i)
    decreases |s| - i, 1
  {
    var paren, j := PeekAt(s, i, "(");
    if paren {
      r := ParseBlock(s, j);
      return;
    }
    r := ParseRedirs(s, j, TExec([]));
    if r.Syntax? {
      return;
    }
    while true
      invariant r.Ok? && j <= r.pos <= |s| && Exec(s, i) == Args(s, r.pos, r.tree)
      decreases |s| - r.pos
    {
      var stop, k := PeekAt(s, r.pos, "|)&;");
      if stop {
        return Ok(r.tree, k);
      }
      var w := GetToken(s, k);
      if w.kind.End? {
        return Ok(r.tree, w.next);
      }
      if !w.kind.Word? {
        return Syntax;
      }
      var t := AddArg(r.tree, Span(w.q, w.eq));
      if ArgCount(t) >= MAXARGS {
        return Syntax;
      }
      r := ParseRedirs(s, w.next, t);
      if r.Syntax? {
        return;
      }
    }
  }

  method ParseBlock(s: string, i: int) returns (r: Result)
    requires 0 <= i <= |s|
    ensures r == Block(s, i)
    decreases |s| - i, 0
  {
    var paren, j := PeekAt(s, i, "(");
    if !paren {
      return Syntax;
    }
    var w := GetToken(s, j);
    r := ParseLine(s, w.next);
    if r.Syntax? {
      return;
    }
    paren, j := PeekAt(s, r.pos, ")");
    if !paren {
      return Syntax;
    }
    w := GetToken(s, j);
    r := ParseRedirs(s, w.next, r.tree);
  }

  method ParsePipe(s: string, i: int) returns (r: Result)
    requires 0 <= i <= |s|
    ensures r == Pipe(s, i)
    decreases |s| - i, 2
  {
    r := ParseExec(s, i);
    if r.Syntax? {
      return;
    }
    var bar, j := PeekAt(s, r.pos, "|");
    if !bar {
      return Ok(r.tree, j);
    }
    var w := GetToken(s, j);
    var right := ParsePipe(s, w.next);
    r := if right.Syntax? then Syntax else Ok(TPipe(r.tree, right.tree), right.pos);
  }

  method ParseLine(s: string, i: int) returns (r: Result)
    requires 0 <= i <= |s|
    ensures r == Line(s, i)
    decreases |s| - i, 3
  {
    r := ParsePipe(s, i);
    if r.Syntax? {
      return;
    }
    var tree, pos := r.tree, r.pos;
    var more, j := PeekAt(s, pos, "&");
    while more
      invariant i <= pos <= |s| && Backs(s, r.pos, r.tree) == Backs(s, pos, tree) && more == Peek(s, pos, "&")
      invariant j == Skip(s, pos)
      decreases |s| - pos
    {
      var w := GetToken(s, j);
      tree, pos := TBack(tree), w.next;
      more, j := PeekAt(s, pos, "&");
    }
    SkipTwice(s, pos);
    more, j := PeekAt(s, j, ";");
    if !more {
      return Ok(tree, j);
    }
    var w := GetToken(s, j);
    var right := ParseLine(s, w.next);
    r := if right.Syntax? then Syntax else Ok(TList(tree, right.tree), right.pos);
  }

  /** parsecmd before nulterminate: it ends on every line, and does what the grammar says. */
  method ParseCommand(s: string) returns (r: Result)
    ensures r == Command(s)
  {
    r := ParseLine(s, 0);
    if r.Ok? {
      var any, j := PeekAt(s, r.pos, "");
      r := if j != |s| then Syntax else Ok(r.tree, |s|);
    }
  }
}
