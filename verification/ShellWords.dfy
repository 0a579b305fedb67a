/**
 nulterminate, user/sh.c: every word of a parsed line is a token of it, and the zero bytes written
 at token ends leave each stored word reading back as exactly its token.
 */
module ShellWords {
  import opened Basics
  import opened Shell

  // ---------------------------------------------------------------- words are tokens

  /** A maximal nonempty run of word characters. */
  predicate IsToken(s: string, w: Span) {
    0 <= w.q < w.eq <= |s| && (forall i :: w.q <= i < w.eq ==> IsWord(s[i])) && (w.eq < |s| ==> !IsWord(s[w.eq]))
  }

  predicate TreeOk(s: string, t: Tree) {
    match t
    case TExec(args) => forall i :: 0 <= i < |args| ==> IsToken(s, args[i])
    case TRedir(t', file, mode) => TreeOk(s, t') && IsToken(s, file)
    case TPipe(l, r) => TreeOk(s, l) && TreeOk(s, r)
    case TList(l, r) => TreeOk(s, l) && TreeOk(s, r)
    case TBack(t') => TreeOk(s, t')
  }

  lemma {:induction false} WordRun(s: string, i: int)
    requires NulFree(s) && 0 <= i <= |s|
    ensures forall k :: i <= k < WordEnd(s, i) ==> IsWord(s[k])
    ensures WordEnd(s, i) < |s| ==> !IsWord(s[WordEnd(s, i)])
    decreases |s| - i
  {
    if i < |s| && IsWord(s[i]) {
      WordRun(s, i + 1);
    }
  }

  lemma {:induction false} NotSpace(s: string, i: int)
    requires 0 <= i <= |s|
    ensures Skip(s, i) < |s| ==> !IsSpace(s[Skip(s, i)])
    decreases |s| - i
  {
    if i < |s| && IsSpace(s[i]) {
      NotSpace(s, i + 1);
    }
  }

  lemma WordIsToken(s: string, i: int)
    requires NulFree(s) && 0 <= i <= |s| && Tok(s, i).kind.Word?
    ensures IsToken(s, Span(Tok(s, i).q, Tok(s, i).eq))
  {
    NotSpace(s, i);
    WordRun(s, Skip(s, i));
  }

  lemma {:induction false} RedirsOk(s: string, i: int, t: Tree)
    requires NulFree(s) && 0 <= i <= |s| && TreeOk(s, t)
    ensures Redirs(s, i, t).Ok? ==> TreeOk(s, Redirs(s, i, t).tree)
    decreases |s| - i
  {
    hide Tok, IsToken;
    if Peek(s, i, "<>") {
      var op := Tok(s, Skip(s, i));
      var file := Tok(s, op.next);
      if file.kind.Word? {
        WordIsToken(s, op.next);
        RedirsOk(s, file.next, TRedir(t, Span(file.q, file.eq), ModeOf(op.kind)));
      }
    }
  }

  lemma {:induction false} AddArgOk(s: string, t: Tree, w: Span)
    requires TreeOk(s, t) && IsToken(s, w)
    ensures TreeOk(s, AddArg(t, w))
  {
    if t.TRedir? {
      AddArgOk(s, t.tree, w);
    }
  }

  lemma {:induction false} ArgsOk(s: string, i: int, t: Tree)
    requires NulFree(s) && 0 <= i <= |s| && TreeOk(s, t)
    ensures Args(s, i, t).Ok? ==> TreeOk(s, Args(s, i, t).tree)
    decreases |s| - i
  {
    hide Tok, IsToken, Redirs;
    if !Peek(s, i, "|)&;") {
      var w := Tok(s, Skip(s, i));
      if w.kind.Word? {
        var t' := AddArg(t, Span(w.q, w.eq));
        WordIsToken(s, Skip(s, i));
        AddArgOk(s, t, Span(w.q, w.eq));
        RedirsOk(s, w.next, t');
        var r := Redirs(s, w.next, t');
        if r.Ok? {
          ArgsOk(s, r.pos, r.tree);
        }
      }
    }
  }

  lemma {:induction false} BacksOk(s: string, i: int, t: Tree)
    requires 0 <= i <= |s| && TreeOk(s, t)
    ensures TreeOk(s, Backs(s, i, t).tree)
    decreases |s| - i
  {
    hide Tok;
    if Peek(s, i, "&") {
      SymbolHere(s, i);
      BacksOk(s, Tok(s, Skip(s, i)).next, TBack(t));
    }
  }

  lemma {:induction false} BlockOk(s: string, i: int)
    requires NulFree(s) && 0 <= i <= |s|
    ensures Block(s, i).Ok? ==> TreeOk(s, Block(s, i).tree)
    decreases |s| - i, 0
  {
    hide Tok, TreeOk, Redirs;
    if Peek(s, i, "(") {
      var j := Tok(s, Skip(s, i)).next;
      SymbolHere(s, i);
      LineOk(s, j);
      var r := Line(s, j);
      if r.Ok? && Peek(s, r.pos, ")") {
        RedirsOk(s, Tok(s, Skip(s, r.pos)).next, r.tree);
      }
    }
  }

  lemma SymbolHere(s: string, i: int)
    requires 0 <= i <= |s| && (Peek(s, i, "(") || Peek(s, i, "&") || Peek(s, i, "|") || Peek(s, i, ";"))
    ensures !Tok(s, Skip(s, i)).kind.End?
  {
    SkipTwice(s, i);
  }

  lemma {:induction false} ExecOk(s: string, i: int)
    requires NulFree(s) && 0 <= i <= |s|
    ensures Shell.Exec(s, i).Ok? ==> TreeOk(s, Shell.Exec(s, i).tree)
    decreases |s| - i, 1
  {
    hide Block, Redirs, Args;
    if Peek(s, i, "(") {
      BlockOk(s, Skip(s, i));
    } else {
      RedirsOk(s, Skip(s, i), TExec([]));
      var r := Redirs(s, Skip(s, i), TExec([]));
      if r.Ok? {
        ArgsOk(s, r.pos, r.tree);
      }
    }
  }

  lemma {:induction false} PipeOk(s: string, i: int)
    requires NulFree(s) && 0 <= i <= |s|
    ensures Pipe(s, i).Ok? ==> TreeOk(s, Pipe(s, i).tree)
    decreases |s| - i, 2
  {
    hide Tok, Exec;
    ExecOk(s, i);
    var r := Exec(s, i);
    if r.Ok? && Peek(s, r.pos, "|") {
      SymbolHere(s, r.pos);
      PipeOk(s, Tok(s, Skip(s, r.pos)).next);
    }
  }

  lemma {:induction false} LineOk(s: string, i: int)
    requires NulFree(s) && 0 <= i <= |s|
    ensures Line(s, i).Ok? ==> TreeOk(s, Line(s, i).tree)
    decreases |s| - i, 3
  {
    hide Tok, Pipe, Backs;
    PipeOk(s, i);
    var r := Pipe(s, i);
    if r.Ok? {
      BacksOk(s, r.pos, r.tree);
      var b := Backs(s, r.pos, r.tree);
      if Peek(s, b.pos, ";") {
        SymbolHere(s, b.pos);
        LineOk(s, Tok(s, Skip(s, b.pos)).next);
      }
    }
  }

  // ---------------------------------------------------------------- zero bytes at token ends

  /** The words of a tree. */
  function Words(t: Tree): (ws: set<Span>) {
    match t
    case TExec(args) => set i | 0 <= i < |args| :: args[i]
    case TRedir(t', file, mode) => Words(t') + {file}
    case TPipe(l, r) => Words(l) + Words(r)
    case TList(l, r) => Words(l) + Words(r)
    case TBack(t') => Words(t')
  }

  predicate IsEnd(ws: set<Span>, k: int) { exists w :: w in ws && w.eq == k }

  /** The buffer b is a with a zero byte at the end of every word, and nowhere else changed. */
  predicate Terminated(a: seq<char>, b: seq<char>, ws: set<Span>) {
    |a| == |b| && forall k :: 0 <= k < |a| ==> b[k] == if IsEnd(ws, k) then '\0' else a[k]
  }

  lemma {:induction false} WordsAreTokens(s: string, t: Tree)
    requires TreeOk(s, t)
    ensures forall w :: w in Words(t) ==> IsToken(s, w)
  {
    match t
    case TExec(args) =>
    case TRedir(t', file, mode) => WordsAreTokens(s, t');
    case TPipe(l, r) => WordsAreTokens(s, l); WordsAreTokens(s, r);
    case TList(l, r) => WordsAreTokens(s, l); WordsAreTokens(s, r);
    case TBack(t') => WordsAreTokens(s, t');
  }

  /** One more end. */
  lemma EndOne(a: seq<char>, b: seq<char>, ws: set<Span>, w: Span)
    requires Terminated(a, b, ws) && 0 <= w.eq < |b|
    ensures Terminated(a, b[w.eq := '\0'], ws + {w})
  {
    forall k | 0 <= k < |a| ensures IsEnd(ws + {w}, k) <==> IsEnd(ws, k) || k == w.eq {
      if k == w.eq {
        assert w in ws + {w};
      }
    }
  }

  /** Two passes over the buffer. */
  lemma EndBoth(a: seq<char>, b: seq<char>, c: seq<char>, ws: set<Span>, vs: set<Span>)
    requires Terminated(a, b, ws) && Terminated(b, c, vs)
    ensures Terminated(a, c, ws + vs)
  {
    forall k | 0 <= k < |a| ensures IsEnd(ws + vs, k) <==> IsEnd(ws, k) || IsEnd(vs, k) {
      if IsEnd(ws, k) {
        var w :| w in ws && w.eq == k;
        assert w in ws + vs;
      } else if IsEnd(vs, k) {
        var w :| w in vs && w.eq == k;
        assert w in ws + vs;
      }
    }
  }

  method NulTerminate(buf: array<char>, t: Tree)
    requires forall w :: w in Words(t) ==> 0 <= w.eq < buf.Length
    modifies buf
    ensures Terminated(old(buf[..]), buf[..], Words(t))
    decreases t
  {
    ghost var a := buf[..];
    match t {
      case TExec(args) =>
        NulTerminateArgs(buf, args);
      case TRedir(t', file, mode) =>
        NulTerminate(buf, t');
        ghost var b := buf[..];
        assert file in Words(t);
        buf[file.eq] := '\0';
        EndOne(a, b, Words(t'), file);
        assert buf[..] == b[file.eq := '\0'];
      case TPipe(l, r) =>
        NulTerminate(buf, l);
        ghost var b := buf[..];
        NulTerminate(buf, r);
        EndBoth(a, b, buf[..], Words(l), Words(r));
      case TList(l, r) =>
        NulTerminate(buf, l);
        ghost var b := buf[..];
        NulTerminate(buf, r);
        EndBoth(a, b, buf[..], Words(l), Words(r));
      case TBack(t') =>
        NulTerminate(buf, t');
    }
  }

  function FirstWords(args: seq<Span>, n: int): (ws: set<Span>)
    requires 0 <= n <= |args|
  {
    set i | 0 <= i < n :: args[i]
  }

  method NulTerminateArgs(buf: array<char>, args: seq<Span>)
    requires forall w :: w in Words(TExec(args)) ==> 0 <= w.eq < buf.Length
    modifies buf
    ensures Terminated(old(buf[..]), buf[..], Words(TExec(args)))
  {
    ghost var a := buf[..];
    var i := 0;
    while i < |args|
      invariant 0 <= i <= |args| && Terminated(a, buf[..], FirstWords(args, i))
    {
      ghost var b := buf[..];
      assert args[i] in Words(TExec(args));
      buf[args[i].eq] := '\0';
      EndOne(a, b, FirstWords(args, i), args[i]);
      assert buf[..] == b[args[i].eq := '\0'];
      assert FirstWords(args, i + 1) == FirstWords(args, i) + {args[i]};
      i := i + 1;
    }
    assert FirstWords(args, |args|) == Words(TExec(args));
  }

  // ---------------------------------------------------------------- reading the words back

  /** The C string that begins at position i. */
  function CString(b: seq<char>, i: int): (s: string)
    requires 0 <= i <= |b|
    decreases |b| - i
  {
    if i < |b| && b[i] != '\0' then [b[i]] + CString(b, i + 1) else ""
  }

  lemma {:induction false} StringTo(b: seq<char>, i: int, e: int)
    requires 0 <= i <= e < |b| && b[e] == '\0' && forall k :: i <= k < e ==> b[k] != '\0'
    ensures CString(b, i) == b[i..e]
    decreases e - i
  {
    if i < e {
      StringTo(b, i + 1, e);
      assert b[i..e] == [b[i]] + b[i + 1..e];
    }
  }

  /** No zero byte falls inside a token. */
  lemma TokenReads(s: string, b: seq<char>, ws: set<Span>, w: Span)
    requires NulFree(s) && Terminated(s + ['\0'], b, ws) && w in ws && forall v :: v in ws ==> IsToken(s, v)
    ensures 0 <= w.q <= w.eq <= |s| && CString(b, w.q) == s[w.q..w.eq]
  {
    forall k | w.q <= k < w.eq ensures b[k] == s[k] {
      assert IsWord(s[k]);
      assert forall v :: v in ws ==> v.eq != k;
    }
    assert IsEnd(ws, w.eq);
    StringTo(b, w.q, w.eq);
    assert b[w.q..w.eq] == s[w.q..w.eq];
  }

  /** parsecmd on the line in buf: every stored word reads back as exactly its token. */
  method ParseCmd(buf: array<char>) returns (r: Result)
    requires 0 < buf.Length && buf[buf.Length - 1] == '\0' && NulFree(buf[..buf.Length - 1])
    modifies buf
    ensures r == Command(old(buf[..buf.Length - 1]))
    ensures r.Syntax? ==> buf[..] == old(buf[..])
    ensures r.Ok? ==> Terminated(old(buf[..]), buf[..], Words(r.tree))
    ensures r.Ok? ==> forall w :: w in Words(r.tree) ==>
      IsToken(old(buf[..buf.Length - 1]), w) && CString(buf[..], w.q) == old(buf[..buf.Length - 1])[w.q..w.eq]
  {
    hide Terminated, Line, Words;
    var s := buf[..buf.Length - 1];
    r := ParseCommand(s);
    if r.Ok? {
      LineOk(s, 0);
      WordsAreTokens(s, r.tree);
      assert buf[..] == s + ['\0'];
      NulTerminate(buf, r.tree);
      forall w | w in Words(r.tree) ensures CString(buf[..], w.q) == s[w.q..w.eq] {
        TokenReads(s, buf[..], Words(r.tree), w);
      }
    }
  }
}
