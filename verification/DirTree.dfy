/**
 The invariant of the directory tree of kernel/sysfile.c: link counts agree with the entries,
 names in a directory are distinct, and every linked directory but the root hangs from exactly
 one entry of the directory its ".." names.
 */
module DirTree {
  import opened LinkCounts

  const ROOT := 1

  /** The largest value of the link count, a short. */
  const MAXLINK := 32767

  const EMPTY := Dirent(0, "")

  function Increment(n: int): (r: int) { if n == MAXLINK then -MAXLINK - 1 else n + 1 }

  // ---------------------------------------------------------------- the invariant

  predicate CountOk(kind: Kind, nlink: int, total: nat, pending: nat) {
    if kind.Free? then total == 0 && pending == 0 else nlink == total + pending
  }

  /**
   Every link count is the number of entries, plus the link calls that have raised it and not yet
   written their entry; nothing names a free inode.
   */
  predicate LinksOk(nodes: seq<Inode>, pending: seq<nat>) {
    |pending| == |nodes| && forall i :: 0 < i < |nodes| ==> CountOk(nodes[i].kind, nodes[i].nlink, Total(nodes, i),
      pending[i])
  }

  predicate Distinct(es: seq<Dirent>) {
    forall j, k :: 0 <= j < k < |es| && es[j].inum != 0 && es[k].inum != 0 ==> es[j].name != es[k].name
  }

  predicate InRange(es: seq<Dirent>, n: int) { forall k :: 0 <= k < |es| ==> 0 <= es[k].inum < n }

  /** "." and ".." come first; only the root is its own parent. */
  predicate Shape(es: seq<Dirent>, d: int, n: int) {
    |es| >= 2 && es[0] == Dirent(d, ".") && es[1].name == ".." && es[1].inum > 0 && (es[1].inum == d <==> d == ROOT) &&
    Distinct(es) && InRange(es, n)
  }

  predicate ShapeAt(x: Inode, d: int, n: int) {
    if x.kind.Dir? then Shape(x.entries, d, n) else x.entries == [] && (x.kind.Free? ==> x.nlink == 0)
  }

  function Parent(x: Inode): (p: int) { if |x.entries| >= 2 then x.entries[1].inum else 0 }

  /** Some entry behind "." and ".." names c. */
  predicate HasChild(es: seq<Dirent>, c: int) { exists k :: 2 <= k < |es| && es[k].inum == c }

  predicate NoChildren(es: seq<Dirent>) { forall k :: 2 <= k < |es| ==> es[k].inum == 0 }

  /** x, with parent p, is held up by an entry of p; a removed directory is empty. */
  predicate Held(x: Inode, p: Inode, d: int) {
    (Live(x) ==> Live(p) && (d == ROOT || HasChild(p.entries, d))) &&
      (x.kind.Dir? && !Live(x) ==> NoChildren(x.entries))
  }

  predicate HeldAt(nodes: seq<Inode>, d: int)
    requires 0 <= d < |nodes|
  {
    nodes[d].kind.Dir? ==> 0 <= Parent(nodes[d]) < |nodes| && Held(nodes[d], nodes[Parent(nodes[d])], d)
  }

  /** Entry k of a linked directory x at d, which names c: a directory has one entry, in its parent. */
  predicate ChildOk(x: Inode, d: int, k: int, c: Inode)
    requires 2 <= k < |x.entries|
  {
    Live(x) && c.kind.Dir? ==>
      (x.entries[k].inum != ROOT && Parent(c) == d &&
       forall j :: 2 <= j < |x.entries| && x.entries[j].inum == x.entries[k].inum ==> j == k)
  }

  predicate ChildAt(nodes: seq<Inode>, d: int, k: int)
    requires 0 <= d < |nodes| && 2 <= k < |nodes[d].entries|
  {
    var c := nodes[d].entries[k].inum;
    0 < c < |nodes| ==> ChildOk(nodes[d], d, k, nodes[c])
  }

  predicate Shapes(nodes: seq<Inode>) { forall d :: 0 < d < |nodes| ==> ShapeAt(nodes[d], d, |nodes|) }

  predicate AllHeld(nodes: seq<Inode>) { forall d :: 0 < d < |nodes| ==> HeldAt(nodes, d) }

  predicate AllChildren(nodes: seq<Inode>) {
    forall d, k :: 0 < d < |nodes| && 2 <= k < |nodes[d].entries| ==> ChildAt(nodes, d, k)
  }

  predicate TreeOk(nodes: seq<Inode>) {
    |nodes| > ROOT && nodes[0] == NOTHING && Live(nodes[ROOT]) && Shapes(nodes) && AllHeld(nodes) && AllChildren(nodes)
  }

  /** Links are only ever in flight to files and devices. */
  predicate PendingOk(nodes: seq<Inode>, pending: seq<nat>) {
    |pending| == |nodes| && forall i :: 0 < i < |nodes| && pending[i] > 0 ==> !nodes[i].kind.Dir?
  }

  // ---------------------------------------------------------------- writing an entry

  predicate Slot(es: seq<Dirent>, k: int) { 0 <= k <= |es| && (k < |es| ==> es[k].inum == 0) }

  predicate Fresh(es: seq<Dirent>, name: string) { forall k :: 0 <= k < |es| && es[k].inum != 0 ==> es[k].name != name }

  function Entered(nodes: seq<Inode>, d: int, k: int, e: Dirent): (r: seq<Inode>)
    requires 0 <= d < |nodes| && 0 <= k <= |nodes[d].entries|
  {
    nodes[d := nodes[d].(entries := Put(nodes[d].entries, k, e))]
  }

  function Counted(nodes: seq<Inode>, i: int, n: int): (r: seq<Inode>)
    requires 0 <= i < |nodes|
  {
    nodes[i := nodes[i].(nlink := n)]
  }

  lemma EnteredTotal(nodes: seq<Inode>, d: int, k: int, e: Dirent, i: int)
    requires 0 <= d < |nodes| && 0 <= k <= |nodes[d].entries|
    ensures Total(Entered(nodes, d, k, e), i) ==
      Total(nodes, i) + if Live(nodes[d]) then One(e,
        i) - (if k < |nodes[d].entries| then One(nodes[d].entries[k], i) else 0) else 0
  {
    hide Total, Refs;
    TotalSet(nodes, d, nodes[d].(entries := Put(nodes[d].entries, k, e)), i);
    RefsPut(nodes[d].entries, k, e, i);
  }

  lemma CountedTotal(nodes: seq<Inode>, c: int, n: int, i: int)
    requires 0 <= c < |nodes| && (!nodes[c].kind.Dir? || (Live(nodes[c]) && n > 0))
    ensures Total(Counted(nodes, c, n), i) == Total(nodes, i)
  {
    hide Total;
    TotalSet(nodes, c, nodes[c].(nlink := n), i);
  }

  /** A link in flight whose entry is written: exact if and only if the directory is still linked. */
  lemma LinkCounted(nodes: seq<Inode>, pending: seq<nat>, d: int, k: int, c: int, name: string)
    requires LinksOk(nodes, pending) && 0 < d < |nodes| && 0 < c < |nodes| && Slot(nodes[d].entries, k)
    requires name != "." && pending[c] > 0
    ensures LinksOk(Entered(nodes, d, k, Dirent(c, name)), pending[c := pending[c] - 1]) <==> Live(nodes[d])
  {
    hide Total;
    var after, left := Entered(nodes, d, k, Dirent(c, name)), pending[c := pending[c] - 1];
    forall i | 0 < i < |nodes|
      ensures Total(after, i) == Total(nodes, i) + if Live(nodes[d]) && i == c then 1 else 0
    {
      EnteredTotal(nodes, d, k, Dirent(c, name), i);
    }
    assert after[c].kind == nodes[c].kind && after[c].nlink == nodes[c].nlink;
    assert !Live(nodes[d]) ==> !CountOk(after[c].kind, after[c].nlink, Total(after, c), left[c]);
  }

  /** Raising the count of a file: exact if and only if the short does not overflow. */
  lemma RaisedCounted(nodes: seq<Inode>, pending: seq<nat>, c: int)
    requires LinksOk(nodes, pending) && 0 < c < |nodes| && !nodes[c].kind.Dir? && !nodes[c].kind.Free?
    ensures LinksOk(Counted(nodes, c, Increment(nodes[c].nlink)), pending[c := pending[c] + 1]) <==>
      nodes[c].nlink != MAXLINK
  {
    hide Total;
    var after, more := Counted(nodes, c, Increment(nodes[c].nlink)), pending[c := pending[c] + 1];
    forall i | 0 < i < |nodes| ensures Total(after, i) == Total(nodes, i) {
      CountedTotal(nodes, c, Increment(nodes[c].nlink), i);
    }
    assert nodes[c].nlink == MAXLINK ==> !CountOk(after[c].kind, after[c].nlink, Total(after, c), more[c]);
  }

  lemma LoweredCounted(nodes: seq<Inode>, pending: seq<nat>, c: int)
    requires LinksOk(nodes, pending) && 0 < c < |nodes| && !nodes[c].kind.Dir? && pending[c] > 0
    ensures LinksOk(Counted(nodes, c, nodes[c].nlink - 1), pending[c := pending[c] - 1])
  {
    hide Total;
    forall i | 0 < i < |nodes| ensures Total(Counted(nodes, c, nodes[c].nlink - 1), i) == Total(nodes, i) {
      CountedTotal(nodes, c, nodes[c].nlink - 1, i);
    }
  }

  /** A free inode becomes a file with its one link still to be written. */
  lemma AllocatedCounted(nodes: seq<Inode>, pending: seq<nat>, c: int, kind: Kind)
    requires LinksOk(nodes, pending) && 0 < c < |nodes| && nodes[c].kind.Free? && !kind.Dir? && !kind.Free?
    ensures LinksOk(nodes[c := Inode(kind, 1, [])], pending[c := 1])
  {
    hide Total;
    forall i | 0 < i < |nodes| ensures Total(nodes[c := Inode(kind, 1, [])], i) == Total(nodes, i) {
      TotalSet(nodes, c, Inode(kind, 1, []), i);
    }
  }

  lemma FreedCounted(nodes: seq<Inode>, pending: seq<nat>, c: int)
    requires LinksOk(nodes, pending) && 0 < c < |nodes| && nodes[c].nlink == 0
    ensures LinksOk(nodes[c := NOTHING], pending)
  {
    hide Total;
    forall i | 0 < i < |nodes| ensures Total(nodes[c := NOTHING], i) == Total(nodes, i) {
      TotalSet(nodes, c, NOTHING, i);
    }
  }

  /** The entry of a file is cleared and its count lowered. */
  lemma RemovedCounted(nodes: seq<Inode>, pending: seq<nat>, d: int, k: int, c: int)
    requires LinksOk(nodes, pending) && 0 < d < |nodes| && Live(nodes[d]) && 0 <= k < |nodes[d].entries|
    requires 0 < c < |nodes| && Names(nodes[d].entries[k], c) && !nodes[c].kind.Dir?
    ensures LinksOk(Counted(Entered(nodes, d, k, EMPTY), c, nodes[c].nlink - 1), pending)
  {
    hide Total;
    var mid := Entered(nodes, d, k, EMPTY);
    forall i | 0 < i < |nodes|
      ensures Total(Counted(mid, c, nodes[c].nlink - 1), i) == Total(nodes, i) - if i == c then 1 else 0
    {
      EnteredTotal(nodes, d, k, EMPTY, i);
      CountedTotal(mid, c, nodes[c].nlink - 1, i);
    }
    TotalSome(nodes, d, c);
    RefsSome(nodes[d].entries, k, c);
  }

  // ---------------------------------------------------------------- making a directory

  function NewDir(c: int, d: int): (x: Inode) { Inode(Dir, 1, [Dirent(c, "."), Dirent(d, "..")]) }

  /** Directory d after it gets an entry for a subdirectory and a link from that one's "..". */
  function WithSub(x: Inode, k: int, c: int, name: string): (r: Inode)
    requires 0 <= k <= |x.entries|
  {
    Inode(x.kind, Increment(x.nlink), Put(x.entries, k, Dirent(c, name)))
  }

  function MadeDir(nodes: seq<Inode>, d: int, k: int, c: int, name: string): (r: seq<Inode>)
    requires 0 <= d < |nodes| && 0 <= c < |nodes| && 0 <= k <= |nodes[d].entries|
  {
    nodes[c := NewDir(c, d)][d := WithSub(nodes[d], k, c, name)]
  }

  lemma NewDirRefs(c: int, d: int, i: int)
    requires c != d
    ensures Weight(NewDir(c, d), i) == if i == d then 1 else 0
  {
    var es := NewDir(c, d).entries;
    assert es[..1] == [es[0]] && es[..1][..0] == [];
    assert Refs(es[..1], i) == 0;
  }

  lemma MadeDirTotal(nodes: seq<Inode>, d: int, k: int, c: int, name: string, i: int)
    requires 0 < d < |nodes| && 0 < c < |nodes| && c != d && nodes[c].kind.Free? && nodes[d].kind.Dir?
    requires nodes[d].nlink >= 0
    requires Slot(nodes[d].entries, k) && name != "." && i > 0 && nodes[d].nlink != MAXLINK
    ensures Total(MadeDir(nodes, d, k, c, name), i) ==
      Total(nodes, i) + (if i == d then 1 else 0) + (if i == c then 1 else 0) +
        if Live(nodes[d]) then 0 else Refs(nodes[d].entries, i)
  {
    hide Total, Refs;
    var x := WithSub(nodes[d], k, c, name);
    TotalSet(nodes, c, NewDir(c, d), i);
    TotalSet(nodes[c := NewDir(c, d)], d, x, i);
    NewDirRefs(c, d, i);
    RefsPut(nodes[d].entries, k, Dirent(c, name), i);
    assert Live(x);
  }

  lemma MadeDirExact(nodes: seq<Inode>, pending: seq<nat>, d: int, k: int, c: int, name: string)
    requires LinksOk(nodes, pending) && 0 < d < |nodes| && 0 < c < |nodes| && nodes[c].kind.Free? && Live(nodes[d])
    requires Slot(nodes[d].entries, k) && name != "." && nodes[d].nlink != MAXLINK
    ensures LinksOk(MadeDir(nodes, d, k, c, name), pending)
  {
    hide Total;
    forall i | 0 < i < |nodes|
      ensures Total(MadeDir(nodes, d, k, c, name), i) == Total(nodes, i) + (if i == d then 1 else 0) +
        (if i == c then 1 else 0)
    {
      MadeDirTotal(nodes, d, k, c, name, i);
    }
  }

  /** Inside a removed directory the parent of that directory ends up with one entry too many. */
  lemma MadeDirLost(nodes: seq<Inode>, pending: seq<nat>, d: int, k: int, c: int, name: string)
    requires LinksOk(nodes, pending) && 0 < d < |nodes| && 0 < c < |nodes| && nodes[c].kind.Free?
    requires nodes[d].kind.Dir? && nodes[d].nlink == 0 && Slot(nodes[d].entries, k) && name != "."
    requires d != ROOT && Shape(nodes[d].entries, d, |nodes|)
    ensures !LinksOk(MadeDir(nodes, d, k, c, name), pending)
  {
    hide Total;
    var p, after := nodes[d].entries[1].inum, MadeDir(nodes, d, k, c, name);
    MadeDirTotal(nodes, d, k, c, name, p);
    RefsSome(nodes[d].entries, 1, p);
    assert !CountOk(after[p].kind, after[p].nlink, Total(after, p), pending[p]);
  }

  /** A directory made inside d: exact if and only if d is still linked and its count does not overflow. */
  lemma MadeDirCounted(nodes: seq<Inode>, pending: seq<nat>, d: int, k: int, c: int, name: string)
    requires LinksOk(nodes, pending) && 0 < d < |nodes| && 0 < c < |nodes| && nodes[c].kind.Free? && nodes[d].kind.Dir?
    requires Slot(nodes[d].entries, k) && name != "." && Shape(nodes[d].entries, d, |nodes|)
    requires (d == ROOT ==> Live(nodes[d]))
    ensures LinksOk(MadeDir(nodes, d, k, c, name), pending) <==> Live(nodes[d]) && nodes[d].nlink != MAXLINK
  {
    hide Total, Shape, Put;
    var after := MadeDir(nodes, d, k, c, name);
    assert CountOk(nodes[d].kind, nodes[d].nlink, Total(nodes, d), pending[d]);
    if nodes[d].nlink == MAXLINK {
      assert !CountOk(after[d].kind, after[d].nlink, Total(after, d), pending[d]);
    } else if Live(nodes[d]) {
      MadeDirExact(nodes, pending, d, k, c, name);
    } else {
      MadeDirLost(nodes, pending, d, k, c, name);
    }
  }

  // ---------------------------------------------------------------- removing a directory

  function RemovedDir(nodes: seq<Inode>, d: int, k: int, c: int): (r: seq<Inode>)
    requires 0 <= d < |nodes| && 0 <= c < |nodes| && 0 <= k < |nodes[d].entries|
  {
    nodes[d := Inode(nodes[d].kind, nodes[d].nlink - 1,
      Put(nodes[d].entries, k, EMPTY))][c := nodes[c].(nlink := nodes[c].nlink - 1)]
  }

  /** Entry k of the linked directory d names the empty directory c. */
  predicate EmptyChild(nodes: seq<Inode>, d: int, k: int, c: int) {
    0 < d < |nodes| && 0 < c < |nodes| && Live(nodes[d]) && 2 <= k < |nodes[d].entries| &&
      nodes[d].entries[k].inum == c &&
    nodes[c].kind.Dir? && NoChildren(nodes[c].entries)
  }

  lemma ChildFacts(nodes: seq<Inode>, d: int, k: int, c: int)
    requires TreeOk(nodes) && EmptyChild(nodes, d, k, c)
    ensures c != ROOT && c != d && Parent(nodes[c]) == d && Names(nodes[d].entries[k], c)
    ensures forall i :: i > 0 ==> Refs(nodes[c].entries, i) == if i == d then 1 else 0
  {
    assert ChildAt(nodes, d, k);
    assert ShapeAt(nodes[c], c, |nodes|) && ShapeAt(nodes[d], d, |nodes|);
    forall i | i > 0 ensures Refs(nodes[c].entries, i) == if i == d then 1 else 0 {
      if i == d {
        RefsOnly(nodes[c].entries, 1, d);
      } else {
        RefsNone(nodes[c].entries, i);
      }
    }
  }

  /** No live directory has c, which is empty, as its parent. */
  lemma NotParent(nodes: seq<Inode>, e: int, c: int)
    requires TreeOk(nodes) && 0 < e < |nodes| && 0 < c < |nodes| && Live(nodes[e]) && c != ROOT
    requires NoChildren(nodes[c].entries)
    ensures Parent(nodes[e]) != c
  {
    assert HeldAt(nodes, e) && ShapeAt(nodes[e], e, |nodes|);
  }

  /** Entries elsewhere do not name it. */
  lemma NamedOnce(nodes: seq<Inode>, d: int, k: int, c: int, e: int)
    requires TreeOk(nodes) && EmptyChild(nodes, d, k, c) && 0 <= e < |nodes|
    ensures Weight(nodes[e], c) == if e == d then 1 else 0
  {
    ChildFacts(nodes, d, k, c);
    if e > 0 && Live(nodes[e]) {
      var es := nodes[e].entries;
      NotParent(nodes, e, c);
      assert ShapeAt(nodes[e], e, |nodes|);
      assert ChildAt(nodes, d, k);
      forall j | 0 <= j < |es| && (e != d || j != k) ensures !Names(es[j], c) {
        if j >= 2 {
          assert ChildAt(nodes, e, j);
        }
      }
      if e == d {
        RefsOnly(es, k, c);
      } else {
        RefsNone(es, c);
      }
    }
  }

  /** An empty directory has one link, and the directory above it has another one besides its "..". */
  lemma EmptyChildLinks(nodes: seq<Inode>, pending: seq<nat>, d: int, k: int, c: int)
    requires TreeOk(nodes) && LinksOk(nodes, pending) && PendingOk(nodes, pending) && EmptyChild(nodes, d, k, c)
    ensures nodes[c].nlink == 1 && nodes[d].nlink >= 2
  {
    hide Total, EmptyChild;
    forall e | 0 <= e < |nodes| ensures Weight(nodes[e], c) == if e == d then 1 else 0 {
      NamedOnce(nodes, d, k, c, e);
    }
    assert 0 < c < |nodes| && nodes[c].kind.Dir? && 0 < d < |nodes| by { Unpack(nodes, d, k, c); }
    TotalOnly(nodes, d, c);
    assert CountOk(nodes[c].kind, nodes[c].nlink, Total(nodes, c), pending[c]);
    ParentLinks(nodes, pending, d, k, c);
  }

  lemma Unpack(nodes: seq<Inode>, d: int, k: int, c: int)
    requires EmptyChild(nodes, d, k, c)
    ensures 0 < c < |nodes| && nodes[c].kind.Dir? && 0 < d < |nodes|
  {
  }

  lemma ParentLinks(nodes: seq<Inode>, pending: seq<nat>, d: int, k: int, c: int)
    requires TreeOk(nodes) && LinksOk(nodes, pending) && EmptyChild(nodes, d, k, c) && pending[d] == 0
    requires nodes[c].nlink == 1
    ensures nodes[d].nlink >= 2
  {
    hide Total;
    ChildFacts(nodes, d, k, c);
    var p := Parent(nodes[d]);
    assert HeldAt(nodes, d) && ShapeAt(nodes[d], d, |nodes|) && ShapeAt(nodes[p], p, |nodes|);
    NotParent(nodes, d, c);
    if d == ROOT {
      RefsSome(nodes[d].entries, 1, d);
      TotalTwo(nodes, d, c, d);
    } else {
      var j :| 2 <= j < |nodes[p].entries| && nodes[p].entries[j].inum == d;
      RefsSome(nodes[p].entries, j, d);
      TotalTwo(nodes, p, c, d);
    }
    assert CountOk(nodes[d].kind, nodes[d].nlink, Total(nodes, d), pending[d]);
  }

  lemma RemovedDirCounted(nodes: seq<Inode>, pending: seq<nat>, d: int, k: int, c: int)
    requires TreeOk(nodes) && LinksOk(nodes, pending) && EmptyChild(nodes, d, k, c) && nodes[c].nlink == 1
    requires nodes[d].nlink >= 2
    ensures LinksOk(RemovedDir(nodes, d, k, c), pending)
  {
    hide Total, Refs, TreeOk;
    ChildFacts(nodes, d, k, c);
    var x := Inode(nodes[d].kind, nodes[d].nlink - 1, Put(nodes[d].entries, k, EMPTY));
    forall i | 0 < i < |nodes|
      ensures Total(RemovedDir(nodes, d, k, c), i) == Total(nodes,
        i) - (if i == c then 1 else 0) - (if i == d then 1 else 0)
    {
      TotalSet(nodes, d, x, i);
      TotalSet(nodes[d := x], c, nodes[c].(nlink := 0), i);
      RefsPut(nodes[d].entries, k, EMPTY, i);
    }
    TotalSome(nodes, d, c);
    RefsSome(nodes[d].entries, k, c);
  }

  // ---------------------------------------------------------------- the tree is kept

  /** A file, a device or a free inode changes into another. */
  lemma FileKeepsTree(nodes: seq<Inode>, c: int, x: Inode)
    requires TreeOk(nodes) && 0 < c < |nodes| && !nodes[c].kind.Dir? && !x.kind.Dir? && ShapeAt(x, c, |nodes|)
    ensures TreeOk(nodes[c := x])
  {
    var after := nodes[c := x];
    forall d | 0 < d < |nodes| ensures HeldAt(after, d) {
      assert HeldAt(nodes, d);
    }
    forall d, k | 0 < d < |nodes| && 2 <= k < |after[d].entries| ensures ChildAt(after, d, k) {
      assert d != c;
      assert ChildAt(nodes, d, k);
    }
  }

  /** A removed directory is given back. */
  lemma FreeKeepsTree(nodes: seq<Inode>, c: int)
    requires TreeOk(nodes) && 0 < c < |nodes| && nodes[c].nlink == 0
    ensures TreeOk(nodes[c := NOTHING])
  {
    var after := nodes[c := NOTHING];
    forall d | 0 < d < |nodes| ensures HeldAt(after, d) {
      assert HeldAt(nodes, d);
    }
    forall d, k | 0 < d < |nodes| && 2 <= k < |after[d].entries| ensures ChildAt(after, d, k) {
      assert d != c;
      assert ChildAt(nodes, d, k);
    }
  }

  /** Writing a new name into a free slot. */
  lemma PutShape(es: seq<Dirent>, d: int, n: int, k: int, c: int, name: string)
    requires Shape(es, d, n) && d > 0 && Slot(es, k) && Fresh(es, name) && 0 < c < n
    ensures k >= 2 && Shape(Put(es, k, Dirent(c, name)), d, n) && name != "." && name != ".."
  {
  }

  lemma ClearShape(es: seq<Dirent>, d: int, n: int, k: int)
    requires Shape(es, d, n) && 2 <= k < |es|
    ensures Shape(Put(es, k, EMPTY), d, n)
  {
  }

  /** Children survive in a free slot's neighbours. */
  lemma PutKeepsChild(es: seq<Dirent>, k: int, e: Dirent, c: int)
    requires 2 <= k && Slot(es, k) && c > 0
    ensures HasChild(es, c) ==> HasChild(Put(es, k, e), c)
    ensures e.inum == c ==> HasChild(Put(es, k, e), c)
  {
    var r := Put(es, k, e);
    assert r[k] == e;
    if HasChild(es, c) {
      var j :| 2 <= j < |es| && es[j].inum == c;
      assert r[j].inum == c;
    }
  }

  lemma ClearKeepsChild(es: seq<Dirent>, k: int, c: int)
    requires 2 <= k < |es| && es[k].inum != c
    ensures HasChild(es, c) ==> HasChild(Put(es, k, EMPTY), c)
  {
    if HasChild(es, c) {
      var j :| 2 <= j < |es| && es[j].inum == c;
      assert Put(es, k, EMPTY)[j].inum == c;
    }
  }

  lemma EnterKeepsTree(nodes: seq<Inode>, d: int, k: int, c: int, name: string)
    requires TreeOk(nodes) && 0 < d < |nodes| && Live(nodes[d]) && Slot(nodes[d].entries, k)
    requires Fresh(nodes[d].entries, name)
    requires 0 < c < |nodes| && !nodes[c].kind.Dir?
    ensures TreeOk(Entered(nodes, d, k, Dirent(c, name)))
  {
    hide Shape, HasChild;
    var after, es := Entered(nodes, d, k, Dirent(c, name)), nodes[d].entries;
    assert ShapeAt(nodes[d], d, |nodes|);
    PutShape(es, d, |nodes|, k, c, name);
    ShapeParent(es, d, |nodes|);
    forall a | 0 < a < |nodes| ensures HeldAt(after, a) {
      assert HeldAt(nodes, a);
      PutKeepsChild(es, k, Dirent(c, name), a);
    }
    forall a, j | 0 < a < |nodes| && 2 <= j < |after[a].entries| ensures ChildAt(after, a, j) {
      if a != d || j != k {
        assert ChildAt(nodes, a, j);
      }
    }
  }

  lemma ShapeParent(es: seq<Dirent>, d: int, n: int)
    requires Shape(es, d, n)
    ensures |es| >= 2 && 0 < es[1].inum < n && (es[1].inum == d <==> d == ROOT)
  {
  }

  lemma ClearKeepsTree(nodes: seq<Inode>, d: int, k: int)
    requires TreeOk(nodes) && 0 < d < |nodes| && Live(nodes[d]) && 2 <= k < |nodes[d].entries|
    requires 0 < nodes[d].entries[k].inum < |nodes| && !nodes[nodes[d].entries[k].inum].kind.Dir?
    ensures TreeOk(Entered(nodes, d, k, EMPTY))
  {
    hide Shape, HasChild;
    var after, es := Entered(nodes, d, k, EMPTY), nodes[d].entries;
    assert ShapeAt(nodes[d], d, |nodes|);
    ClearShape(es, d, |nodes|, k);
    ShapeParent(es, d, |nodes|);
    forall a | 0 < a < |nodes| ensures HeldAt(after, a) {
      assert HeldAt(nodes, a);
      if nodes[a].kind.Dir? {
        ClearKeepsChild(es, k, a);
      }
    }
    forall a, j | 0 < a < |nodes| && 2 <= j < |after[a].entries| ensures ChildAt(after, a, j) {
      if a != d || j != k {
        assert ChildAt(nodes, a, j);
      }
    }
  }

  /** Nothing in a linked directory names an inode without links. */
  lemma {:induction false} Unnamed(nodes: seq<Inode>, c: int, d: int, k: int)
    requires TreeOk(nodes) && Total(nodes, c) == 0 && c > 0 && 0 < d < |nodes| && Live(nodes[d])
    requires 2 <= k < |nodes[d].entries|
    ensures nodes[d].entries[k].inum != c
  {
    hide Total;
    assert ShapeAt(nodes[d], d, |nodes|);
    TotalSome(nodes, d, c);
    if Names(nodes[d].entries[k], c) {
      RefsSome(nodes[d].entries, k, c);
    }
  }

  lemma {:induction false} MadeDirKeepsTree(nodes: seq<Inode>, d: int, k: int, c: int, name: string)
    requires TreeOk(nodes) && 0 < d < |nodes| && Live(nodes[d]) && Slot(nodes[d].entries, k)
    requires Fresh(nodes[d].entries, name)
    requires 0 < c < |nodes| && nodes[c].kind.Free? && Total(nodes, c) == 0 && nodes[d].nlink != MAXLINK
    ensures TreeOk(MadeDir(nodes, d, k, c, name))
  {
    hide Shape, HasChild, Total;
    var after, es := MadeDir(nodes, d, k, c, name), nodes[d].entries;
    assert ShapeAt(nodes[d], d, |nodes|);
    PutShape(es, d, |nodes|, k, c, name);
    NewDirShape(c, d, |nodes|);
    ShapeParent(es, d, |nodes|);
    forall a | 0 < a < |nodes| ensures HeldAt(after, a) {
      assert HeldAt(nodes, a);
      PutKeepsChild(es, k, Dirent(c, name), a);
    }
    forall a, j | 0 < a < |nodes| && 2 <= j < |after[a].entries| ensures ChildAt(after, a, j) {
      assert a != c;
      if a == d && j == k {
        ChildOfNew(nodes, d, k, c, name);
      } else if Live(nodes[a]) {
        Unnamed(nodes, c, a, j);
        assert ChildAt(nodes, a, j);
      }
    }
  }

  lemma NewDirShape(c: int, d: int, n: int)
    requires 0 < c < n && 0 < d < n && c != d && c != ROOT
    ensures Shape(NewDir(c, d).entries, c, n)
  {
  }

  lemma {:induction false} ChildOfNew(nodes: seq<Inode>, d: int, k: int, c: int, name: string)
    requires TreeOk(nodes) && 0 < d < |nodes| && Live(nodes[d]) && Slot(nodes[d].entries, k) && k >= 2
    requires 0 < c < |nodes| && nodes[c].kind.Free? && Total(nodes, c) == 0
    ensures ChildAt(MadeDir(nodes, d, k, c, name), d, k)
  {
    hide Total;
    forall j | 2 <= j < |nodes[d].entries| ensures nodes[d].entries[j].inum != c {
      Unnamed(nodes, c, d, j);
    }
  }

  lemma RemovedDirKeepsTree(nodes: seq<Inode>, d: int, k: int, c: int)
    requires TreeOk(nodes) && EmptyChild(nodes, d, k, c) && nodes[c].nlink == 1 && nodes[d].nlink >= 2
    ensures TreeOk(RemovedDir(nodes, d, k, c))
  {
    hide Shape, HasChild;
    var after, es := RemovedDir(nodes, d, k, c), nodes[d].entries;
    ChildFacts(nodes, d, k, c);
    assert ShapeAt(nodes[d], d, |nodes|);
    ClearShape(es, d, |nodes|, k);
    ShapeParent(es, d, |nodes|);
    forall a | 0 < a < |nodes| ensures HeldAt(after, a) {
      assert HeldAt(nodes, a);
      if Live(nodes[a]) && a != c {
        NotParent(nodes, a, c);
        ClearKeepsChild(es, k, a);
      }
    }
    forall a, j | 0 < a < |nodes| && 2 <= j < |after[a].entries| ensures ChildAt(after, a, j) {
      if a != d || j != k {
        assert ChildAt(nodes, a, j);
      }
    }
  }
}
