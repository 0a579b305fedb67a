/**
 Counting directory entries: what the link count of an inode should be, and how the count moves
 when an entry is written, an inode changes or a directory is removed.
 */
module LinkCounts {

  datatype Kind = Free | Dir | File | Device

  datatype Dirent = Dirent(inum: int, name: string)

  /** An inode with, for a directory, its content as entries. */
  datatype Inode = Inode(kind: Kind, nlink: int, entries: seq<Dirent>)

  /** A directory that is still linked. */
  predicate Live(x: Inode) { x.kind.Dir? && x.nlink > 0 }

  /** An entry other than "." that names inode i. */
  predicate Names(e: Dirent, i: int) { e.inum == i && e.name != "." }

  function Refs(es: seq<Dirent>, i: int): (n: nat) {
    if |es| == 0 then 0 else Refs(es[..|es| - 1], i) + if Names(es[|es| - 1], i) then 1 else 0
  }

  function Weight(x: Inode, i: int): (n: nat) { if Live(x) then Refs(x.entries, i) else 0 }

  /** The entries other than "." that name i in directories that are still linked. */
  function Total(nodes: seq<Inode>, i: int): (n: nat) {
    if |nodes| == 0 then 0 else Total(nodes[..|nodes| - 1], i) + Weight(nodes[|nodes| - 1], i)
  }

  /** Writing entry e at k, which may be the first position behind the end. */
  function Put(es: seq<Dirent>, k: int, e: Dirent): (r: seq<Dirent>)
    requires 0 <= k <= |es|
  {
    if k == |es| then es + [e] else es[k := e]
  }

  function One(e: Dirent, i: int): (n: nat) { if Names(e, i) then 1 else 0 }

  lemma {:induction false} RefsSet(es: seq<Dirent>, k: int, e: Dirent, i: int)
    requires 0 <= k < |es|
    ensures Refs(es[k := e], i) == Refs(es, i) - One(es[k], i) + One(e, i)
  {
    var m := |es| - 1;
    if k == m {
      assert es[k := e][..m] == es[..m];
    } else {
      assert es[k := e][..m] == es[..m][k := e];
      RefsSet(es[..m], k, e, i);
    }
  }

  lemma RefsPut(es: seq<Dirent>, k: int, e: Dirent, i: int)
    requires 0 <= k <= |es|
    ensures Refs(Put(es, k, e), i) == Refs(es, i) - (if k < |es| then One(es[k], i) else 0) + One(e, i)
  {
    if k < |es| {
      RefsSet(es, k, e, i);
    } else {
      assert (es + [e])[..|es|] == es;
    }
  }

  lemma {:induction false} RefsNone(es: seq<Dirent>, i: int)
    requires forall k :: 0 <= k < |es| ==> !Names(es[k], i)
    ensures Refs(es, i) == 0
  {
    if |es| > 0 {
      RefsNone(es[..|es| - 1], i);
    }
  }

  lemma RefsSome(es: seq<Dirent>, k: int, i: int)
    requires 0 <= k < |es| && Names(es[k], i)
    ensures Refs(es, i) >= 1
  {
    RefsSet(es, k, Dirent(i, "."), i);
  }

  lemma RefsOnly(es: seq<Dirent>, k: int, i: int)
    requires 0 <= k < |es| && Names(es[k], i) && forall j :: 0 <= j < |es| && j != k ==> !Names(es[j], i)
    ensures Refs(es, i) == 1
  {
    RefsSet(es, k, Dirent(i, "."), i);
    RefsNone(es[k := Dirent(i, ".")], i);
  }

  lemma {:induction false} TotalSet(nodes: seq<Inode>, d: int, x: Inode, i: int)
    requires 0 <= d < |nodes|
    ensures Total(nodes[d := x], i) == Total(nodes, i) - Weight(nodes[d], i) + Weight(x, i)
  {
    hide Weight;
    var m := |nodes| - 1;
    if d == m {
      assert nodes[d := x][..m] == nodes[..m];
    } else {
      assert nodes[d := x][..m] == nodes[..m][d := x];
      TotalSet(nodes[..m], d, x, i);
    }
  }

  lemma {:induction false} TotalNone(nodes: seq<Inode>, i: int)
    requires forall d :: 0 <= d < |nodes| ==> Weight(nodes[d], i) == 0
    ensures Total(nodes, i) == 0
  {
    if |nodes| > 0 {
      TotalNone(nodes[..|nodes| - 1], i);
    }
  }

  const NOTHING := Inode(Free, 0, [])

  lemma TotalOnly(nodes: seq<Inode>, d: int, i: int)
    requires 0 <= d < |nodes| && forall e :: 0 <= e < |nodes| && e != d ==> Weight(nodes[e], i) == 0
    ensures Total(nodes, i) == Weight(nodes[d], i)
  {
    TotalSet(nodes, d, NOTHING, i);
    TotalNone(nodes[d := NOTHING], i);
  }

  lemma TotalSome(nodes: seq<Inode>, d: int, i: int)
    requires 0 <= d < |nodes|
    ensures Total(nodes, i) >= Weight(nodes[d], i)
  {
    TotalSet(nodes, d, NOTHING, i);
  }

  lemma TotalTwo(nodes: seq<Inode>, a: int, b: int, i: int)
    requires 0 <= a < |nodes| && 0 <= b < |nodes| && a != b
    ensures Total(nodes, i) >= Weight(nodes[a], i) + Weight(nodes[b], i)
  {
    TotalSet(nodes, a, NOTHING, i);
    TotalSome(nodes[a := NOTHING], b, i);
  }
}
