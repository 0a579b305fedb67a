/**
 sys_link, sys_unlink, create and the directory operations below them, kernel/sysfile.c and
 kernel/fs.c.

 The inode table is the logical content of the disk.  Each method is a stretch of code that runs
 with the inodes it touches locked, so calls of different processes interleave between methods;
 sys_link raises the count in one stretch and writes the entry in a later one.  Whether the disk has
 room for a directory to grow is a parameter.
 */
module Links {
  import opened Basics
  import opened LinkCounts
  import opened DirTree

  const DIRSIZ := 14

  // ---------------------------------------------------------------- names

  /** A name as a directory entry holds it. */
  function Trunc(s: string): (t: string) { if |s| <= DIRSIZ then s else s[..DIRSIZ] }

  function CharAt(s: string, i: int): (c: char) { if 0 <= i < |s| then s[i] else '\0' }

  /** strncmp on DIRSIZ characters: zero exactly for names that agree when truncated. */
  method Namecmp(s: string, t: string) returns (r: int)
    requires NulFree(s) && NulFree(t)
    ensures r == 0 <==> Trunc(s) == Trunc(t)
  {
    var i := 0;
    while i < DIRSIZ && CharAt(s, i) != '\0' && CharAt(s, i) == CharAt(t, i)
      invariant 0 <= i <= DIRSIZ && i <= |s| && i <= |t| && s[..i] == t[..i]
    {
      i := i + 1;
    }
    if i == DIRSIZ {
      return 0;
    }
    r := CharAt(s, i) as int - CharAt(t, i) as int;
    if r == 0 {
      assert i == |s| && i == |t|;
    } else if i < |s| && i < |t| {
      assert Trunc(s)[i] == s[i] && Trunc(t)[i] == t[i];
    }
  }

  predicate NamesOk(es: seq<Dirent>) { forall k :: 0 <= k < |es| ==> NulFree(es[k].name) && |es[k].name| <= DIRSIZ }

  predicate AllNamesOk(nodes: seq<Inode>) { forall d :: 0 <= d < |nodes| ==> NamesOk(nodes[d].entries) }

  /** The entry that dirlookup finds: the first with the name, or the end. */
  predicate FoundAt(es: seq<Dirent>, name: string, k: int) {
    0 <= k < |es| && es[k].inum != 0 && es[k].name == name && Fresh(es[..k], name)
  }

  /** Where dirlink writes: the first entry not in use, or the end. */
  function SlotOf(es: seq<Dirent>): (k: int)
    ensures Slot(es, k) && forall j :: 0 <= j < k ==> es[j].inum != 0
  {
    if es == [] then 0
    else
      var k := SlotOf(es[..|es| - 1]);
      if k < |es| - 1 || es[k].inum == 0 then k else |es|
  }

  /** dirlink succeeds: the name is new, and an entry is free or the directory can grow. */
  ghost predicate CanEnter(es: seq<Dirent>, name: string, room: bool) {
    Fresh(es, name) && (SlotOf(es) < |es| || room)
  }

  ghost predicate HasFree(nodes: seq<Inode>) { exists i :: 0 < i < |nodes| && nodes[i].kind.Free? }

  ghost predicate FirstFree(nodes: seq<Inode>, ip: int) {
    0 < ip < |nodes| && nodes[ip].kind.Free? && forall i :: 0 < i < ip ==> !nodes[i].kind.Free?
  }

  class Directories {
    var inodes: seq<Inode>
    /** For each inode, the link calls that have raised its count and not yet written their entry. */
    var pending: seq<nat>

    ghost predicate Valid()
      reads this
    {
      TreeOk(inodes) && LinksOk(inodes, pending) && PendingOk(inodes, pending) && AllNamesOk(inodes)
    }

    // -------------------------------------------------------------- mkfs

    /** An image with an empty root directory. */
    constructor (n: int)
      requires n > ROOT
      ensures Valid() && |inodes| == n && (forall i :: 0 < i < n ==> pending[i] == 0)
      ensures inodes[ROOT] == Inode(Dir, 1, [Dirent(ROOT, "."), Dirent(ROOT, "..")])
    {
      var root := Inode(Dir, 1, [Dirent(ROOT, "."), Dirent(ROOT, "..")]);
      inodes := seq(n, _ => NOTHING)[ROOT := root];
      pending := seq(n, _ => 0);
      new;
      Initial(inodes, pending);
    }

    /** A file of the image: mkfs appends its entry to the root directory without looking for the name. */
    method AddFile(name: string) returns (ip: int)
      requires Valid() && NulFree(name) && Fresh(inodes[ROOT].entries, Trunc(name))
      modifies this`inodes
      ensures Valid()
      ensures ip != 0 ==> FirstFree(old(inodes), ip) && 0 < ROOT < |old(inodes)| && ip != ROOT
      ensures ip != 0 ==>
        inodes == Entered(old(inodes)[ip := Inode(File, 1, [])], ROOT, |old(inodes)[ROOT].entries|,
                          Dirent(ip, Trunc(name)))
      ensures ip == 0 ==> inodes == old(inodes) && !HasFree(inodes)
    {
      hide TreeOk, LinksOk, Fresh, PendingOk, AllNamesOk;
      ghost var nodes := inodes;
      assert 0 < ROOT < |nodes| && Live(nodes[ROOT]) by { RootLive(nodes); }
      ip := Ialloc(File);
      if ip != 0 {
        FileCreated(nodes, pending, ROOT, |nodes[ROOT].entries|, ip, name, File);
        inodes := inodes[ip := inodes[ip].(nlink := 1)];
        inodes := inodes[ROOT := inodes[ROOT].(entries := inodes[ROOT].entries + [Dirent(ip, Trunc(name))])];
        assert inodes == Entered(nodes[ip := Inode(File, 1, [])], ROOT, |nodes[ROOT].entries|, Dirent(ip, Trunc(name)));
      }
    }

    // -------------------------------------------------------------- directories

    method Dirlookup(d: int, name: string) returns (inum: int, off: int)
      requires 0 < d < |inodes| && NamesOk(inodes[d].entries) && NulFree(name)
      requires forall k :: 0 <= k < |inodes[d].entries| ==> inodes[d].entries[k].inum >= 0
      ensures inum == 0 <==> Fresh(inodes[d].entries, Trunc(name))
      ensures inum != 0 ==> FoundAt(inodes[d].entries, Trunc(name), off) && inodes[d].entries[off].inum == inum
    {
      var es := inodes[d].entries;
      off := 0;
      while off < |es|
        invariant 0 <= off <= |es| && Fresh(es[..off], Trunc(name))
      {
        if es[off].inum != 0 {
          var r := Namecmp(name, es[off].name);
          assert Trunc(es[off].name) == es[off].name;
          if r == 0 {
            return es[off].inum, off;
          }
        }
        off := off + 1;
      }
      assert es[..off] == es;
      inum := 0;
    }

    /** `room` says whether the directory can grow. */
    method Dirlink(d: int, name: string, inum: int, room: bool) returns (ok: bool, ghost k: int)
      requires 0 < d < |inodes| && NamesOk(inodes[d].entries) && NulFree(name) && inum > 0
      requires forall k :: 0 <= k < |inodes[d].entries| ==> inodes[d].entries[k].inum >= 0
      modifies this`inodes
      ensures k == SlotOf(old(inodes)[d].entries)
      ensures ok <==> CanEnter(old(inodes)[d].entries, Trunc(name), room)
      ensures inodes == if ok then Entered(old(inodes), d, k, Dirent(inum, Trunc(name))) else old(inodes)
    {
      var es := inodes[d].entries;
      k := SlotOf(es);
      ok := false;
      var found, _ := Dirlookup(d, name);
      if found != 0 {
        return;
      }
      var off := 0;
      while off < |es| && es[off].inum != 0
        invariant 0 <= off <= |es| && forall j :: 0 <= j < off ==> es[j].inum != 0
      {
        off := off + 1;
      }
      assert off == k;
      if off == |es| && !room {
        return;
      }
      var entry := Dirent(inum, Trunc(name));
      inodes := inodes[d := inodes[d].(entries := if off == |es| then es + [entry] else es[off := entry])];
      ok := true;
    }

    method IsDirEmpty(d: int) returns (empty: bool)
      requires 0 < d < |inodes|
      ensures empty == NoChildren(inodes[d].entries)
    {
      var es, off := inodes[d].entries, 2;
      while off < |es|
        invariant 2 <= off && forall k :: 2 <= k < off && k < |es| ==> es[k].inum == 0
      {
        if es[off].inum != 0 {
          return false;
        }
        off := off + 1;
      }
      empty := true;
    }

    // -------------------------------------------------------------- link

    /** sys_link up to the first iunlock: exact if and only if the count does not overflow. */
    method BeginLink(ip: int) returns (ok: bool)
      requires Valid() && 0 < ip < |inodes| && !inodes[ip].kind.Free?
      modifies this
      ensures ok <==> !old(inodes)[ip].kind.Dir?
      ensures !ok ==> inodes == old(inodes) && pending == old(pending)
      ensures ok ==> inodes == Counted(old(inodes), ip, Increment(old(inodes)[ip].nlink))
      ensures ok ==> pending == old(pending)[ip := old(pending)[ip] + 1]
      ensures LinksOk(inodes, pending) <==> !ok || old(inodes)[ip].nlink != MAXLINK
      ensures LinksOk(inodes, pending) ==> Valid()
    {
      hide TreeOk, LinksOk;
      if inodes[ip].kind.Dir? {
        return false;
      }
      RaisedCounted(inodes, pending, ip);
      FileRaised(inodes, ip);
      inodes := inodes[ip := inodes[ip].(nlink := Increment(inodes[ip].nlink))];
      pending := pending[ip := pending[ip] + 1];
      ok := true;
    }

    /**
     sys_link from nameiparent on, which gives dp = 0 when it fails: the entry is written or the
     count is lowered again.  Exact if and only if no entry went into a removed directory.
     */
    method EndLink(ip: int, dp: int, name: string, room: bool) returns (ok: bool, ghost k: int)
      requires Valid() && 0 < ip < |inodes| && pending[ip] > 0 && 0 <= dp < |inodes|
      requires (dp > 0 ==> inodes[dp].kind.Dir?) && NulFree(name)
      modifies this
      ensures pending == old(pending)[ip := old(pending)[ip] - 1]
      ensures ok <==> dp > 0 && CanEnter(old(inodes)[dp].entries, Trunc(name), room)
      ensures inodes == LinkEnded(old(inodes), ip, dp, Trunc(name), room)
      ensures LinksOk(inodes, pending) <==> !ok || Live(old(inodes)[dp])
      ensures LinksOk(inodes, pending) ==> Valid()
    {
      hide TreeOk, LinksOk, Fresh, Slot;
      ok, k := false, 0;
      ghost var nodes := inodes;
      assert !nodes[ip].kind.Dir?;
      if dp > 0 {
        DirectoryFacts(nodes, dp);
        ok, k := Dirlink(dp, name, ip, room);
      }
      if ok {
        LinkWritten(nodes, pending, dp, k, ip, name);
      } else {
        FileLowered(nodes, pending, ip);
        inodes := inodes[ip := inodes[ip].(nlink := inodes[ip].nlink - 1)];
      }
      pending := pending[ip := pending[ip] - 1];
    }

    /** sys_link with no other call in between: one more entry and one more link, or nothing at all. */
    method Link(ip: int, dp: int, name: string, room: bool) returns (ok: bool)
      requires Valid() && 0 < ip < |inodes| && !inodes[ip].kind.Free? && inodes[ip].nlink < MAXLINK
      requires 0 <= dp < |inodes| && (dp > 0 ==> Live(inodes[dp])) && NulFree(name)
      modifies this
      ensures Valid() && pending == old(pending)
      ensures ok <==> !old(inodes)[ip].kind.Dir? && dp > 0 && CanEnter(old(inodes)[dp].entries, Trunc(name), room)
      ensures !ok ==> inodes == old(inodes)
      ensures ok ==> inodes[ip].nlink == old(inodes)[ip].nlink + 1 && ip != dp
      ensures ok ==> var nodes := Counted(old(inodes), ip, old(inodes)[ip].nlink + 1);
        inodes == Entered(nodes, dp, SlotOf(nodes[dp].entries), Dirent(ip, Trunc(name)))
    {
      hide TreeOk, LinksOk, Fresh;
      ok := BeginLink(ip);
      if ok {
        ghost var k;
        ok, k := EndLink(ip, dp, name, room);
      }
    }

    // -------------------------------------------------------------- unlink

    /** sys_unlink: the panic on a link count below one is unreachable. */
    method Unlink(dp: int, name: string) returns (ok: bool, ghost k: int)
      requires Valid() && 0 < dp < |inodes| && inodes[dp].kind.Dir? && NulFree(name)
      modifies this`inodes
      ensures Valid()
      ensures !ok ==> inodes == old(inodes)
      ensures ok <==> CanUnlink(old(inodes), dp, Trunc(name))
      ensures ok ==> FoundAt(old(inodes)[dp].entries, Trunc(name), k) && UnlinkedAt(old(inodes), inodes, dp, k)
    {
      hide TreeOk, LinksOk, Fresh, PendingOk;
      ok, k := false, 0;
      var dot := Namecmp(name, ".");
      var dots := Namecmp(name, "..");
      if dot == 0 || dots == 0 {
        return;
      }
      DirectoryFacts(inodes, dp);
      var c, off := Dirlookup(dp, name);
      if c == 0 {
        NotFound(inodes[dp].entries, Trunc(name));
        return;
      }
      FoundChild(inodes, pending, dp, off, Trunc(name));
      OnlyFound(inodes[dp].entries, Trunc(name), off);
      assert inodes[c].nlink >= 1;
      if inodes[c].kind.Dir? {
        var empty := IsDirEmpty(c);
        if !empty {
          return;
        }
      }
      ok, k := true, off;
      ghost var nodes := inodes;
      assert Put(inodes[dp].entries, off, EMPTY) == inodes[dp].entries[off := EMPTY];
      inodes := inodes[dp := inodes[dp].(entries := inodes[dp].entries[off := EMPTY])];
      if inodes[c].kind.Dir? {
        inodes := inodes[dp := inodes[dp].(nlink := inodes[dp].nlink - 1)];
      }
      inodes := inodes[c := inodes[c].(nlink := inodes[c].nlink - 1)];
      if nodes[c].kind.Dir? {
        DirUnlinked(nodes, pending, dp, off, c);
        assert inodes == RemovedDir(nodes, dp, off, c);
      } else {
        FileUnlinked(nodes, pending, dp, off, c);
        assert inodes == Counted(Entered(nodes, dp, off, EMPTY), c, nodes[c].nlink - 1);
      }
    }

    // -------------------------------------------------------------- create

    /** ialloc: the first free inode, or 0. */
    method Ialloc(kind: Kind) returns (ip: int)
      requires |inodes| > 0 && !kind.Free?
      modifies this`inodes
      ensures ip == 0 ==> inodes == old(inodes) && !HasFree(inodes)
      ensures ip != 0 ==> FirstFree(old(inodes), ip) && inodes == old(inodes)[ip := Inode(kind, 0, [])]
    {
      ip := 1;
      while ip < |inodes|
        invariant 1 <= ip && inodes == old(inodes) && forall i :: 0 < i < ip && i < |inodes| ==> !inodes[i].kind.Free?
      {
        if inodes[ip].kind.Free? {
          inodes := inodes[ip := Inode(kind, 0, [])];
          return;
        }
        ip := ip + 1;
      }
      ip := 0;
    }

    /** The entries "." and ".." of a new directory, each of which makes it grow. */
    method Populate(ip: int, dp: int, room: nat) returns (ok: bool)
      requires 0 < ip < |inodes| && dp > 0 && inodes[ip] == Inode(Dir, 1, [])
      modifies this`inodes
      ensures |inodes| == |old(inodes)| && forall i :: 0 <= i < |inodes| && i != ip ==> inodes[i] == old(inodes)[i]
      ensures ok <==> room >= 2
      ensures ok ==> inodes[ip] == NewDir(ip, dp)
    {
      hide Fresh, SlotOf;
      ghost var k;
      DotEntries(ip);
      ok, k := Dirlink(ip, ".", ip, room >= 1);
      if ok {
        assert inodes[ip].entries == [Dirent(ip, ".")];
        ok, k := Dirlink(ip, "..", dp, room >= 2);
      }
    }

    /**
     create, where the disk has room for `room` more entries in growing directories.  A failure leaves
     everything as it was.  Exact if and only if nothing was made in a removed directory and the count
     of the directory does not overflow.
     */
    method Create(dp: int, name: string, kind: Kind, room: nat) returns (ip: int, made: bool, ghost k: int)
      requires Valid() && 0 < dp < |inodes| && inodes[dp].kind.Dir? && NulFree(name) && !kind.Free?
      modifies this`inodes
      ensures !made ==> inodes == old(inodes)
      ensures !made && ip != 0 ==>
        kind.File? && exists j :: FoundAt(inodes[dp].entries, Trunc(name), j) && inodes[dp].entries[j].inum == ip
      ensures !made && ip != 0 ==> 0 < ip < |inodes| && (inodes[ip].kind.File? || inodes[ip].kind.Device?)
      ensures !made && ip == 0 ==> !CanOpen(inodes, dp, Trunc(name), kind)
      ensures made <==> CanMake(old(inodes), dp, Trunc(name), kind, room)
      ensures made ==> k == SlotOf(old(inodes)[dp].entries) && FirstFree(old(inodes), ip)
      ensures made ==> inodes == Made(old(inodes), dp, k, ip, Trunc(name), kind)
      ensures LinksOk(inodes, pending) <==>
        !made || (Live(old(inodes)[dp]) && (kind.Dir? ==> old(inodes)[dp].nlink != MAXLINK))
      ensures LinksOk(inodes, pending) ==> Valid()
    {
      hide TreeOk, LinksOk, Fresh, PendingOk;
      made, k := false, 0;
      ghost var nodes := inodes;
      DirectoryFacts(nodes, dp);
      var off;
      ip, off := Dirlookup(dp, name);
      if ip != 0 {
        FoundInRange(nodes, dp, off);
        OnlyFound(nodes[dp].entries, Trunc(name), off);
        if !(kind.File? && (inodes[ip].kind.File? || inodes[ip].kind.Device?)) {
          ip := 0;
        }
        return;
      }
      NotFound(nodes[dp].entries, Trunc(name));
      ip := Ialloc(kind);
      if ip == 0 {
        return;
      }
      inodes := inodes[ip := inodes[ip].(nlink := 1)];
      FreeIsNothing(nodes, ip);
      var ok := true;
      if kind.Dir? {
        ok := Populate(ip, dp, room);
      }
      if ok {
        assert inodes == nodes[ip := if kind.Dir? then NewDir(ip, dp) else Inode(kind, 1, [])];
        ok, k := Dirlink(dp, name, ip, room > (if kind.Dir? then 2 else 0));
      }
      if !ok {
        inodes := inodes[ip := NOTHING];
        assert inodes == nodes;
        ip := 0;
        return;
      }
      made := true;
      if kind.Dir? {
        inodes := inodes[dp := inodes[dp].(nlink := Increment(inodes[dp].nlink))];
        assert inodes == MadeDir(nodes, dp, k, ip, Trunc(name));
      }
      Creation(nodes, pending, dp, k, ip, name, kind);
    }

    /** iput: with the last reference to an inode without links, the inode is given back. */
    method Iput(ip: int, last: bool)
      requires Valid() && 0 < ip < |inodes|
      modifies this`inodes
      ensures Valid()
      ensures inodes == if last && old(inodes)[ip].nlink == 0 then old(inodes)[ip := NOTHING] else old(inodes)
    {
      if last && inodes[ip].nlink == 0 {
        FreedCounted(inodes, pending, ip);
        FreeKeepsTree(inodes, ip);
        inodes := inodes[ip := NOTHING];
      }
    }

    // -------------------------------------------------------------- every run

    /**
     Any calls in any order, interleaved inside sys_link: a call is made where the source can make
     it, except that create and link never target a removed directory and no count overflows.
     */
    method Run(calls: seq<Call>) returns (ghost tables: seq<Table>)
      requires Valid()
      modifies this
      ensures Valid() && |tables| == |calls| + 1
      ensures tables[0] == Table(old(inodes), old(pending)) && tables[|calls|] == Table(inodes, pending)
      ensures forall i :: 0 <= i < |calls| ==> Does(calls[i], tables[i], tables[i + 1])
    {
      hide Does;
      tables := [Table(inodes, pending)];
      for i := 0 to |calls|
        invariant Valid() && |tables| == i + 1
        invariant tables[0] == Table(old(inodes), old(pending)) && tables[i] == Table(inodes, pending)
        invariant forall j :: 0 <= j < i ==> Does(calls[j], tables[j], tables[j + 1])
      {
        Step(calls[i]);
        tables := tables + [Table(inodes, pending)];
      }
    }

    method Step(call: Call)
      requires Valid()
      modifies this
      ensures Valid() && Does(call, Table(old(inodes), old(pending)), Table(inodes, pending))
    {
      hide TreeOk, LinksOk, PendingOk, AllNamesOk, Fresh;
      var ok: bool;
      ghost var k: int;
      if Callable(call, inodes, pending) {
        match call
        case CallBegin(ip) => ok := BeginLink(ip);
        case CallEnd(ip, dp, name, room) => ok, k := EndLink(ip, dp, name, room);
        case CallUnlink(dp, name) => ok, k := Unlink(dp, name);
        case CallCreate(dp, name, kind, room) =>
          var ip;
          ip, ok, k := Create(dp, name, kind, room);
        case CallPut(ip, last) => Iput(ip, last);
      }
    }
  }

  datatype Call =
    | CallBegin(ip: int)
    | CallEnd(ip: int, dp: int, name: string, room: bool)
    | CallUnlink(dp: int, name: string)
    | CallCreate(dp: int, name: string, kind: Kind, rooms: nat)
    | CallPut(ip: int, last: bool)

  datatype Table = Table(inodes: seq<Inode>, pending: seq<nat>)

  predicate Callable(call: Call, nodes: seq<Inode>, pending: seq<nat>) {
    |pending| == |nodes| &&
    match call
    case CallBegin(ip) => 0 < ip < |nodes| && !nodes[ip].kind.Free? && nodes[ip].nlink < MAXLINK
    case CallEnd(ip, dp, name, room) =>
      0 < ip < |nodes| && pending[ip] > 0 && 0 <= dp < |nodes| && (dp == 0 || Live(nodes[dp])) && NulFree(name)
    case CallUnlink(dp, name) => 0 < dp < |nodes| && nodes[dp].kind.Dir? && NulFree(name)
    case CallCreate(dp, name, kind, room) =>
      0 < dp < |nodes| && Live(nodes[dp]) && nodes[dp].nlink < MAXLINK && NulFree(name) && !kind.Free?
    case CallPut(ip, last) => 0 < ip < |nodes|
  }

  /** What a call does to the table. */
  ghost predicate Does(call: Call, a: Table, b: Table) {
    if !Callable(call, a.inodes, a.pending) then b == a
    else
      match call
      case CallBegin(ip) =>
        var nlink := a.inodes[ip].nlink;
        b == if a.inodes[ip].kind.Dir? then a
             else Table(Counted(a.inodes, ip, nlink + 1), a.pending[ip := a.pending[ip] + 1])
      case CallEnd(ip, dp, name, room) =>
        b == Table(LinkEnded(a.inodes, ip, dp, Trunc(name), room), a.pending[ip := a.pending[ip] - 1])
      case CallUnlink(dp, name) => b.pending == a.pending && Unlinked(a.inodes, b.inodes, dp, Trunc(name))
      case CallCreate(dp, name, kind, room) =>
        b.pending == a.pending && Created(a.inodes, b.inodes, dp, Trunc(name), kind, room)
      case CallPut(ip, last) =>
        b == if last && a.inodes[ip].nlink == 0 then a.(inodes := a.inodes[ip := NOTHING]) else a
  }

  /** unlink takes the entry away: there is one, and it is not that of a directory with children. */
  ghost predicate CanUnlink(nodes: seq<Inode>, dp: int, name: string)
    requires 0 < dp < |nodes|
  {
    name != "." && name != ".." &&
    exists k :: FoundAt(nodes[dp].entries, name, k) && !HoldsChildren(nodes, nodes[dp].entries[k].inum)
  }

  ghost predicate Unlinked(nodes: seq<Inode>, after: seq<Inode>, dp: int, name: string)
    requires 0 < dp < |nodes|
  {
    if CanUnlink(nodes, dp, name) then
      exists k :: FoundAt(nodes[dp].entries, name, k) && UnlinkedAt(nodes, after, dp, k)
    else after == nodes
  }

  /** The entry is free, and its inode has one link less, as has the parent of a directory. */
  ghost predicate UnlinkedAt(nodes: seq<Inode>, after: seq<Inode>, dp: int, k: int)
    requires 0 < dp < |nodes| && 0 <= k < |nodes[dp].entries|
  {
    var c := nodes[dp].entries[k].inum;
    0 < c < |nodes| && c != dp &&
    after == if nodes[c].kind.Dir? then RemovedDir(nodes, dp, k, c)
             else Counted(Entered(nodes, dp, k, EMPTY), c, nodes[c].nlink - 1)
  }

  ghost predicate Created(nodes: seq<Inode>, after: seq<Inode>, dp: int, name: string, kind: Kind, room: nat)
    requires 0 < dp < |nodes|
  {
    if CanMake(nodes, dp, name, kind, room) then
      var k := SlotOf(nodes[dp].entries);
      exists ip :: FirstFree(nodes, ip) && ip != dp && after == Made(nodes, dp, k, ip, name, kind)
    else after == nodes
  }

  lemma DotEntries(ip: int)
    requires ip > 0
    ensures Fresh([], ".") && SlotOf([]) == 0
    ensures Fresh([Dirent(ip, ".")], "..") && SlotOf([Dirent(ip, ".")]) == 1
  {
    assert |"."| != |".."|;
    assert [Dirent(ip, ".")][..0] == [];
  }

  lemma OnlyFound(es: seq<Dirent>, name: string, k: int)
    requires FoundAt(es, name, k)
    ensures forall j :: FoundAt(es, name, j) ==> j == k
  {
    forall j | FoundAt(es, name, j)
      ensures j == k
    {
      FoundOnce(es, name, j, k);
    }
  }

  lemma BeforeFound(es: seq<Dirent>, name: string, k: int, j: int)
    requires FoundAt(es, name, k) && 0 <= j < k && es[j].inum != 0
    ensures es[j].name != name
  {
    assert es[..k][j] == es[j];
  }

  lemma NotFound(es: seq<Dirent>, name: string)
    requires Fresh(es, name)
    ensures forall k :: !FoundAt(es, name, k)
  {
  }

  lemma FoundOnce(es: seq<Dirent>, name: string, j: int, k: int)
    requires FoundAt(es, name, j) && FoundAt(es, name, k)
    ensures j == k
  {
    if j < k {
      BeforeFound(es, name, k, j);
    } else if k < j {
      BeforeFound(es, name, j, k);
    }
  }

  /** What EndLink makes of the table. */
  ghost function LinkEnded(nodes: seq<Inode>, ip: int, dp: int, name: string, room: bool): (r: seq<Inode>)
    requires 0 < ip < |nodes| && 0 <= dp < |nodes|
  {
    if dp > 0 && CanEnter(nodes[dp].entries, name, room) then
      Entered(nodes, dp, SlotOf(nodes[dp].entries), Dirent(ip, name))
    else Counted(nodes, ip, nodes[ip].nlink - 1)
  }

  predicate IsFile(nodes: seq<Inode>, c: int) { 0 < c < |nodes| && (nodes[c].kind.File? || nodes[c].kind.Device?) }

  /** create opens what is there: a file or device under the name, when a file is asked for. */
  ghost predicate CanOpen(nodes: seq<Inode>, dp: int, name: string, kind: Kind)
    requires 0 < dp < |nodes|
  {
    kind.File? &&
    exists j :: FoundAt(nodes[dp].entries, name, j) && IsFile(nodes, nodes[dp].entries[j].inum)
  }

  /** create makes a new inode: the name is new, an inode is free, and every entry finds room. */
  ghost predicate CanMake(nodes: seq<Inode>, dp: int, name: string, kind: Kind, room: nat)
    requires 0 < dp < |nodes|
  {
    && HasFree(nodes) && (kind.Dir? ==> room >= 2)
    && CanEnter(nodes[dp].entries, name, room > (if kind.Dir? then 2 else 0))
  }

  /** The table after create has made inode c under a name in d. */
  function Made(nodes: seq<Inode>, d: int, k: int, c: int, name: string, kind: Kind): (r: seq<Inode>)
    requires 0 < d < |nodes| && 0 < c < |nodes| && c != d && 0 <= k <= |nodes[d].entries|
  {
    if kind.Dir? then MadeDir(nodes, d, k, c, name) else Entered(nodes[c := Inode(kind, 1, [])], d, k, Dirent(c, name))
  }

  lemma FoundInRange(nodes: seq<Inode>, d: int, k: int)
    requires TreeOk(nodes) && 0 < d < |nodes| && nodes[d].kind.Dir? && 0 <= k < |nodes[d].entries|
    requires nodes[d].entries[k].inum != 0
    ensures 0 < nodes[d].entries[k].inum < |nodes|
  {
    assert ShapeAt(nodes[d], d, |nodes|);
  }

  lemma FreeIsNothing(nodes: seq<Inode>, c: int)
    requires TreeOk(nodes) && 0 < c < |nodes| && nodes[c].kind.Free?
    ensures nodes[c] == NOTHING
  {
    assert ShapeAt(nodes[c], c, |nodes|);
  }

  /** A file created inside d is a link in flight that is written at once. */
  lemma FileCreated(nodes: seq<Inode>, pending: seq<nat>, d: int, k: int, c: int, name: string, kind: Kind)
    requires TreeOk(nodes) && LinksOk(nodes, pending) && PendingOk(nodes, pending) && AllNamesOk(nodes) && NulFree(name)
    requires 0 < d < |nodes| && nodes[d].kind.Dir? && 0 < c < |nodes| && nodes[c].kind.Free? && !kind.Free?
    requires !kind.Dir?
    requires Slot(nodes[d].entries, k) && Fresh(nodes[d].entries, Trunc(name))
    ensures 0 <= k <= |nodes[d].entries|
    ensures var after := Entered(nodes[c := Inode(kind, 1, [])], d, k, Dirent(c, Trunc(name)));
      (LinksOk(after, pending) <==> Live(nodes[d])) && (Live(nodes[d]) ==> TreeOk(after)) &&
        PendingOk(after, pending) && AllNamesOk(after)
  {
    hide TreeOk, Total, Fresh;
    assert CountOk(nodes[c].kind, nodes[c].nlink, Total(nodes, c), pending[c]);
    AllocatedCounted(nodes, pending, c, kind);
    FileKeepsTree(nodes, c, Inode(kind, 1, []));
    LinkWritten(nodes[c := Inode(kind, 1, [])], pending[c := 1], d, k, c, name);
    assert pending[c := 1][c := 0] == pending;
  }

  lemma Creation(nodes: seq<Inode>, pending: seq<nat>, d: int, k: int, c: int, name: string, kind: Kind)
    requires TreeOk(nodes) && LinksOk(nodes, pending) && PendingOk(nodes, pending) && AllNamesOk(nodes) && NulFree(name)
    requires 0 < d < |nodes| && nodes[d].kind.Dir? && 0 < c < |nodes| && nodes[c].kind.Free? && !kind.Free?
    requires Slot(nodes[d].entries, k) && Fresh(nodes[d].entries, Trunc(name))
    ensures 0 <= k <= |nodes[d].entries| && c != d
    ensures var after := Made(nodes, d, k, c, Trunc(name), kind);
      (LinksOk(after, pending) <==> Live(nodes[d]) && (kind.Dir? ==> nodes[d].nlink != MAXLINK)) &&
      (LinksOk(after, pending) ==> TreeOk(after) && PendingOk(after, pending) && AllNamesOk(after))
  {
    hide Total, Fresh;
    if kind.Dir? {
      assert ShapeAt(nodes[d], d, |nodes|);
      PutShape(nodes[d].entries, d, |nodes|, k, c, Trunc(name));
      assert CountOk(nodes[c].kind, nodes[c].nlink, Total(nodes, c), pending[c]);
      MadeDirCounted(nodes, pending, d, k, c, Trunc(name));
      if Live(nodes[d]) && nodes[d].nlink != MAXLINK {
        MadeDirKeepsTree(nodes, d, k, c, Trunc(name));
      }
    } else {
      FileCreated(nodes, pending, d, k, c, name, kind);
    }
  }

  predicate HoldsChildren(nodes: seq<Inode>, c: int) {
    0 < c < |nodes| && nodes[c].kind.Dir? && !NoChildren(nodes[c].entries)
  }

  lemma RootLive(nodes: seq<Inode>)
    requires TreeOk(nodes)
    ensures 0 < ROOT < |nodes| && Live(nodes[ROOT])
  {
  }

  /** A file created inside directory 2, removed but still open, has a link and no entry to show for it. */
  lemma CreateAfterRemoval(nodes: seq<Inode>, pending: seq<nat>)
    requires nodes == [NOTHING, Inode(Dir, 1, [Dirent(1, "."), Dirent(1, "..")]),
      Inode(Dir, 0, [Dirent(2, "."), Dirent(1, "..")]), NOTHING]
    requires pending == [0, 0, 0, 0]
    ensures TreeOk(nodes) && LinksOk(nodes, pending)
    ensures !LinksOk(Made(nodes, 2, 2, 3, "a", File), pending)
  {
    forall i | 0 < i < 4 ensures Total(nodes, i) == if i == ROOT then 1 else 0 {
      TotalOnly(nodes, ROOT, i);
      if i == ROOT {
        RefsOnly(nodes[ROOT].entries, 1, i);
      } else {
        RefsNone(nodes[ROOT].entries, i);
      }
    }
    assert AllNamesOk(nodes);
    FileCreated(nodes, pending, 2, 2, 3, "a", File);
  }

  /** A file name for every number below 65025. */
  function LinkName(k: int): (s: string)
    requires 0 <= k < 65025
  {
    ['a', (1 + k / 255) as char, (1 + k % 255) as char]
  }

  lemma LinkNames(j: int, k: int)
    requires 0 <= j < 65025 && 0 <= k < 65025 && j != k
    ensures LinkName(j) != LinkName(k)
  {
    assert j == 255 * (j / 255) + j % 255 && k == 255 * (k / 255) + k % 255;
    assert j / 255 != k / 255 || j % 255 != k % 255;
    assert LinkName(j)[1] != LinkName(k)[1] || LinkName(j)[2] != LinkName(k)[2];
  }

  lemma {:induction false} RefsFrom(es: seq<Dirent>, m: int, i: int)
    requires 0 <= m <= |es| && (forall k :: 0 <= k < m ==> !Names(es[k], i))
    requires (forall k :: m <= k < |es| ==> Names(es[k], i))
    ensures Refs(es, i) == |es| - m
  {
    if |es| > m {
      RefsFrom(es[..|es| - 1], m, i);
    } else {
      RefsNone(es, i);
    }
  }

  /** The root directory with n links to file 2. */
  function Linked(n: int): (nodes: seq<Inode>)
    requires 0 <= n < 65025
  {
    var links := seq(n, k requires 0 <= k < n => Dirent(2, LinkName(k)));
    [NOTHING, Inode(Dir, 1, [Dirent(ROOT, "."), Dirent(ROOT, "..")] + links), Inode(File, n, [])]
  }

  lemma LinkedOk(n: int)
    requires 0 <= n < 65025
    ensures TreeOk(Linked(n)) && LinksOk(Linked(n), [0, 0, 0]) && AllNamesOk(Linked(n))
  {
    hide Total, LinkName;
    var nodes := Linked(n);
    var es := nodes[ROOT].entries;
    LinkedNames(n);
    assert Shape(es, ROOT, 3);
    RefsFrom(es, 2, 2);
    RefsOnly(es, 1, ROOT);
    TotalOnly(nodes, ROOT, 1);
    TotalOnly(nodes, ROOT, 2);
  }

  lemma LinkedNames(n: int)
    requires 0 <= n < 65025
    ensures Distinct(Linked(n)[ROOT].entries) && NamesOk(Linked(n)[ROOT].entries)
  {
    var es := Linked(n)[ROOT].entries;
    forall j, k | 0 <= j < k < |es| ensures es[j].name != es[k].name {
      if j >= 2 {
        LinkNames(j - 2, k - 2);
      } else if k >= 2 {
        assert es[k].name[0] == 'a';
      }
    }
  }

  /** With as many links as a short can count, one more makes the count negative. */
  lemma LinkOverflows(nodes: seq<Inode>)
    requires nodes == Linked(MAXLINK)
    ensures TreeOk(nodes) && LinksOk(nodes, [0, 0, 0])
    ensures !LinksOk(Counted(nodes, 2, Increment(nodes[2].nlink)), [0, 0, 1])
  {
    hide TreeOk, LinksOk, Linked;
    LinkedOk(MAXLINK);
    assert nodes[2] == Inode(File, MAXLINK, []) && |nodes| == 3 by { LinkedFile(MAXLINK); }
    RaisedCounted(nodes, [0, 0, 0], 2);
    assert [0, 0, 0][2 := 1] == [0, 0, 1];
  }

  lemma LinkedFile(n: int)
    requires 0 <= n < 65025
    ensures |Linked(n)| == 3 && Linked(n)[2] == Inode(File, n, [])
  {
  }

  lemma DirectoryFacts(nodes: seq<Inode>, d: int)
    requires TreeOk(nodes) && AllNamesOk(nodes) && 0 < d < |nodes| && nodes[d].kind.Dir?
    ensures NamesOk(nodes[d].entries) && forall k :: 0 <= k < |nodes[d].entries| ==> nodes[d].entries[k].inum >= 0
  {
    assert ShapeAt(nodes[d], d, |nodes|);
  }

  lemma EnteredNames(nodes: seq<Inode>, d: int, k: int, e: Dirent)
    requires AllNamesOk(nodes) && 0 <= d < |nodes| && 0 <= k <= |nodes[d].entries| && NulFree(e.name)
    requires |e.name| <= DIRSIZ
    ensures AllNamesOk(Entered(nodes, d, k, e))
  {
  }

  lemma LinkWritten(nodes: seq<Inode>, pending: seq<nat>, d: int, k: int, c: int, name: string)
    requires TreeOk(nodes) && LinksOk(nodes, pending) && PendingOk(nodes, pending) && AllNamesOk(nodes) && NulFree(name)
    requires 0 < d < |nodes| && nodes[d].kind.Dir? && 0 < c < |nodes| && pending[c] > 0
    requires Slot(nodes[d].entries, k) && Fresh(nodes[d].entries, Trunc(name))
    ensures 0 <= k <= |nodes[d].entries|
    ensures var after, left := Entered(nodes, d, k, Dirent(c, Trunc(name))), pending[c := pending[c] - 1];
      (LinksOk(after, left) <==> Live(nodes[d])) && (Live(nodes[d]) ==> TreeOk(after)) && PendingOk(after, left) &&
        AllNamesOk(after)
  {
    hide LinksOk;
    assert ShapeAt(nodes[d], d, |nodes|);
    PutShape(nodes[d].entries, d, |nodes|, k, c, Trunc(name));
    LinkCounted(nodes, pending, d, k, c, Trunc(name));
    EnteredNames(nodes, d, k, Dirent(c, Trunc(name)));
    if Live(nodes[d]) {
      EnterKeepsTree(nodes, d, k, c, Trunc(name));
    }
  }

  lemma FileLowered(nodes: seq<Inode>, pending: seq<nat>, c: int)
    requires TreeOk(nodes) && LinksOk(nodes, pending) && PendingOk(nodes, pending) && AllNamesOk(nodes)
    requires 0 < c < |nodes| && pending[c] > 0
    ensures var after, left := Counted(nodes, c, nodes[c].nlink - 1), pending[c := pending[c] - 1];
      TreeOk(after) && LinksOk(after, left) && PendingOk(after, left) && AllNamesOk(after)
  {
    assert CountOk(nodes[c].kind, nodes[c].nlink, Total(nodes, c), pending[c]);
    LoweredCounted(nodes, pending, c);
    FileKeepsTree(nodes, c, nodes[c].(nlink := nodes[c].nlink - 1));
  }

  /** What dirlookup finds under a name other than "." and "..": a child with at least one link. */
  lemma FoundChild(nodes: seq<Inode>, pending: seq<nat>, d: int, k: int, name: string)
    requires TreeOk(nodes) && LinksOk(nodes, pending) && 0 < d < |nodes| && nodes[d].kind.Dir?
    requires name != "." && name != ".." && FoundAt(nodes[d].entries, name, k)
    ensures k >= 2 && Live(nodes[d]) && Names(nodes[d].entries[k], nodes[d].entries[k].inum)
    ensures var c := nodes[d].entries[k].inum; 0 < c < |nodes| && c != d && nodes[c].nlink >= 1 && !nodes[c].kind.Free?
  {
    hide Total, Refs;
    var es, c := nodes[d].entries, nodes[d].entries[k].inum;
    assert ShapeAt(nodes[d], d, |nodes|) && HeldAt(nodes, d);
    assert ChildAt(nodes, d, k);
    TotalSome(nodes, d, c);
    RefsSome(es, k, c);
    assert CountOk(nodes[c].kind, nodes[c].nlink, Total(nodes, c), pending[c]);
  }

  lemma FileUnlinked(nodes: seq<Inode>, pending: seq<nat>, d: int, k: int, c: int)
    requires TreeOk(nodes) && LinksOk(nodes, pending) && PendingOk(nodes, pending) && AllNamesOk(nodes)
    requires 0 < d < |nodes| && Live(nodes[d]) && 2 <= k < |nodes[d].entries| && 0 < c < |nodes|
    requires Names(nodes[d].entries[k], c)
    requires !nodes[c].kind.Dir? && !nodes[c].kind.Free?
    ensures var after := Counted(Entered(nodes, d, k, EMPTY), c, nodes[c].nlink - 1);
      TreeOk(after) && LinksOk(after, pending) && PendingOk(after, pending) && AllNamesOk(after)
  {
    hide TreeOk, LinksOk;
    RemovedCounted(nodes, pending, d, k, c);
    ClearKeepsTree(nodes, d, k);
    EnteredNames(nodes, d, k, EMPTY);
    var mid := Entered(nodes, d, k, EMPTY);
    assert mid[c].entries == [] by { FileEmpty(mid, c); }
    FileKeepsTree(mid, c, mid[c].(nlink := nodes[c].nlink - 1));
  }

  lemma FileEmpty(nodes: seq<Inode>, c: int)
    requires TreeOk(nodes) && 0 < c < |nodes| && !nodes[c].kind.Dir?
    ensures nodes[c].entries == []
  {
    assert ShapeAt(nodes[c], c, |nodes|);
  }

  lemma DirUnlinked(nodes: seq<Inode>, pending: seq<nat>, d: int, k: int, c: int)
    requires TreeOk(nodes) && LinksOk(nodes, pending) && PendingOk(nodes, pending) && AllNamesOk(nodes)
    requires EmptyChild(nodes, d, k, c)
    ensures var after := RemovedDir(nodes, d, k, c);
      TreeOk(after) && LinksOk(after, pending) && PendingOk(after, pending) && AllNamesOk(after)
  {
    hide TreeOk, LinksOk;
    EmptyChildLinks(nodes, pending, d, k, c);
    RemovedDirCounted(nodes, pending, d, k, c);
    RemovedDirKeepsTree(nodes, d, k, c);
  }

  lemma Initial(nodes: seq<Inode>, pending: seq<nat>)
    requires |nodes| > ROOT && |pending| == |nodes| && forall i :: 0 <= i < |nodes| ==> pending[i] == 0
    requires forall i :: 0 <= i < |nodes| && i != ROOT ==> nodes[i] == NOTHING
    requires nodes[ROOT] == Inode(Dir, 1, [Dirent(ROOT, "."), Dirent(ROOT, "..")])
    ensures TreeOk(nodes) && LinksOk(nodes, pending) && PendingOk(nodes, pending) && AllNamesOk(nodes)
  {
    var es := nodes[ROOT].entries;
    forall i | 0 < i < |nodes| ensures Total(nodes, i) == if i == ROOT then 1 else 0 {
      TotalOnly(nodes, ROOT, i);
      if i == ROOT {
        RefsOnly(es, 1, i);
      } else {
        RefsNone(es, i);
      }
    }
  }

  lemma FileRaised(nodes: seq<Inode>, c: int)
    requires TreeOk(nodes) && AllNamesOk(nodes) && 0 < c < |nodes| && !nodes[c].kind.Dir? && !nodes[c].kind.Free?
    ensures TreeOk(Counted(nodes, c, Increment(nodes[c].nlink)))
    ensures AllNamesOk(Counted(nodes, c, Increment(nodes[c].nlink)))
  {
    FileKeepsTree(nodes, c, nodes[c].(nlink := Increment(nodes[c].nlink)));
  }
}
