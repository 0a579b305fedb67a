/**
 The user-level allocator user/umalloc.c (Kernighan and Ritchie, section 8.7): a circular free list
 in order of address, first fit, and coalescing on free.

 Addresses and sizes are in units of a Header.  The headers' fields are maps from the header's
 address.  The ghost `cover` gives the block that every unit obtained from sbrk belongs to.
 */
module Umalloc {

  const MINCORE := 4096

  predicate In(u: int, a: int, n: int) { a <= u < a + n }

  // ---------------------------------------------------------------- the blocks

  /** Every unit of `cover` is in exactly one block, and blocks consist of such units. */
  ghost predicate BlocksOk(base: int, brk: int, blocks: set<int>, size: map<int, int>, cover: map<int, int>) {
    && base < brk && base !in blocks && base in size && size[base] == 0
    && (forall a :: a in blocks ==> base < a && a in size && size[a] >= 1)
    && (forall u :: u in cover ==> u < brk && cover[u] in blocks && In(u, cover[u], size[cover[u]]))
    && (forall a, u :: a in blocks && In(u, a, size[a]) ==> u in cover && cover[u] == a)
  }

  lemma Disjoint(base: int, brk: int, blocks: set<int>, size: map<int, int>, cover: map<int, int>, a: int, c: int)
    requires BlocksOk(base, brk, blocks, size, cover) && a in blocks && c in blocks && a < c
    ensures a + size[a] <= c
  {
    assert In(c, c, size[c]) && cover[c] == c;
    assert !In(c, a, size[a]);
  }

  ghost function Recover(cover: map<int, int>, from: int, to: int): (r: map<int, int>) {
    map u | u in cover :: if cover[u] == from then to else cover[u]
  }

  /** Two blocks that touch become one. */
  lemma Fused(base: int, brk: int, blocks: set<int>, size: map<int, int>, cover: map<int, int>, a: int, c: int)
    requires BlocksOk(base, brk, blocks, size, cover) && a in blocks && c in blocks && c == a + size[a]
    ensures BlocksOk(base, brk, blocks - {c}, size[a := size[a] + size[c]], Recover(cover, c, a))
  {
    var blocks', size', cover' := blocks - {c}, size[a := size[a] + size[c]], Recover(cover, c, a);
    forall b, u | b in blocks' && In(u, b, size'[b])
      ensures u in cover' && cover'[u] == b
    {
      assert b == a ==> In(u, a, size[a]) || In(u, c, size[c]);
    }
  }

  ghost function Carve(cover: map<int, int>, a: int, n: int): (r: map<int, int>) {
    map u | u in cover :: if In(u, a, n) then a else cover[u]
  }

  lemma CarveAt(cover: map<int, int>, a: int, n: int, u: int)
    ensures u in Carve(cover, a, n) <==> u in cover
    ensures u in cover ==> Carve(cover, a, n)[u] == if In(u, a, n) then a else cover[u]
  {
  }

  /** The last n units of a block become a block of their own. */
  lemma {:induction false} Split(base: int, brk: int, blocks: set<int>, size: map<int, int>, cover: map<int, int>,
          p: int, n: int)
    requires BlocksOk(base, brk, blocks, size, cover) && p in blocks && 1 <= n < size[p]
    ensures var a := p + size[p] - n;
            a !in blocks && BlocksOk(base, brk, blocks + {a}, size[p := size[p] - n][a := n], Carve(cover, a, n))
  {
    hide Carve;
    var a := p + size[p] - n;
    assert In(a, p, size[p]);
    if a in blocks {
      Disjoint(base, brk, blocks, size, cover, p, a);
    }
    var blocks', size', cover' := blocks + {a}, size[p := size[p] - n][a := n], Carve(cover, a, n);
    forall b, u | b in blocks' && In(u, b, size'[b])
      ensures u in cover' && cover'[u] == b
    {
      CarveAt(cover, a, n, u);
      assert b == a || b == p ==> In(u, p, size[p]);
      assert b != a ==> In(u, b, size[b]);
    }
    forall u | u in cover'
      ensures u < brk && cover'[u] in blocks' && In(u, cover'[u], size'[cover'[u]])
    {
      CarveAt(cover, a, n, u);
    }
  }

  ghost function Extended(cover: map<int, int>, a: int, n: int): (r: map<int, int>) {
    cover + map u | a <= u < a + n && In(u, a, n) :: a
  }

  /** Units from sbrk become a block. */
  lemma ExtendedAt(cover: map<int, int>, a: int, n: int, u: int)
    ensures u in Extended(cover, a, n) <==> u in cover || In(u, a, n)
    ensures u in Extended(cover, a, n) ==> Extended(cover, a, n)[u] == if In(u, a, n) then a else cover[u]
  {
  }

  lemma Grown(base: int, brk: int, blocks: set<int>, size: map<int, int>, cover: map<int, int>, a: int, n: int)
    requires BlocksOk(base, brk, blocks, size, cover) && brk <= a && 1 <= n
    ensures a !in blocks && BlocksOk(base, a + n, blocks + {a}, size[a := n], Extended(cover, a, n))
    ensures forall u :: In(u, a, n) ==> u !in cover
  {
    hide Extended;
    assert a in blocks ==> In(a, a, size[a]) && a in cover && a < brk;
    var blocks', size', cover' := blocks + {a}, size[a := n], Extended(cover, a, n);
    forall b, u | b in blocks' && In(u, b, size'[b])
      ensures u in cover' && cover'[u] == b
    {
      ExtendedAt(cover, a, n, u);
      assert b != a ==> In(u, b, size[b]);
    }
    forall u | u in cover'
      ensures u < a + n && cover'[u] in blocks' && In(u, cover'[u], size'[cover'[u]])
    {
      ExtendedAt(cover, a, n, u);
    }
  }

  // ---------------------------------------------------------------- the free list

  function Next(flist: seq<int>, k: int): (a: int)
    requires 0 <= k < |flist|
  {
    if k + 1 < |flist| then flist[k + 1] else flist[0]
  }

  /** The free blocks behind the base, in order of address, no two of them touching. */
  ghost predicate ListOk(base: int, flist: seq<int>, blocks: set<int>, size: map<int, int>) {
    && |flist| >= 1 && flist[0] == base
    && (forall k :: 0 <= k < |flist| ==> flist[k] in size)
    && (forall k :: 1 <= k < |flist| ==> flist[k] in blocks)
    && (forall j, k :: 0 <= j < k < |flist| ==> flist[j] + size[flist[j]] < flist[k] && flist[j] < flist[k])
  }

  /** The ptr fields make the list circular. */
  ghost predicate LinksOk(flist: seq<int>, ptr: map<int, int>) {
    forall k :: 0 <= k < |flist| ==> flist[k] in ptr && ptr[flist[k]] == Next(flist, k)
  }

  /** Is position k where a block at address bp belongs? */
  predicate Fits(flist: seq<int>, k: int, bp: int) {
    0 <= k < |flist| && flist[k] < bp && (k + 1 < |flist| ==> bp < flist[k + 1])
  }

  lemma NotYetListed(base: int, flist: seq<int>, blocks: set<int>, size: map<int, int>, k: int, bp: int)
    requires ListOk(base, flist, blocks, size) && Fits(flist, k, bp)
    ensures bp !in flist
  {
  }

  /** Where the neighbours of a live block bp lie. */
  lemma Neighbours(base: int, brk: int, flist: seq<int>, blocks: set<int>, size: map<int, int>, cover: map<int, int>,
          k: int, bp: int)
    requires BlocksOk(base, brk, blocks, size, cover) && ListOk(base, flist, blocks, size) && bp in blocks
    requires Fits(flist, k, bp)
    ensures forall j :: 0 <= j <= k ==> flist[j] + size[flist[j]] <= bp && flist[j] < bp
    ensures forall j :: k < j < |flist| ==> bp + size[bp] <= flist[j] && bp < flist[j]
    ensures k + 1 < |flist| ==> forall j :: k + 1 < j < |flist| ==> flist[k + 1] + size[flist[k + 1]] < flist[j]
    ensures forall j :: 0 <= j < k ==> flist[j] + size[flist[j]] < flist[k]
    ensures k == 0 ==> flist[k] + size[flist[k]] < bp
  {
    forall j | 0 <= j <= k
      ensures flist[j] + size[flist[j]] <= bp && flist[j] < bp
    {
      if j > 0 {
        assert flist[j] <= flist[k];
        Disjoint(base, brk, blocks, size, cover, flist[j], bp);
      }
    }
    forall j | k < j < |flist|
      ensures bp + size[bp] <= flist[j] && bp < flist[j]
    {
      assert flist[k + 1] <= flist[j];
      Disjoint(base, brk, blocks, size, cover, bp, flist[j]);
    }
  }

  lemma {:induction false} PlaceFrom(flist: seq<int>, bp: int, k: int) returns (r: int)
    requires bp !in flist && 0 <= k < |flist| && flist[k] < bp
    ensures Fits(flist, r, bp)
    decreases |flist| - k
  {
    r := k;
    if k + 1 < |flist| && flist[k + 1] < bp {
      r := PlaceFrom(flist, bp, k + 1);
    }
  }

  // ---------------------------------------------------------------- what free does to the list

  function Inserted(flist: seq<int>, k: int, bp: int): (r: seq<int>)
    requires 0 <= k < |flist|
  {
    flist[..k + 1] + [bp] + flist[k + 1..]
  }

  /** bp takes the place of its successor, which it swallowed. */
  function Replaced(flist: seq<int>, k: int, bp: int): (r: seq<int>)
    requires 0 <= k && k + 1 < |flist|
  {
    flist[k + 1 := bp]
  }

  function Removed(flist: seq<int>, k: int): (r: seq<int>)
    requires 0 <= k < |flist|
  {
    flist[..k] + flist[k + 1..]
  }

  /** The free list, the blocks, the sizes and the cover after free(bp), where k is bp's position. */
  datatype Heap = Heap(flist: seq<int>, blocks: set<int>, size: map<int, int>, cover: map<int, int>)

  ghost predicate HeapOk(base: int, brk: int, h: Heap) {
    BlocksOk(base, brk, h.blocks, h.size, h.cover) && ListOk(base, h.flist, h.blocks, h.size)
  }

  /** bp swallows the next free block if it touches it. */
  ghost function UpperFreed(h: Heap, k: int, bp: int): (r: Heap)
    requires Fits(h.flist, k, bp) && bp in h.size && forall j :: 0 <= j < |h.flist| ==> h.flist[j] in h.size
  {
    if k + 1 < |h.flist| && bp + h.size[bp] == h.flist[k + 1] then
      var c := h.flist[k + 1];
      Heap(Replaced(h.flist, k, bp), h.blocks - {c}, h.size[bp := h.size[bp] + h.size[c]], Recover(h.cover, c, bp))
    else h.(flist := Inserted(h.flist, k, bp))
  }

  /** The free block before bp, at position k, swallows it if they touch. */
  ghost function LowerFreed(h: Heap, k: int, bp: int): (r: Heap)
    requires 0 <= k && k + 1 < |h.flist| && h.flist[k + 1] == bp && bp in h.size && h.flist[k] in h.size
  {
    var p := h.flist[k];
    if p + h.size[p] == bp then
      Heap(Removed(h.flist, k + 1), h.blocks - {bp}, h.size[p := h.size[p] + h.size[bp]], Recover(h.cover, bp, p))
    else h
  }

  /** All but the last step: in order, and touching at most between positions k and k + 1. */
  ghost predicate AlmostList(base: int, flist: seq<int>, blocks: set<int>, size: map<int, int>, k: int) {
    && |flist| >= 1 && flist[0] == base
    && (forall j :: 0 <= j < |flist| ==> flist[j] in size)
    && (forall j :: 1 <= j < |flist| ==> flist[j] in blocks)
    && (forall i, j :: 0 <= i < j < |flist| ==>
          flist[i] < flist[j] && flist[i] + size[flist[i]] <= flist[j]
          && (flist[i] + size[flist[i]] == flist[j] ==> i == k && j == k + 1 && k > 0))
  }

  ghost predicate AlmostOk(base: int, brk: int, h: Heap, k: int) {
    BlocksOk(base, brk, h.blocks, h.size, h.cover) && AlmostList(base, h.flist, h.blocks, h.size, k)
  }

  lemma InsertedOk(base: int, brk: int, h: Heap, k: int, bp: int)
    requires HeapOk(base, brk, h) && Fits(h.flist, k, bp) && bp in h.blocks
    requires !(k + 1 < |h.flist| && bp + h.size[bp] == h.flist[k + 1])
    ensures AlmostOk(base, brk, h.(flist := Inserted(h.flist, k, bp)), k)
  {
    Neighbours(base, brk, h.flist, h.blocks, h.size, h.cover, k, bp);
  }

  lemma ReplacedOk(base: int, brk: int, h: Heap, k: int, bp: int)
    requires HeapOk(base, brk, h) && Fits(h.flist, k, bp) && bp in h.blocks && k + 1 < |h.flist|
    requires bp + h.size[bp] == h.flist[k + 1]
    ensures AlmostOk(base, brk, UpperFreed(h, k, bp), k)
  {
    Neighbours(base, brk, h.flist, h.blocks, h.size, h.cover, k, bp);
    Fused(base, brk, h.blocks, h.size, h.cover, bp, h.flist[k + 1]);
  }

  lemma UpperOk(base: int, brk: int, h: Heap, k: int, bp: int)
    requires HeapOk(base, brk, h) && Fits(h.flist, k, bp) && bp in h.blocks
    ensures AlmostOk(base, brk, UpperFreed(h, k, bp), k)
    ensures k + 1 < |UpperFreed(h, k, bp).flist| && UpperFreed(h, k, bp).flist[k + 1] == bp
    ensures UpperFreed(h, k, bp).flist[k] == h.flist[k]
  {
    if k + 1 < |h.flist| && bp + h.size[bp] == h.flist[k + 1] {
      ReplacedOk(base, brk, h, k, bp);
    } else {
      InsertedOk(base, brk, h, k, bp);
    }
  }

  lemma {:induction false} LowerOk(base: int, brk: int, h: Heap, k: int, bp: int)
    requires AlmostOk(base, brk, h, k) && 0 <= k && k + 1 < |h.flist| && h.flist[k + 1] == bp
    ensures HeapOk(base, brk, LowerFreed(h, k, bp))
  {
    hide BlocksOk, ListOk, AlmostList;
    AlmostFacts(base, brk, h, k);
    var p := h.flist[k];
    if p + h.size[p] == bp {
      Fused(base, brk, h.blocks, h.size, h.cover, p, bp);
      Swallowed(base, h.flist, h.blocks, h.size, k);
    } else {
      Untouching(base, h.flist, h.blocks, h.size, k);
    }
  }

  lemma AlmostFacts(base: int, brk: int, h: Heap, k: int)
    requires AlmostOk(base, brk, h, k) && 0 <= k && k + 1 < |h.flist|
    ensures h.flist[k] in h.size && h.flist[k + 1] in h.size && h.flist[k + 1] in h.blocks
    ensures h.flist[k] + h.size[h.flist[k]] == h.flist[k + 1] ==> h.flist[k] in h.blocks
  {
  }

  lemma Swallowed(base: int, flist: seq<int>, blocks: set<int>, size: map<int, int>, k: int)
    requires AlmostList(base, flist, blocks, size, k) && 0 <= k && k + 1 < |flist|
    requires flist[k] + size[flist[k]] == flist[k + 1]
    ensures ListOk(base, Removed(flist, k + 1), blocks - {flist[k + 1]},
      size[flist[k] := size[flist[k]] + size[flist[k + 1]]])
  {
    var flist', size' := Removed(flist, k + 1), size[flist[k] := size[flist[k]] + size[flist[k + 1]]];
    forall i, j | 0 <= i < j < |flist'|
      ensures flist'[i] + size'[flist'[i]] < flist'[j] && flist'[i] < flist'[j]
    {
      var i0, j0 := if i <= k then i else i + 1, if j <= k then j else j + 1;
      assert flist'[i] == flist[i0] && flist'[j] == flist[j0] &&
        (j > k ==> flist[k + 1] + size[flist[k + 1]] < flist[j0]);
    }
  }

  lemma Untouching(base: int, flist: seq<int>, blocks: set<int>, size: map<int, int>, k: int)
    requires AlmostList(base, flist, blocks, size, k) && 0 <= k && k + 1 < |flist|
    requires flist[k] + size[flist[k]] != flist[k + 1]
    ensures ListOk(base, flist, blocks, size)
  {
  }

  // ---------------------------------------------------------------- what free does to the headers

  predicate Joinable(ptr: map<int, int>, size: map<int, int>, p: int, bp: int) {
    p in ptr && p in size && bp in size && ptr[p] in ptr && ptr[p] in size
  }

  function UpperPtr(ptr: map<int, int>, size: map<int, int>, p: int, bp: int): (r: map<int, int>)
    requires Joinable(ptr, size, p, bp)
  {
    ptr[bp := if bp + size[bp] == ptr[p] then ptr[ptr[p]] else ptr[p]]
  }

  function UpperSize(ptr: map<int, int>, size: map<int, int>, p: int, bp: int): (r: map<int, int>)
    requires Joinable(ptr, size, p, bp)
  {
    if bp + size[bp] == ptr[p] then size[bp := size[bp] + size[ptr[p]]] else size
  }

  function LowerPtr(ptr: map<int, int>, size: map<int, int>, p: int, bp: int): (r: map<int, int>)
    requires p in size && bp in ptr
  {
    ptr[p := if p + size[p] == bp then ptr[bp] else bp]
  }

  function LowerSize(size: map<int, int>, p: int, bp: int): (r: map<int, int>)
    requires p in size && bp in size
  {
    if p + size[p] == bp then size[p := size[p] + size[bp]] else size
  }

  ghost predicate LinksBut(flist: seq<int>, ptr: map<int, int>, x: int) {
    forall k :: 0 <= k < |flist| && k != x ==> flist[k] in ptr && ptr[flist[k]] == Next(flist, k)
  }

  lemma InsertedLinks(flist: seq<int>, ptr: map<int, int>, k: int, bp: int)
    requires LinksOk(flist, ptr) && 0 <= k < |flist| && bp !in flist
    ensures flist[k] in ptr && LinksBut(Inserted(flist, k, bp), ptr[bp := ptr[flist[k]]], k)
  {
    var flist', ptr' := Inserted(flist, k, bp), ptr[bp := ptr[flist[k]]];
    forall j | 0 <= j < |flist'| && j != k
      ensures flist'[j] in ptr' && ptr'[flist'[j]] == Next(flist', j)
    {
      if j < k {
        assert flist'[j] == flist[j] && ptr[flist[j]] == Next(flist, j);
      } else if j > k + 1 {
        assert flist'[j] == flist[j - 1] && ptr[flist[j - 1]] == Next(flist, j - 1);
      }
    }
  }

  lemma ReplacedLinks(flist: seq<int>, ptr: map<int, int>, k: int, bp: int)
    requires LinksOk(flist, ptr) && 0 <= k && k + 1 < |flist| && bp !in flist
    ensures flist[k + 1] in ptr && LinksBut(Replaced(flist, k, bp), ptr[bp := ptr[flist[k + 1]]], k)
  {
    var flist', ptr' := Replaced(flist, k, bp), ptr[bp := ptr[flist[k + 1]]];
    forall j | 0 <= j < |flist'| && j != k
      ensures flist'[j] in ptr' && ptr'[flist'[j]] == Next(flist', j)
    {
      assert ptr[flist[j]] == Next(flist, j);
    }
  }

  lemma UpperLinks(h: Heap, ptr: map<int, int>, k: int, bp: int, p: int)
    requires LinksOk(h.flist, ptr) && Fits(h.flist, k, bp) && bp !in h.flist && p == h.flist[k] && h.flist[0] < bp
    requires bp in h.size && h.size[bp] >= 0 && forall j :: 0 <= j < |h.flist| ==> h.flist[j] in h.size
    ensures Joinable(ptr, h.size, p, bp) && UpperFreed(h, k, bp).size == UpperSize(ptr, h.size, p, bp)
    ensures LinksBut(UpperFreed(h, k, bp).flist, UpperPtr(ptr, h.size, p, bp), k)
  {
    assert ptr[p] == Next(h.flist, k);
    assert ptr[h.flist[0]] == Next(h.flist, 0);
    if k + 1 < |h.flist| && bp + h.size[bp] == h.flist[k + 1] {
      ReplacedLinks(h.flist, ptr, k, bp);
    } else {
      InsertedLinks(h.flist, ptr, k, bp);
    }
  }

  predicate Ascending(flist: seq<int>) {
    forall i, j :: 0 <= i < j < |flist| ==> flist[i] < flist[j]
  }

  lemma RemovedLinks(flist: seq<int>, ptr: map<int, int>, k: int)
    requires Ascending(flist) && LinksBut(flist, ptr, k) && 0 <= k && k + 1 < |flist|
    ensures flist[k + 1] in ptr && LinksOk(Removed(flist, k + 1), ptr[flist[k] := ptr[flist[k + 1]]])
  {
    assert ptr[flist[k + 1]] == Next(flist, k + 1);
    var flist', ptr' := Removed(flist, k + 1), ptr[flist[k] := ptr[flist[k + 1]]];
    forall j | 0 <= j < |flist'|
      ensures flist'[j] in ptr' && ptr'[flist'[j]] == Next(flist', j)
    {
      if j < k {
        assert flist'[j] == flist[j] && ptr[flist[j]] == Next(flist, j);
      } else if j > k {
        assert flist'[j] == flist[j + 1] && ptr[flist[j + 1]] == Next(flist, j + 1);
      }
    }
  }

  lemma RelinkedLinks(flist: seq<int>, ptr: map<int, int>, k: int)
    requires Ascending(flist) && LinksBut(flist, ptr, k) && 0 <= k && k + 1 < |flist|
    ensures LinksOk(flist, ptr[flist[k] := flist[k + 1]])
  {
    var ptr' := ptr[flist[k] := flist[k + 1]];
    forall j | 0 <= j < |flist|
      ensures flist[j] in ptr' && ptr'[flist[j]] == Next(flist, j)
    {
      assert j != k ==> ptr[flist[j]] == Next(flist, j);
    }
  }

  lemma LowerLinks(h: Heap, ptr: map<int, int>, k: int, bp: int, p: int)
    requires Ascending(h.flist) && LinksBut(h.flist, ptr, k) && 0 <= k && k + 1 < |h.flist| && h.flist[k + 1] == bp
    requires p == h.flist[k]
    requires p in h.size && bp in h.size
    ensures bp in ptr && LinksOk(LowerFreed(h, k, bp).flist, LowerPtr(ptr, h.size, p, bp))
    ensures LowerFreed(h, k, bp).size == LowerSize(h.size, p, bp)
  {
    assert ptr[h.flist[k + 1]] == Next(h.flist, k + 1);
    hide LinksOk, LinksBut, Ascending;
    if p + h.size[p] == bp {
      RemovedLinks(h.flist, ptr, k);
    } else {
      RelinkedLinks(h.flist, ptr, k);
    }
  }

  /** free's whole effect. */
  ghost function Freed(h: Heap, k: int, bp: int): (r: Heap)
    requires Fits(h.flist, k, bp) && bp in h.size && forall j :: 0 <= j < |h.flist| ==> h.flist[j] in h.size
  {
    LowerFreed(UpperFreed(h, k, bp), k, bp)
  }

  predicate LiveIn(h: Heap, a: int) { a in h.blocks && a !in h.flist }

  /** The same units, the same live blocks but bp, and bp's units in one free block. */
  ghost predicate FreedOnly(h: Heap, h': Heap, bp: int) {
    && h'.cover.Keys == h.cover.Keys
    && (forall a :: LiveIn(h', a) <==> LiveIn(h, a) && a != bp)
    && (forall a :: LiveIn(h', a) ==> a in h.size && a in h'.size && h'.size[a] == h.size[a])
    && bp in h.size && bp in h'.cover && h'.cover[bp] in h'.flist && h'.cover[bp] in h'.size &&
       h'.size[h'.cover[bp]] >= h.size[bp]
  }

  lemma UpperOnly(base: int, brk: int, h: Heap, k: int, bp: int)
    requires HeapOk(base, brk, h) && Fits(h.flist, k, bp) && LiveIn(h, bp)
    ensures FreedOnly(h, UpperFreed(h, k, bp), bp) && UpperFreed(h, k, bp).cover[bp] == bp
  {
    assert In(bp, bp, h.size[bp]);
    var h' := UpperFreed(h, k, bp);
    if k + 1 < |h.flist| && bp + h.size[bp] == h.flist[k + 1] {
      forall x
        ensures x in h'.flist <==> x == bp || (x in h.flist && x != h.flist[k + 1])
      {
        ReplacedIn(h.flist, k, bp, x);
      }
    } else {
      assert h'.flist[k + 1] == bp;
      assert forall x :: x in h'.flist <==> x == bp || x in h.flist;
    }
  }

  lemma ReplacedIn(flist: seq<int>, k: int, bp: int, x: int)
    requires 0 <= k && k + 1 < |flist| && forall i, j :: 0 <= i < j < |flist| ==> flist[i] < flist[j]
    ensures x in Replaced(flist, k, bp) <==> x == bp || (x in flist && x != flist[k + 1])
  {
    var r := Replaced(flist, k, bp);
    assert r[k + 1] == bp;
    if x in flist && x != flist[k + 1] {
      var j :| 0 <= j < |flist| && flist[j] == x;
      assert r[j] == x;
    }
  }

  lemma RemovedIn(flist: seq<int>, k: int, x: int)
    requires 0 <= k < |flist| && forall i, j :: 0 <= i < j < |flist| ==> flist[i] < flist[j]
    ensures x in Removed(flist, k) <==> x in flist && x != flist[k]
  {
    if x in flist && x != flist[k] {
      var j :| 0 <= j < |flist| && flist[j] == x;
      assert Removed(flist, k)[if j < k then j else j - 1] == x;
    }
  }

  lemma LowerOnly(base: int, brk: int, h: Heap, k: int, bp: int)
    requires AlmostOk(base, brk, h, k) && 0 <= k && k + 1 < |h.flist| && h.flist[k + 1] == bp
    ensures var h' := LowerFreed(h, k, bp);
            && h'.cover.Keys == h.cover.Keys
            && (forall a :: LiveIn(h', a) <==> LiveIn(h, a))
            && (forall a :: LiveIn(h', a) ==> a in h.size && a in h'.size && h'.size[a] == h.size[a])
            && (bp in h.cover && h.cover[bp] == bp ==>
                  h'.cover[bp] in h'.flist && h'.cover[bp] in h'.size && h'.size[h'.cover[bp]] >= h.size[bp])
  {
    var p, h' := h.flist[k], LowerFreed(h, k, bp);
    if p + h.size[p] == bp {
      forall x
        ensures x in h'.flist <==> x in h.flist && x != bp
      {
        RemovedIn(h.flist, k + 1, x);
      }
      assert p in h.flist;
    }
  }

  lemma {:induction false} FreeEffect(base: int, brk: int, h: Heap, k: int, bp: int)
    requires HeapOk(base, brk, h) && Fits(h.flist, k, bp) && LiveIn(h, bp)
    ensures HeapOk(base, brk, Freed(h, k, bp)) && FreedOnly(h, Freed(h, k, bp), bp)
    ensures k < |Freed(h, k, bp).flist| && Freed(h, k, bp).flist[k] == h.flist[k]
  {
    hide BlocksOk, ListOk, UpperFreed, LowerFreed, AlmostOk;
    FreedDefined(base, brk, h, k, bp);
    UpperOk(base, brk, h, k, bp);
    UpperOnly(base, brk, h, k, bp);
    LowerOk(base, brk, UpperFreed(h, k, bp), k, bp);
    LowerOnly(base, brk, UpperFreed(h, k, bp), k, bp);
    LowerPlace(base, brk, UpperFreed(h, k, bp), k, bp);
  }

  lemma LowerPlace(base: int, brk: int, h: Heap, k: int, bp: int)
    requires AlmostOk(base, brk, h, k) && 0 <= k && k + 1 < |h.flist| && h.flist[k + 1] == bp
    ensures k < |LowerFreed(h, k, bp).flist| && LowerFreed(h, k, bp).flist[k] == h.flist[k]
  {
  }

  lemma FreedDefined(base: int, brk: int, h: Heap, k: int, bp: int)
    requires HeapOk(base, brk, h) && LiveIn(h, bp) && Fits(h.flist, k, bp)
    ensures bp in h.size && forall j :: 0 <= j < |h.flist| ==> h.flist[j] in h.size
  {
  }

  /** The headers that free leaves behind are those of the freed heap. */
  lemma FreeAll(base: int, brk: int, h: Heap, ptr: map<int, int>, k: int, bp: int, p: int)
    requires HeapOk(base, brk, h) && LinksOk(h.flist, ptr) && Fits(h.flist, k, bp) && LiveIn(h, bp) && p == h.flist[k]
    ensures Joinable(ptr, h.size, p, bp)
    ensures var ptr1, size1, h' := UpperPtr(ptr, h.size, p, bp), UpperSize(ptr, h.size, p, bp), Freed(h, k, bp);
            && p in ptr1 && bp in ptr1 && p in size1 && bp in size1
            && LinksOk(h'.flist, LowerPtr(ptr1, size1, p, bp)) && h'.size == LowerSize(size1, p, bp)
            && HeapOk(base, brk, h') && FreedOnly(h, h', bp) && k < |h'.flist| && h'.flist[k] == p
  {
    FreeEffect(base, brk, h, k, bp);
    UpperOk(base, brk, h, k, bp);
    NotYetListed(base, h.flist, h.blocks, h.size, k, bp);
    UpperLinks(h, ptr, k, bp, p);
    var h1 := UpperFreed(h, k, bp);
    LowerLinks(h1, UpperPtr(ptr, h.size, p, bp), k, bp, p);
  }

  // ---------------------------------------------------------------- more core

  function Core(nu: int): (n: int) { if nu < MINCORE then MINCORE else nu }

  /** The live blocks are the same. */
  ghost predicate SameLive(h: Heap, h': Heap) {
    && (forall a :: LiveIn(h', a) <==> LiveIn(h, a))
    && (forall a :: LiveIn(h', a) ==> a in h.size && a in h'.size && h'.size[a] == h.size[a])
  }

  /** Some free block has n units. */
  ghost predicate HasBlock(flist: seq<int>, size: map<int, int>, n: int) {
    exists k :: 0 <= k < |flist| && flist[k] in size && size[flist[k]] >= n
  }

  /** The units at addresses a to a + n, and no others, are new. */
  ghost predicate GrewBy(cover: map<int, int>, cover': map<int, int>, a: int, n: int) {
    && (forall u :: u in cover' <==> u in cover || In(u, a, n))
    && (forall u :: In(u, a, n) ==> u !in cover)
  }

  ghost predicate Sized(h: Heap) { forall a :: a in h.blocks ==> a in h.size }

  lemma MoreBlocks(base: int, brk: int, h: Heap, hp: int, n: int, top: int)
    requires HeapOk(base, brk, h) && brk <= hp && 1 <= n && top == hp + n
    ensures var h' := Heap(h.flist, h.blocks + {hp}, h.size[hp := n], Extended(h.cover, hp, n));
            HeapOk(base, top, h') && LiveIn(h', hp) && hp !in h.blocks && GrewBy(h.cover, h'.cover, hp, n) &&
              hp != base && Sized(h)
  {
    Grown(base, brk, h.blocks, h.size, h.cover, hp, n);
  }

  lemma MoreFreed(h: Heap, h1: Heap, h2: Heap, hp: int, n: int, nu: int)
    requires hp !in h.blocks && h1.flist == h.flist && h1.blocks == h.blocks + {hp} && h1.size == h.size[hp := n]
    requires nu <= n
    requires GrewBy(h.cover, h1.cover, hp, n) && FreedOnly(h1, h2, hp) && Sized(h)
    ensures SameLive(h, h2) && HasBlock(h2.flist, h2.size, nu) && GrewBy(h.cover, h2.cover, hp, n)
  {
    var k :| 0 <= k < |h2.flist| && h2.flist[k] == h2.cover[hp];
    assert h2.size[h2.flist[k]] >= nu;
  }

  // ---------------------------------------------------------------- taking a block

  /** Block a of n units, and no other, became live; no unit came or went. */
  ghost predicate AllocatedOnly(h: Heap, h': Heap, a: int, n: int) {
    && NewBlock(h, h', a, n) && h'.cover.Keys == h.cover.Keys
  }

  ghost predicate NewBlock(h: Heap, h': Heap, a: int, n: int) {
    && !LiveIn(h, a) && LiveIn(h', a) && a in h'.size && h'.size[a] == n
    && (forall x :: LiveIn(h', x) <==> LiveIn(h, x) || x == a)
    && (forall x :: LiveIn(h, x) ==> x in h.size && x in h'.size && h'.size[x] == h.size[x])
  }

  lemma TakenWhole(base: int, brk: int, h: Heap, k: int)
    requires HeapOk(base, brk, h) && 1 <= k < |h.flist|
    ensures var h' := h.(flist := Removed(h.flist, k));
            HeapOk(base, brk, h') && AllocatedOnly(h, h', h.flist[k], h.size[h.flist[k]])
  {
    forall x
      ensures x in Removed(h.flist, k) <==> x in h.flist && x != h.flist[k]
    {
      RemovedIn(h.flist, k, x);
    }
  }

  lemma TakenLinks(flist: seq<int>, ptr: map<int, int>, k: int)
    requires Ascending(flist) && LinksOk(flist, ptr) && 1 <= k < |flist|
    ensures flist[k] in ptr && LinksOk(Removed(flist, k), ptr[flist[k - 1] := ptr[flist[k]]])
    ensures Removed(flist, k)[k - 1] == flist[k - 1]
  {
    RemovedLinks(flist, ptr, k - 1);
  }

  lemma ListAscends(base: int, brk: int, h: Heap)
    requires HeapOk(base, brk, h)
    ensures Ascending(h.flist) && forall k :: 0 <= k < |h.flist| ==>
      h.flist[k] in h.size && (k > 0 ==> base < h.flist[k])
    ensures |h.flist| > 0 && h.flist[0] == base && h.size[base] == 0
  {
  }

  ghost function CutTail(h: Heap, p: int, n: int): (r: Heap)
    requires p in h.size
  {
    var a := p + (h.size[p] - n);
    Heap(h.flist, h.blocks + {a}, h.size[p := h.size[p] - n][a := n], Carve(h.cover, a, n))
  }

  lemma {:induction false} TakenTail(base: int, brk: int, h: Heap, k: int, n: int)
    requires HeapOk(base, brk, h) && 1 <= k < |h.flist| && 1 <= n < h.size[h.flist[k]]
    ensures var p := h.flist[k];
            HeapOk(base, brk, CutTail(h, p, n)) && AllocatedOnly(h, CutTail(h, p, n), p + (h.size[p] - n), n)
  {
    hide BlocksOk, ListOk, Carve;
    ListAscends(base, brk, h);
    var p := h.flist[k];
    var a := p + (h.size[p] - n);
    TailBlock(base, brk, h, k);
    Split(base, brk, h.blocks, h.size, h.cover, p, n);
    TailUnlisted(base, h.flist, h.blocks, h.size, k, a, n);
    CarveKeys(h.cover, a, n);
  }

  lemma TailBlock(base: int, brk: int, h: Heap, k: int)
    requires HeapOk(base, brk, h) && 1 <= k < |h.flist|
    ensures h.flist[k] in h.blocks && forall x :: x in h.blocks ==> x in h.size
  {
  }

  lemma CarveKeys(cover: map<int, int>, a: int, n: int)
    ensures Carve(cover, a, n).Keys == cover.Keys
  {
  }

  lemma TailUnlisted(base: int, flist: seq<int>, blocks: set<int>, size: map<int, int>, k: int, a: int, n: int)
    requires ListOk(base, flist, blocks, size) && 1 <= k < |flist| && 1 <= n < size[flist[k]]
    requires a == flist[k] + (size[flist[k]] - n)
    ensures a !in flist && ListOk(base, flist, blocks + {a}, size[flist[k] := size[flist[k]] - n][a := n])
  {
    assert forall j :: 0 <= j < |flist| ==> flist[j] != a;
  }

  // ---------------------------------------------------------------- one lap round the list

  function Succ(flist: seq<int>, k: int): (r: int) { if k + 1 < |flist| then k + 1 else 0 }

  /** The position that many steps after f, within one lap. */
  function Around(flist: seq<int>, f: int, steps: int): (k: int) {
    if f + steps < |flist| then f + steps else f + steps - |flist|
  }

  function Pred(flist: seq<int>, k: int): (r: int) { if k > 0 then k - 1 else |flist| - 1 }

  /** How many blocks malloc's scan, which starts behind position f, has passed when it reaches k. */
  function Lap(flist: seq<int>, f: int, k: int): (d: int) { if k > f then k - f - 1 else k + |flist| - f - 1 }

  ghost predicate Passed(flist: seq<int>, size: map<int, int>, f: int, i: int, n: int) {
    forall x :: 0 <= x < |flist| && Lap(flist, f, x) < Lap(flist, f, i) ==> flist[x] in size && size[flist[x]] < n
  }

  lemma LapNext(flist: seq<int>, size: map<int, int>, f: int, i: int, n: int)
    requires 0 <= f < |flist| && 0 <= i < |flist| && flist[i] in size
    requires i == f || (Passed(flist, size, f, i, n) && size[flist[i]] < n)
    ensures Passed(flist, size, f, Succ(flist, i), n) && Pred(flist, Succ(flist, i)) == i
    ensures i != f ==> Lap(flist, f, Succ(flist, i)) == Lap(flist, f, i) + 1 < |flist|
  {
    forall x | 0 <= x < |flist| && Lap(flist, f, x) < Lap(flist, f, Succ(flist, i))
      ensures flist[x] in size && size[flist[x]] < n
    {
      assert Lap(flist, f, x) < Lap(flist, f, i) || x == i;
    }
  }

  /** Back at freep, malloc has seen every block. */
  lemma LapDone(base: int, brk: int, h: Heap, f: int, i: int, n: int)
    requires HeapOk(base, brk, h) && 0 <= f < |h.flist| && 0 <= i < |h.flist| && h.flist[i] == h.flist[f]
    requires Passed(h.flist, h.size, f, i, n) && h.flist[i] in h.size && h.size[h.flist[i]] < n
    ensures i == f && !HasBlock(h.flist, h.size, n)
  {
    forall x | 0 <= x < |h.flist|
      ensures h.flist[x] in h.size && h.size[h.flist[x]] < n
    {
      assert x != f ==> Lap(h.flist, f, x) < Lap(h.flist, f, i);
    }
  }

  lemma InOrder(flist: seq<int>, i: int, j: int)
    requires Ascending(flist) && 0 <= i < |flist| && 0 <= j < |flist|
    ensures (i < j ==> flist[i] < flist[j]) && (j < i ==> flist[j] < flist[i])
    ensures i + 1 < |flist| ==> flist[i] < flist[i + 1]
  {
  }

  lemma LiveFacts(base: int, brk: int, h: Heap, bp: int)
    requires HeapOk(base, brk, h) && LiveIn(h, bp)
    ensures Ascending(h.flist) && h.flist[0] < bp && bp !in h.flist
  {
  }

  /** What is known of the i-th block of the list. */
  lemma Position(base: int, brk: int, h: Heap, ptr: map<int, int>, i: int)
    requires HeapOk(base, brk, h) && LinksOk(h.flist, ptr) && 0 <= i < |h.flist|
    ensures h.flist[i] in ptr && ptr[h.flist[i]] == h.flist[Succ(h.flist, i)] && h.flist[i] in h.size
    ensures base <= h.flist[i]
  {
  }

  lemma Allocated(base: int, brk: int, h0: Heap, h1: Heap, h2: Heap, a: int, n: int)
    requires SameLive(h0, h1) || h0 == h1
    requires AllocatedOnly(h1, h2, a, n) && HeapOk(base, brk, h2)
    ensures NewBlock(h0, h2, a, n) && base < a
  {
  }

  const HEADER := 16     // sizeof(Header)

  /** How many units hold that many bytes and a header. */
  function Units(nbytes: int): (n: int)
    requires nbytes >= 0
  {
    (nbytes + HEADER - 1) / HEADER + 1
  }

  // ---------------------------------------------------------------- the allocator

  class Allocator {
    const base: int              // &base
    var ptr: map<int, int>       // s.ptr of every header
    var size: map<int, int>      // s.size of every header
    var freep: int
    var brk: int                 // where sbrk grows the process
    ghost var flist: seq<int>
    ghost var blocks: set<int>
    ghost var cover: map<int, int>
    ghost var f: int             // freep's position in the list

    ghost function H(): (h: Heap)
      reads this
    {
      Heap(flist, blocks, size, cover)
    }

    ghost predicate Valid()
      reads this
    {
      && HeapOk(base, brk, H()) && LinksOk(flist, ptr)
      && 0 <= f < |flist| && freep == flist[f]
    }

    /** A block that malloc handed out. */
    ghost predicate Live(a: int)
      reads this
    {
      a in blocks && a !in flist
    }

    /** The state after the first call of malloc has set up the list. */
    constructor (base: int, brk: int)
      requires base < brk
      ensures Valid() && blocks == {} && cover == map[] && this.base == base && this.brk == brk
    {
      this.base, this.brk, freep := base, brk, base;
      ptr, size := map[base := base], map[base := 0];
      flist, blocks, cover, f := [base], {}, map[], 0;
    }

    /** free's scan: from freep on to the place of bp, in at most one lap. */
    method FindPlace(bp: int) returns (p: int, ghost k: int, ghost steps: int)
      requires Valid() && Live(bp)
      ensures Fits(flist, k, bp) && p == flist[k]
      ensures 0 <= steps < |flist| && k == Around(flist, f, steps)
    {
      hide HeapOk, LinksOk, Ascending;
      LiveFacts(base, brk, H(), bp);
      p := freep;
      k, steps := f, 0;
      ghost var place := PlaceFrom(flist, bp, 0);
      Position(base, brk, H(), ptr, k);
      while !(bp > p && bp < ptr[p])
        invariant 0 <= k < |flist| && p == flist[k] && p in ptr && ptr[p] == flist[Succ(flist, k)]
        invariant steps == (if k >= f then k - f else k + |flist| - f)
        invariant (k < f ==> f > place && k <= place) && (f <= place ==> k <= place)
        decreases |flist| - steps
      {
        InOrder(flist, k, place);
        if p >= ptr[p] && (bp > p || bp < ptr[p]) {
          break;
        }
        p := ptr[p];
        k, steps := Succ(flist, k), steps + 1;
        Position(base, brk, H(), ptr, k);
      }
      InOrder(flist, k, 0);
    }

    /** free of the block whose header is bp. */
    method Free(bp: int)
      requires Valid() && Live(bp)
      modifies this`ptr, this`size, this`freep, this`flist, this`blocks, this`cover, this`f
      ensures Valid() && FreedOnly(old(H()), H(), bp)
    {
      hide HeapOk, LinksOk, FreedOnly;
      var p, k, steps := FindPlace(bp);
      FreedDefined(base, brk, H(), k, bp);
      ghost var h := Freed(H(), k, bp);
      FreeAll(base, brk, H(), ptr, k, bp, p);
      JoinUpper(p, bp);
      JoinLower(p, bp);
      freep := p;
      flist, blocks, cover, f := h.flist, h.blocks, h.cover, k;
      assert H() == h;
    }

    /** free's first half: link bp to the block after it, or swallow that block. */
    method JoinUpper(p: int, bp: int)
      requires Joinable(ptr, size, p, bp)
      modifies this`ptr, this`size
      ensures ptr == UpperPtr(old(ptr), old(size), p, bp) && size == UpperSize(old(ptr), old(size), p, bp)
    {
      if bp + size[bp] == ptr[p] {
        size := size[bp := size[bp] + size[ptr[p]]];
        ptr := ptr[bp := ptr[ptr[p]]];
      } else {
        ptr := ptr[bp := ptr[p]];
      }
    }

    /** free's second half: link bp behind p, or let p swallow it. */
    method JoinLower(p: int, bp: int)
      requires p in ptr && bp in ptr && p in size && bp in size
      modifies this`ptr, this`size
      ensures ptr == LowerPtr(old(ptr), old(size), p, bp) && size == LowerSize(old(size), p, bp)
    {
      if p + size[p] == bp {
        size := size[p := size[p] + size[bp]];
        ptr := ptr[p := ptr[bp]];
      } else {
        ptr := ptr[p := bp];
      }
    }

    /** morecore: `ok` and `gap` are sbrk's answer, `gap` units that somebody else took lying in between. */
    method Morecore(nu: int, ok: bool, gap: nat) returns (p: int, ghost hp: int)
      requires Valid() && 1 <= nu && 0 < base
      modifies this`ptr, this`size, this`freep, this`brk, this`flist, this`blocks, this`cover, this`f
      ensures Valid() && p == (if ok then freep else 0)
      ensures !ok ==> H() == old(H()) && brk == old(brk) && ptr == old(ptr) && f == old(f)
      ensures ok ==> brk > old(brk) && SameLive(old(H()), H()) && HasBlock(flist, size, nu) && hp >= old(brk)
      ensures ok ==> brk == hp + Core(nu) && GrewBy(old(cover), cover, hp, Core(nu))
    {
      var n := Core(nu);
      if !ok {
        return 0, 0;
      }
      var at := brk + gap;
      ghost var h := H();
      AddCore(at, n);
      ghost var h1 := H();
      Free(at);
      MoreFreed(h, h1, H(), at, n, nu);
      return freep, at;
    }

    /** The new units get a header of their own, as if they were a block in use. */
    method AddCore(hp: int, n: int)
      requires Valid() && brk <= hp && 1 <= n
      modifies this`size, this`brk, this`blocks, this`cover
      ensures Valid() && Live(hp) && hp !in old(blocks) && brk == hp + n
      ensures H() == Heap(old(flist), old(blocks) + {hp}, old(size)[hp := n], Extended(old(cover), hp, n))
      ensures GrewBy(old(cover), cover, hp, n)
      ensures Sized(old(H()))
    {
      hide HeapOk, LinksOk;
      var top := hp + n;
      MoreBlocks(base, brk, H(), hp, n, top);
      ghost var h' := Heap(flist, blocks + {hp}, size[hp := n], Extended(cover, hp, n));
      brk := top;
      size := size[hp := n];
      blocks := blocks + {hp};
      cover := Extended(cover, hp, n);
      assert H() == h';
    }

    /** malloc's end for a block of exactly the right size: take it out of the list. */
    method TakeWhole(prevp: int, p: int, ghost k: int)
      requires Valid() && 1 <= k < |flist| && p == flist[k] && prevp == flist[k - 1]
      modifies this`ptr, this`freep, this`flist, this`f
      ensures Valid() && AllocatedOnly(old(H()), H(), p, old(size)[p])
    {
      hide HeapOk, LinksOk, AllocatedOnly, Ascending;
      TakenWhole(base, brk, H(), k);
      ListAscends(base, brk, H());
      TakenLinks(flist, ptr, k);
      ghost var h' := H().(flist := Removed(flist, k));
      ptr := ptr[prevp := ptr[p]];
      freep := prevp;
      flist, f := h'.flist, k - 1;
      assert H() == h';
    }

    /** malloc's end for a larger block: cut n units off its end. */
    method TakeTail(prevp: int, p: int, n: int, ghost k: int) returns (a: int)
      requires Valid() && 1 <= k < |flist| && p == flist[k] && prevp == flist[k - 1] && 1 <= n < size[p]
      modifies this`size, this`freep, this`blocks, this`cover, this`f
      ensures Valid() && AllocatedOnly(old(H()), H(), a, n)
    {
      hide HeapOk, LinksOk, AllocatedOnly;
      ListAscends(base, brk, H());
      ghost var h' := CutTail(H(), p, n);
      TakenTail(base, brk, H(), k, n);
      size := size[p := size[p] - n];
      a := p + size[p];
      size := size[a := n];
      freep := prevp;
      blocks, cover, f := h'.blocks, h'.cover, k - 1;
      assert H() == h';
    }

    /**
     malloc of nunits units, header included; `ok` and `gap` are sbrk's answer should it be asked,
     which happens at most once.  The result is the header of the new block, or 0.
     */
    method Malloc(nunits: int, ok: bool, gap: nat) returns (a: int, ghost hp: int)
      requires Valid() && 1 <= nunits && 0 < base
      modifies this`ptr, this`size, this`freep, this`brk, this`flist, this`blocks, this`cover, this`f
      ensures Valid()
      ensures a == 0 ==> !ok && H() == old(H()) && !HasBlock(flist, size, nunits)
      ensures a != 0 ==> NewBlock(old(H()), H(), a, nunits) && base < a
      ensures brk == old(brk) ==> cover.Keys == old(cover).Keys
      ensures brk != old(brk) ==> ok && !HasBlock(old(flist), old(size), nunits)
      ensures brk != old(brk) ==>
        hp >= old(brk) && brk == hp + Core(nunits) && GrewBy(old(cover), cover, hp, Core(nunits))
    {
      hide HeapOk, LinksOk, HasBlock, SameLive, NewBlock, Passed, AllocatedOnly;
      ghost var h0 := H();
      Position(base, brk, H(), ptr, f);
      var prevp := freep;
      var p := ptr[prevp];
      LapNext(flist, size, f, f, nunits);
      ghost var i, calls := Succ(flist, f), 0;
      hp := 0;
      while true
        invariant Valid() && 0 <= i < |flist| && p == flist[i] && prevp == flist[Pred(flist, i)]
        invariant Passed(flist, size, f, i, nunits) && 0 <= calls <= 1
        invariant calls == 0 ==> H() == h0 && brk == old(brk)
        invariant calls == 1 ==> HasBlock(flist, size, nunits) && SameLive(h0, H()) && old(brk) < brk
        invariant calls == 1 ==> ok && !HasBlock(h0.flist, h0.size, nunits)
        invariant calls == 1 ==>
          hp >= old(brk) && brk == hp + Core(nunits) && GrewBy(old(cover), cover, hp, Core(nunits))
        decreases 1 - calls, |flist| - Lap(flist, f, i)
      {
        Position(base, brk, H(), ptr, i);
        if size[p] >= nunits {
          a := Take(prevp, p, nunits, i, h0);
          return;
        }
        if p == freep {
          LapDone(base, brk, H(), f, i, nunits);
          p, hp := Morecore(nunits, ok, gap);
          calls := 1;
          i := f;
          Position(base, brk, H(), ptr, i);
          if p == 0 {
            return 0, 0;
          }
        }
        LapNext(flist, size, f, i, nunits);
        prevp := p;
        p := ptr[p];
        i := Succ(flist, i);
      }
    }

    /**
     malloc of nbytes bytes, few enough for sbrk's int argument: the address behind the header of a
     block with room for them and less than a unit to spare, or 0.
     */
    method MallocBytes(nbytes: int, ok: bool, gap: nat) returns (ap: int, ghost a: int)
      requires Valid() && 0 < base && 0 <= nbytes && Units(nbytes) * HEADER < 0x8000_0000
      modifies this`ptr, this`size, this`freep, this`brk, this`flist, this`blocks, this`cover, this`f
      ensures Valid()
      ensures ap == 0 ==> !ok && H() == old(H())
      ensures ap != 0 ==> ap == a + 1 && NewBlock(old(H()), H(), a, Units(nbytes))
      ensures nbytes <= (Units(nbytes) - 1) * HEADER < nbytes + HEADER
    {
      ghost var hp;
      var header;
      header, hp := Malloc(Units(nbytes), ok, gap);
      a := header;
      ap := if header == 0 then 0 else header + 1;
    }

    /** malloc's end: take all or the tail of block p, the i-th of the list. */
    method Take(prevp: int, p: int, nunits: int, ghost i: int, ghost h0: Heap) returns (a: int)
      requires Valid() && 1 <= nunits && 0 <= i < |flist| && p == flist[i] && prevp == flist[Pred(flist, i)]
      requires p in size && size[p] >= nunits && (SameLive(h0, H()) || h0 == H())
      modifies this`ptr, this`size, this`freep, this`flist, this`blocks, this`cover, this`f
      ensures Valid() && NewBlock(h0, H(), a, nunits) && base < a && cover.Keys == old(cover).Keys
    {
      ghost var h1 := H();
      ListAscends(base, brk, h1);
      if size[p] == nunits {
        TakeWhole(prevp, p, i);
        a := p;
      } else {
        a := TakeTail(prevp, p, nunits, i);
      }
      hide HeapOk, SameLive, NewBlock;
      Allocated(base, brk, h0, h1, H(), a, nunits);
    }
  }
}
