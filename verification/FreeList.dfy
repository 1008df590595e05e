/** The free list of user/umalloc.c as a sequence of blocks in address order. Units
    are Headers: a block of size n at address a occupies units a .. a + n - 1, its
    header in the first one. Element 0 is the static `base` header, of size 0. */
module FreeList {

  datatype Blk = Blk(addr: nat, size: nat)

  ghost predicate Covers(b: Blk, u: nat) {
    b.addr <= u < b.addr + b.size
  }

  /** Address-ordered, disjoint and fully coalesced: a gap follows every block. */
  ghost predicate Ordered(bs: seq<Blk>) {
    && |bs| > 0 && bs[0].size == 0
    && (forall i :: 0 < i < |bs| ==> bs[i].size > 0)
    && (forall i, j :: 0 <= i < j < |bs| ==> bs[i].addr + bs[i].size < bs[j].addr)
  }

  /** The unit lies in a free block. */
  ghost predicate IsFree(bs: seq<Blk>, u: nat) {
    exists i :: 0 < i < |bs| && Covers(bs[i], u)
  }

  /** Block b lies in the gap behind element k. */
  ghost predicate InGap(bs: seq<Blk>, k: nat, b: Blk) {
    && k < |bs| && bs[k].addr < b.addr && bs[k].addr + bs[k].size <= b.addr
    && (k + 1 < |bs| ==> b.addr + b.size <= bs[k + 1].addr)
  }

  predicate JoinsUp(bs: seq<Blk>, k: nat, b: Blk)
    requires k < |bs|
  {
    k + 1 < |bs| && b.addr + b.size == bs[k + 1].addr
  }

  predicate JoinsDown(bs: seq<Blk>, k: nat, b: Blk)
    requires k < |bs|
  {
    bs[k].addr + bs[k].size == b.addr
  }

  /** free: b goes into the gap behind element k, merged with its neighbours. */
  function Insert(bs: seq<Blk>, k: nat, b: Blk): (r: seq<Blk>)
    requires k < |bs|
  {
    var nb := if JoinsUp(bs, k, b) then Blk(b.addr, b.size + bs[k + 1].size) else b;
    var rest := if JoinsUp(bs, k, b) then bs[k + 2..] else bs[k + 1..];
    if JoinsDown(bs, k, b) then bs[..k] + [Blk(bs[k].addr, bs[k].size + nb.size)] + rest
    else bs[..k + 1] + [nb] + rest
  }

  /** malloc: n units are cut off the end of element i. */
  function Cut(bs: seq<Blk>, i: nat, n: nat): (r: seq<Blk>)
    requires i < |bs| && n <= bs[i].size
  {
    if bs[i].size == n then bs[..i] + bs[i + 1..] else bs[i := Blk(bs[i].addr, bs[i].size - n)]
  }

  /** The block that Cut takes away. */
  function Taken(bs: seq<Blk>, i: nat, n: nat): (r: Blk)
    requires i < |bs| && n <= bs[i].size
  {
    Blk(bs[i].addr + bs[i].size - n, n)
  }

  /** Where Insert puts the merged block, and how the blocks behind it move. */
  function Place(bs: seq<Blk>, k: nat, b: Blk): (at: nat)
    requires k < |bs|
  {
    if JoinsDown(bs, k, b) then k else k + 1
  }

  function Behind(bs: seq<Blk>, k: nat, b: Blk): (i: nat)
    requires k < |bs|
  {
    if JoinsUp(bs, k, b) then k + 2 else k + 1
  }

  function Merged(bs: seq<Blk>, k: nat, b: Blk): (m: Blk)
    requires k < |bs|
  {
    var down, up := if JoinsDown(bs, k, b) then bs[k].size else 0, if JoinsUp(bs, k, b) then bs[k + 1].size else 0;
    Blk(if JoinsDown(bs, k, b) then bs[k].addr else b.addr, down + b.size + up)
  }

  /** Elements at..h-1 replaced by m. */
  function Splice(bs: seq<Blk>, at: nat, m: Blk, h: nat): (r: seq<Blk>)
    requires at <= h <= |bs|
    ensures |r| == at + 1 + |bs| - h
    ensures forall j :: 0 <= j < |r| ==> r[j] == if j < at then bs[j] else if j == at then m else bs[j - at - 1 + h]
  {
    bs[..at] + [m] + bs[h..]
  }

  lemma InsertSplices(bs: seq<Blk>, k: nat, b: Blk)
    requires k < |bs|
    ensures Place(bs, k, b) <= Behind(bs, k, b) <= |bs|
    ensures Insert(bs, k, b) == Splice(bs, Place(bs, k, b), Merged(bs, k, b), Behind(bs, k, b))
  {
  }

  lemma SpliceOrdered(bs: seq<Blk>, at: nat, m: Blk, h: nat)
    requires Ordered(bs) && 0 < at <= h <= |bs| && m.size > 0
    requires forall i :: 0 <= i < at ==> bs[i].addr + bs[i].size < m.addr
    requires forall i :: h <= i < |bs| ==> m.addr + m.size < bs[i].addr
    ensures Ordered(Splice(bs, at, m, h)) && Splice(bs, at, m, h)[0] == bs[0]
  {
    var r := Splice(bs, at, m, h);
    hide Splice;
    forall i, j | 0 <= i < j < |r| ensures r[i].addr + r[i].size < r[j].addr {
    }
  }

  lemma InsertOrdered(bs: seq<Blk>, k: nat, b: Blk)
    requires Ordered(bs) && InGap(bs, k, b) && b.size > 0
    ensures Ordered(Insert(bs, k, b))
    ensures Insert(bs, k, b)[0] == bs[0]
  {
    hide Insert, Place, Merged, Behind, Splice, Ordered;
    MergedFits(bs, k, b);
    InsertSplices(bs, k, b);
    SpliceOrdered(bs, Place(bs, k, b), Merged(bs, k, b), Behind(bs, k, b));
  }

  lemma MergedFits(bs: seq<Blk>, k: nat, b: Blk)
    requires Ordered(bs) && InGap(bs, k, b) && b.size > 0
    ensures 0 < Place(bs, k, b) <= k + 1 <= Behind(bs, k, b) <= |bs| && Merged(bs, k, b).size > 0
    ensures forall i :: 0 <= i < Place(bs, k, b) ==> bs[i].addr + bs[i].size < Merged(bs, k, b).addr
    ensures forall i :: Behind(bs, k, b) <= i < |bs| ==> Merged(bs, k, b).addr + Merged(bs, k, b).size < bs[i].addr
  {
  }

  /** The merged block covers b and the elements it replaces. */
  lemma MergedCovers(bs: seq<Blk>, k: nat, b: Blk, u: nat)
    requires Ordered(bs) && InGap(bs, k, b) && b.size > 0
    ensures Covers(Merged(bs, k, b), u) <==>
              Covers(b, u) || exists i :: Place(bs, k, b) <= i < Behind(bs, k, b) && Covers(bs[i], u)
  {
    if Covers(Merged(bs, k, b), u) && !Covers(b, u) {
      assert Covers(bs[if u < b.addr then k else k + 1], u);
    }
  }

  lemma SpliceFree(bs: seq<Blk>, at: nat, m: Blk, h: nat, u: nat)
    requires 0 < at <= h <= |bs|
    ensures IsFree(Splice(bs, at, m, h), u) <==>
            Covers(m, u) || exists i :: 0 < i < |bs| && !(at <= i < h) && Covers(bs[i], u)
  {
    var r := Splice(bs, at, m, h);
    hide Splice;
    if i :| 0 < i < |bs| && !(at <= i < h) && Covers(bs[i], u) {
      assert r[if i < at then i else i - h + at + 1] == bs[i];
    }
    if j :| 0 < j < |r| && Covers(r[j], u) {
      assert r[j] == if j < at then bs[j] else if j == at then m else bs[j - at - 1 + h];
    }
    if Covers(m, u) {
      assert r[at] == m;
    }
  }

  /** Freeing adds exactly the block's units to the free ones. */
  lemma InsertFree(bs: seq<Blk>, k: nat, b: Blk, u: nat)
    requires Ordered(bs) && InGap(bs, k, b) && b.size > 0
    ensures IsFree(Insert(bs, k, b), u) <==> IsFree(bs, u) || Covers(b, u)
  {
    hide Insert, Place, Merged, Behind, Splice, Ordered;
    MergedFits(bs, k, b);
    InsertSplices(bs, k, b);
    MergedCovers(bs, k, b, u);
    SpliceFree(bs, Place(bs, k, b), Merged(bs, k, b), Behind(bs, k, b), u);
  }

  lemma CutOrdered(bs: seq<Blk>, i: nat, n: nat)
    requires Ordered(bs) && 0 < i < |bs| && 0 < n <= bs[i].size
    ensures Ordered(Cut(bs, i, n)) && Cut(bs, i, n)[0] == bs[0]
  {
  }

  /** Allocating splits the free units: the block taken, and those still free. */
  lemma CutFree(bs: seq<Blk>, i: nat, n: nat, u: nat)
    requires Ordered(bs) && 0 < i < |bs| && 0 < n <= bs[i].size
    ensures IsFree(bs, u) <==> IsFree(Cut(bs, i, n), u) || Covers(Taken(bs, i, n), u)
    ensures !(IsFree(Cut(bs, i, n), u) && Covers(Taken(bs, i, n), u))
  {
    var r := Cut(bs, i, n);
    var gone := bs[i].size == n;
    if Covers(Taken(bs, i, n), u) {
      assert Covers(bs[i], u);
    }
    if j :| 0 < j < |bs| && Covers(bs[j], u) {
      if j != i {
        assert r[if gone && j > i then j - 1 else j] == bs[j];
      } else if !gone && !Covers(Taken(bs, i, n), u) {
        assert Covers(r[i], u);
      }
    }
    if j :| 0 < j < |r| && Covers(r[j], u) {
      var m := if gone && j >= i then j + 1 else j;
      assert Covers(bs[m], u);
    }
  }

  /** Every address above base lies behind exactly one element. */
  lemma {:induction false} GapOf(bs: seq<Blk>, a: nat) returns (k: nat)
    requires Ordered(bs) && bs[0].addr < a
    ensures k < |bs| && bs[k].addr < a && (k + 1 < |bs| ==> a <= bs[k + 1].addr)
  {
    k := 0;
    while k + 1 < |bs| && bs[k + 1].addr < a
      invariant k < |bs| && bs[k].addr < a
    {
      k := k + 1;
    }
  }

  // The list in memory.

  datatype Header = Header(ptr: nat, size: nat)

  type Mem = map<nat, Header>

  function NextIndex(bs: seq<Blk>, i: nat): (j: nat)
    requires i < |bs|
    ensures j < |bs|
  {
    if i + 1 == |bs| then 0 else i + 1
  }

  /** The headers in memory link the blocks of bs into a circle. */
  ghost predicate Represents(mem: Mem, bs: seq<Blk>) {
    && |bs| > 0
    && (forall i :: 0 <= i < |bs| ==> bs[i].addr in mem)
    && (forall i :: 0 <= i < |bs| ==> LinkOk(mem, bs, i))
  }

  ghost predicate LinkOk(mem: Mem, bs: seq<Blk>, i: nat)
    requires i < |bs|
  {
    bs[i].addr in mem && mem[bs[i].addr] == Header(bs[NextIndex(bs, i)].addr, bs[i].size)
  }

  /** The assignments of free, with p the list element before the block bp. */
  function FreedMem(mem: Mem, p: nat, bp: nat): (r: Mem)
    requires p in mem && bp in mem && mem[p].ptr in mem
  {
    var b := mem[bp];
    var nxt := mem[p].ptr;
    var h := if bp + b.size == nxt then Header(mem[nxt].ptr, b.size + mem[nxt].size) else Header(nxt, b.size);
    var mem1 := mem[bp := h];
    if p + mem1[p].size == bp then mem1[p := Header(h.ptr, mem1[p].size + h.size)]
    else mem1[p := Header(bp, mem1[p].size)]
  }

  lemma SplicedLink(mem: Mem, mem': Mem, bs: seq<Blk>, at: nat, m: Blk, h: nat, j: nat)
    requires Represents(mem, bs) && 0 < at <= h <= |bs| && j < |Splice(bs, at, m, h)|
    requires m.addr in mem' && mem'[m.addr] == Header(if h < |bs| then bs[h].addr else bs[0].addr, m.size)
    requires forall i :: 0 <= i < |bs| && !(at - 1 <= i < h) ==>
               bs[i].addr in mem' && mem'[bs[i].addr] == mem[bs[i].addr]
    requires bs[at - 1].addr in mem' && mem'[bs[at - 1].addr] == Header(m.addr, bs[at - 1].size)
    ensures LinkOk(mem', Splice(bs, at, m, h), j)
  {
    if j < at - 1 {
      assert LinkOk(mem, bs, j);
    } else if j > at {
      assert LinkOk(mem, bs, j - at - 1 + h);
    }
  }

  lemma SplicedMem(mem: Mem, mem': Mem, bs: seq<Blk>, at: nat, m: Blk, h: nat)
    requires Represents(mem, bs) && 0 < at <= h <= |bs|
    requires m.addr in mem' && mem'[m.addr] == Header(if h < |bs| then bs[h].addr else bs[0].addr, m.size)
    requires forall i :: 0 <= i < |bs| && !(at - 1 <= i < h) ==>
               bs[i].addr in mem' && mem'[bs[i].addr] == mem[bs[i].addr]
    requires bs[at - 1].addr in mem' && mem'[bs[at - 1].addr] == Header(m.addr, bs[at - 1].size)
    ensures Represents(mem', Splice(bs, at, m, h))
  {
    forall j | 0 <= j < |Splice(bs, at, m, h)| ensures Splice(bs, at, m, h)[j].addr in mem' &&
      LinkOk(mem', Splice(bs, at, m, h), j) {
      SplicedLink(mem, mem', bs, at, m, h, j);
    }
  }

  // The two headers that free writes.
  lemma FreedHeaders(mem: Mem, bs: seq<Blk>, k: nat, b: Blk)
    requires Represents(mem, bs) && Ordered(bs) && InGap(bs, k, b) && b.size > 0
    requires b.addr in mem && mem[b.addr].size == b.size
    ensures mem[bs[k].addr].ptr in mem
    ensures var at, m, h, mem' := Place(bs, k, b), Merged(bs, k, b), Behind(bs, k, b),
            FreedMem(mem, bs[k].addr, b.addr);
            && 0 < at <= h <= |bs| && m.addr in mem' && bs[at - 1].addr in mem'
            && mem'[m.addr] == Header(if h < |bs| then bs[h].addr else bs[0].addr, m.size)
            && mem'[bs[at - 1].addr] == Header(m.addr, bs[at - 1].size)
  {
    var nk := NextIndex(bs, k);
    assert LinkOk(mem, bs, k) && LinkOk(mem, bs, nk);
    assert b.addr + b.size == bs[nk].addr <==> JoinsUp(bs, k, b) by { assert bs[0].addr < b.addr; }
    if JoinsDown(bs, k, b) {
      assert k > 0 && LinkOk(mem, bs, k - 1);
    }
  }

  /** free's pointer assignments turn the list into the one with b inserted. */
  lemma FreedRepresents(mem: Mem, bs: seq<Blk>, k: nat, b: Blk)
    requires Represents(mem, bs) && Ordered(bs) && InGap(bs, k, b) && b.size > 0
    requires b.addr in mem && mem[b.addr].size == b.size
    ensures mem[bs[k].addr].ptr in mem
    ensures Represents(FreedMem(mem, bs[k].addr, b.addr), Insert(bs, k, b))
  {
    hide Insert, Merged, FreedMem, LinkOk, Splice, Ordered, InGap;
    FreedHeaders(mem, bs, k, b);
    InsertSplices(bs, k, b);
    FreedKeeps(mem, bs, k, b);
    SplicedMem(mem, FreedMem(mem, bs[k].addr, b.addr), bs, Place(bs, k, b), Merged(bs, k, b), Behind(bs, k, b));
  }

  lemma FreedKeeps(mem: Mem, bs: seq<Blk>, k: nat, b: Blk)
    requires Represents(mem, bs) && Ordered(bs) && InGap(bs, k, b) && b.size > 0 && b.addr in mem
    requires mem[bs[k].addr].ptr in mem
    ensures forall i :: 0 <= i < |bs| && i != k && !(i == k + 1 && JoinsUp(bs, k, b)) ==>
              && bs[i].addr in FreedMem(mem, bs[k].addr, b.addr)
              && FreedMem(mem, bs[k].addr, b.addr)[bs[i].addr] == mem[bs[i].addr]
  {
    forall i | 0 <= i < |bs| && i != k && !(i == k + 1 && JoinsUp(bs, k, b))
      ensures bs[i].addr in mem && bs[i].addr != bs[k].addr && bs[i].addr != b.addr
    {
      assert LinkOk(mem, bs, i);
      assert i < k ==> bs[i].addr + bs[i].size < bs[k].addr;
      assert i > k ==> bs[k].addr + bs[k].size < bs[i].addr && bs[k + 1].addr <= bs[i].addr;
    }
  }

  /** The assignments of malloc when the block at p, behind prevp, is large enough. */
  function CutMem(mem: Mem, prevp: nat, p: nat, n: nat): (r: Mem)
    requires prevp in mem && p in mem && n <= mem[p].size
  {
    if mem[p].size == n then mem[prevp := Header(mem[p].ptr, mem[prevp].size)]
    else
      var rest := mem[p].size - n;
      var mem1 := mem[p := Header(mem[p].ptr, rest)];
      var q := p + rest;
      mem1[q := Header(if q in mem1 then mem1[q].ptr else 0, n)]
  }

  lemma UnlinkedAt(mem: Mem, mem': Mem, bs: seq<Blk>, r: seq<Blk>, i: nat, j: nat)
    requires Represents(mem, bs) && 0 < i < |bs| && r == bs[..i] + bs[i + 1..] && j < |r|
    requires bs[i - 1].addr in mem' && mem'[bs[i - 1].addr] == Header(mem[bs[i].addr].ptr, bs[i - 1].size)
    requires forall k :: 0 <= k < |bs| && k != i - 1 ==> bs[k].addr in mem' && mem'[bs[k].addr] == mem[bs[k].addr]
    ensures LinkOk(mem', r, j)
  {
    assert LinkOk(mem, bs, i);
    assert LinkOk(mem, bs, if j < i then j else j + 1);
  }

  lemma ResizedAt(mem: Mem, mem': Mem, bs: seq<Blk>, r: seq<Blk>, i: nat, x: nat, j: nat)
    requires Represents(mem, bs) && i < |bs| && r == bs[i := Blk(bs[i].addr, x)] && j < |r|
    requires bs[i].addr in mem' && mem'[bs[i].addr] == Header(mem[bs[i].addr].ptr, x)
    requires forall k :: 0 <= k < |bs| && k != i ==> bs[k].addr in mem' && mem'[bs[k].addr] == mem[bs[k].addr]
    ensures LinkOk(mem', r, j)
  {
    assert LinkOk(mem, bs, j);
  }

  lemma CutKeeps(mem: Mem, bs: seq<Blk>, i: nat, n: nat)
    requires Represents(mem, bs) && Ordered(bs) && 0 < i < |bs| && 0 < n <= bs[i].size
    ensures LinkOk(mem, bs, i) && LinkOk(mem, bs, i - 1)
    ensures var mem' := CutMem(mem, bs[i - 1].addr, bs[i].addr, n);
            forall k :: 0 <= k < |bs| && k != (if bs[i].size == n then i - 1 else i) ==>
              bs[k].addr in mem' && mem'[bs[k].addr] == mem[bs[k].addr]
  {
    assert LinkOk(mem, bs, i) && LinkOk(mem, bs, i - 1);
    forall k | 0 <= k < |bs| && k != i ensures bs[k].addr != bs[i].addr + bs[i].size - n && bs[k].addr != bs[i].addr {
      assert k > i ==> bs[i].addr + bs[i].size < bs[k].addr;
      assert k < i ==> bs[k].addr + bs[k].size < bs[i].addr;
    }
    forall k | 0 <= k < |bs| && k != i - 1 ensures bs[k].addr != bs[i - 1].addr {
      assert k > i - 1 ==> bs[i - 1].addr + bs[i - 1].size < bs[k].addr;
      assert k < i - 1 ==> bs[k].addr + bs[k].size < bs[i - 1].addr;
    }
  }

  /** malloc's assignments turn the list into the one with the block cut off. */
  lemma CutRepresents(mem: Mem, bs: seq<Blk>, i: nat, n: nat)
    requires Represents(mem, bs) && Ordered(bs) && 0 < i < |bs| && 0 < n <= bs[i].size
    ensures LinkOk(mem, bs, i) && LinkOk(mem, bs, i - 1)
    ensures Represents(CutMem(mem, bs[i - 1].addr, bs[i].addr, n), Cut(bs, i, n))
  {
    CutKeeps(mem, bs, i, n);
    var mem', r := CutMem(mem, bs[i - 1].addr, bs[i].addr, n), Cut(bs, i, n);
    assert bs[i].size == n ==> mem'[bs[i - 1].addr] == Header(mem[bs[i].addr].ptr, bs[i - 1].size);
    assert bs[i].size != n ==> bs[i].addr in mem' && mem'[bs[i].addr] == Header(mem[bs[i].addr].ptr, bs[i].size - n);
    hide CutMem, Ordered;
    forall j | 0 <= j < |r| ensures LinkOk(mem', r, j) {
      if bs[i].size == n {
        UnlinkedAt(mem, mem', bs, r, i, j);
      } else {
        ResizedAt(mem, mem', bs, r, i, bs[i].size - n, j);
      }
    }
  }
}
