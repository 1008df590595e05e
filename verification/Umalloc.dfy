/** user/umalloc.c: the Kernighan and Ritchie allocator, on a memory of headers. */
module Umalloc {
  import opened Common
  import opened FreeList

  /** The unit lies in an allocated block; live maps block addresses to sizes. */
  ghost predicate Live(live: map<nat, nat>, u: nat) {
    exists a :: a in live && Covers(Blk(a, live[a]), u)
  }

  /** Allocated and free blocks partition the heap, and no two of them overlap. */
  ghost predicate Partition(bs: seq<Blk>, live: map<nat, nat>, heap: set<nat>) {
    && (forall a :: a in live ==> live[a] > 0)
    && (forall u: nat :: u in heap <==> IsFree(bs, u) || Live(live, u))
    && (forall u: nat :: !(IsFree(bs, u) && Live(live, u)))
    && (forall a, b :: a in live && b in live && a != b ==> a + live[a] <= b || b + live[b] <= a)
  }

  ghost function Units(a: nat, n: nat): (r: set<nat>)
    ensures forall u: nat :: u in r <==> a <= u < a + n
  {
    if n == 0 then {} else Units(a, n - 1) + {a + n - 1}
  }

  lemma LiveStart(live: map<nat, nat>, a: nat)
    ensures a in live && live[a] > 0 ==> Live(live, a)
  {
    if a in live && live[a] > 0 {
      assert Covers(Blk(a, live[a]), a);
    }
  }

  /** A live block lies in the gap behind the last list element below it. */
  lemma LiveInGap(bs: seq<Blk>, live: map<nat, nat>, heap: set<nat>, k: nat, a: nat)
    requires Ordered(bs) && Partition(bs, live, heap) && a in live
    requires k < |bs| && bs[k].addr < a && (k + 1 < |bs| ==> a <= bs[k + 1].addr)
    ensures InGap(bs, k, Blk(a, live[a]))
  {
    assert Live(live, a) by { assert Covers(Blk(a, live[a]), a); }
    if bs[k].addr + bs[k].size > a {
      assert Covers(bs[k], a);
      assert IsFree(bs, a);
    }
    if k + 1 < |bs| && a + live[a] > bs[k + 1].addr {
      var u := bs[k + 1].addr;
      assert Covers(bs[k + 1], u) && Covers(Blk(a, live[a]), u);
      assert IsFree(bs, u) && Live(live, u);
    }
  }

  lemma LiveWithout(live: map<nat, nat>, a: nat, u: nat)
    requires a in live
    requires forall x, y :: x in live && y in live && x != y ==> x + live[x] <= y || y + live[y] <= x
    ensures Live(live, u) <==> Live(live - {a}, u) || Covers(Blk(a, live[a]), u)
    ensures !(Live(live - {a}, u) && Covers(Blk(a, live[a]), u))
  {
    if Covers(Blk(a, live[a]), u) {
      assert a in live;
    }
    if x :| x in live && Covers(Blk(x, live[x]), u) {
      if x != a {
        assert x in live - {a} && (live - {a})[x] == live[x];
      }
    }
    if x :| x in live - {a} && Covers(Blk(x, (live - {a})[x]), u) {
      assert x in live && x != a;
    }
  }

  lemma LiveWith(live: map<nat, nat>, a: nat, n: nat, u: nat)
    requires a !in live
    ensures Live(live[a := n], u) <==> Live(live, u) || Covers(Blk(a, n), u)
  {
    var l := live[a := n];
    if Covers(Blk(a, n), u) {
      assert a in l && l[a] == n;
    }
    if x :| x in live && Covers(Blk(x, live[x]), u) {
      assert x in l && l[x] == live[x];
    }
  }

  /** List elements are not live blocks, and live blocks lie above base. */
  lemma NotListed(bs: seq<Blk>, live: map<nat, nat>, heap: set<nat>, a: nat)
    requires Ordered(bs) && Partition(bs, live, heap) && a in live && forall u :: u in heap ==> bs[0].addr < u
    ensures bs[0].addr < a && forall i :: 0 <= i < |bs| ==> bs[i].addr != a
  {
    LiveStart(live, a);
    forall i | 0 < i < |bs| ensures bs[i].addr != a {
      assert Covers(bs[i], bs[i].addr);
      assert IsFree(bs, bs[i].addr);
    }
  }

  lemma FreedLive(mem: Mem, bs: seq<Blk>, live: map<nat, nat>, heap: set<nat>, k: nat, bp: nat)
    requires Ordered(bs) && Partition(bs, live, heap) && (forall u :: u in heap ==> bs[0].addr < u) && k < |bs|
    requires bs[k].addr in mem && bp in mem && mem[bs[k].addr].ptr in mem
    requires forall a :: a in live ==> a in mem && mem[a].size == live[a]
    ensures forall a :: a in live - {bp} ==>
              && a in FreedMem(mem, bs[k].addr, bp) && FreedMem(mem, bs[k].addr, bp)[a].size == live[a]
  {
    forall a | a in live - {bp} ensures a in live && a != bs[k].addr { NotListed(bs, live, heap, a); }
  }

  /** free keeps the partition. */
  lemma FreePartition(bs: seq<Blk>, live: map<nat, nat>, heap: set<nat>, k: nat, a: nat)
    requires Ordered(bs) && Partition(bs, live, heap) && a in live && InGap(bs, k, Blk(a, live[a]))
    ensures Partition(Insert(bs, k, Blk(a, live[a])), live - {a}, heap)
  {
    hide Insert, Ordered, IsFree, Live;
    forall u: nat
      ensures u in heap <==> IsFree(Insert(bs, k, Blk(a, live[a])), u) || Live(live - {a}, u)
      ensures !(IsFree(Insert(bs, k, Blk(a, live[a])), u) && Live(live - {a}, u))
    {
      InsertFree(bs, k, Blk(a, live[a]), u);
      LiveWithout(live, a, u);
    }
  }

  lemma Apart(bs: seq<Blk>, live: map<nat, nat>, heap: set<nat>, b: Blk, x: nat)
    requires Partition(bs, live, heap) && b.size > 0 && x in live
    requires forall u: nat :: Covers(b, u) ==> !Live(live, u)
    ensures b.addr + b.size <= x || x + live[x] <= b.addr
  {
    if b.addr + b.size > x && x + live[x] > b.addr {
      var u := if x <= b.addr then b.addr else x;
      assert Covers(b, u) && Covers(Blk(x, live[x]), u);
      assert Live(live, u);
    }
  }

  /** malloc keeps the partition. */
  lemma CutPartition(bs: seq<Blk>, live: map<nat, nat>, heap: set<nat>, i: nat, n: nat)
    requires Ordered(bs) && Partition(bs, live, heap) && 0 < i < |bs| && 0 < n <= bs[i].size
    ensures var t := Taken(bs, i, n);
            t.addr !in live && Partition(Cut(bs, i, n), live[t.addr := n], heap)
  {
    var t := Taken(bs, i, n);
    assert t.size == n;
    assert forall u: nat :: Covers(t, u) ==> !Live(live, u) by {
      forall u: nat | Covers(t, u) ensures !Live(live, u) { CutFree(bs, i, n, u); }
    }
    assert Covers(t, t.addr);
    LiveStart(live, t.addr);
    hide Cut, Taken, IsFree, Live, Ordered;
    forall u: nat
      ensures u in heap <==> IsFree(Cut(bs, i, n), u) || Live(live[t.addr := n], u)
      ensures !(IsFree(Cut(bs, i, n), u) && Live(live[t.addr := n], u))
    {
      CutFree(bs, i, n, u);
      LiveWith(live, t.addr, n, u);
    }
    forall x | x in live ensures t.addr + n <= x || x + live[x] <= t.addr {
      Apart(bs, live, heap, t, x);
    }
  }

  /** Memory that sbrk adds, beyond the old heap, becomes one allocated block. */
  lemma GrowPartition(bs: seq<Blk>, live: map<nat, nat>, heap: set<nat>, a: nat, n: nat)
    requires Partition(bs, live, heap) && n > 0 && forall u :: u in heap ==> u < a
    ensures a !in live && Partition(bs, live[a := n], heap + Units(a, n))
  {
    LiveStart(live, a);
    var t := Blk(a, n);
    forall u: nat
      ensures u in heap + Units(a, n) <==> IsFree(bs, u) || Live(live[a := n], u)
      ensures !(IsFree(bs, u) && Live(live[a := n], u))
    {
      LiveWith(live, a, n, u);
    }
    forall x | x in live ensures a + n <= x || x + live[x] <= a {
      Apart(bs, live, heap, t, x);
    }
  }

  /** Every list element and every live block lies below the end of the heap. */
  lemma BelowBreak(bs: seq<Blk>, live: map<nat, nat>, heap: set<nat>, brk: nat)
    requires Ordered(bs) && Partition(bs, live, heap) && bs[0].addr < brk && forall u :: u in heap ==> u < brk
    ensures forall i :: 0 <= i < |bs| ==> bs[i].addr < brk
    ensures forall a :: a in live ==> a < brk
  {
    forall i | 0 < i < |bs| ensures bs[i].addr < brk {
      assert Covers(bs[i], bs[i].addr);
      assert IsFree(bs, bs[i].addr);
    }
    forall a | a in live ensures a < brk { LiveStart(live, a); }
  }

  lemma RepresentsWith(mem: Mem, bs: seq<Blk>, a: nat, h: Header)
    requires Represents(mem, bs) && forall i :: 0 <= i < |bs| ==> bs[i].addr != a
    ensures Represents(mem[a := h], bs)
  {
    var mem' := mem[a := h];
    forall i | 0 <= i < |bs| ensures LinkOk(mem', bs, i) { assert LinkOk(mem, bs, i); }
  }

  /** The inserted block, merged or not, is at least as large as it was. */
  lemma InsertedSize(bs: seq<Blk>, k: nat, b: Blk)
    requires k < |bs|
    ensures var r, t := Insert(bs, k, b), Place(bs, k, b);
            t < |r| && r[t].size >= b.size && (t == k || t == k + 1)
  {
    InsertSplices(bs, k, b);
  }

  lemma PlacePositive(bs: seq<Blk>, k: nat, b: Blk)
    requires Ordered(bs) && InGap(bs, k, b)
    ensures Place(bs, k, b) > 0
  {
  }

  lemma CutLive(mem: Mem, bs: seq<Blk>, live: map<nat, nat>, heap: set<nat>, i: nat, n: nat)
    requires Represents(mem, bs) && Ordered(bs) && Partition(bs, live, heap) && 0 < i < |bs| && 0 < n <= bs[i].size
    requires forall u :: u in heap ==> bs[0].addr < u
    requires forall a :: a in live ==> a in mem && mem[a].size == live[a]
    ensures LinkOk(mem, bs, i) && LinkOk(mem, bs, i - 1) && Taken(bs, i, n).addr !in live
    ensures var mem', t := CutMem(mem, bs[i - 1].addr, bs[i].addr, n), Taken(bs, i, n).addr;
            && t in mem' && mem'[t].size == n
            && forall a :: a in live ==> a in mem' && mem'[a].size == live[a]
  {
    assert LinkOk(mem, bs, i) && LinkOk(mem, bs, i - 1);
    CutPartition(bs, live, heap, i, n);
    assert bs[i - 1].addr + bs[i - 1].size < bs[i].addr;
    forall a | a in live ensures a != bs[i].addr && a != bs[i - 1].addr { NotListed(bs, live, heap, a); }
  }

  lemma CutBelow(bs: seq<Blk>, i: nat, n: nat)
    requires Ordered(bs) && 0 < i < |bs| && n <= bs[i].size
    ensures i - 1 < |Cut(bs, i, n)| && Cut(bs, i, n)[i - 1] == bs[i - 1] && bs[i - 1].addr >= bs[0].addr
  {
  }

  lemma EmptyPartition(base: nat, heap: set<nat>)
    requires Partition([], map[], heap)
    ensures Partition([Blk(base, 0)], map[], heap) && Ordered([Blk(base, 0)])
  {
    forall u: nat ensures !IsFree([Blk(base, 0)], u) && !IsFree([], u) && !Live(map[], u) {
    }
  }

  lemma RingLink(mem: Mem, bs: seq<Blk>, i: nat)
    requires Represents(mem, bs) && Ordered(bs) && i < |bs|
    ensures LinkOk(mem, bs, i) && bs[0].size == 0
  {
  }

  lemma RingDistinct(bs: seq<Blk>, i: nat, j: nat)
    requires Ordered(bs) && i < |bs| && j < |bs| && bs[i].addr == bs[j].addr
    ensures i == j
  {
    assert bs[i].addr + bs[i].size < bs[j].addr || j <= i;
    assert bs[j].addr + bs[j].size < bs[i].addr || i <= j;
  }

  /** How many steps along the ring of n elements lead from i to j. */
  function Steps(n: nat, i: nat, j: nat): (r: nat)
    requires i < n && j < n
    ensures r < n
  {
    if i <= j then j - i else n - i + j
  }

  /** Some free block has n units. */
  ghost predicate Fits(bs: seq<Blk>, n: nat) {
    exists j :: 0 <= j < |bs| && bs[j].size >= n
  }

  /** The search for n units that ends at f and has come to i found every block before i too small. */
  ghost predicate Passed(bs: seq<Blk>, n: nat, i: nat, f: nat)
    requires i < |bs| && f < |bs|
  {
    forall j :: 0 <= j < |bs| && Steps(|bs|, i, j) > Steps(|bs|, i, f) ==> bs[j].size < n
  }

  lemma FitsHere(bs: seq<Blk>, n: nat, i: nat)
    requires i < |bs| && bs[i].size >= n
    ensures Fits(bs, n)
  {
  }

  lemma PassedFirst(bs: seq<Blk>, n: nat, f: nat)
    requires f < |bs|
    ensures Passed(bs, n, NextIndex(bs, f), f)
  {
  }

  lemma PassedOne(bs: seq<Blk>, n: nat, i: nat, f: nat)
    requires i < |bs| && f < |bs| && Passed(bs, n, i, f) && bs[i].size < n
    ensures i == f ==> !Fits(bs, n)
    ensures i != f ==> Passed(bs, n, NextIndex(bs, i), f)
  {
    forall j | 0 <= j < |bs| && (i == f || Steps(|bs|, NextIndex(bs, i), j) > Steps(|bs|, NextIndex(bs, i), f))
      ensures bs[j].size < n
    {
      assert j == i || Steps(|bs|, i, j) > Steps(|bs|, i, f);
    }
  }

  class Allocator {
    // The address of the static header `base`, and the end of what sbrk has returned.
    const base: nat
    var brk: nat
    var mem: Mem
    var freep: nat
    // The free list, the allocated blocks, and the units obtained from sbrk so far.
    ghost var bs: seq<Blk>
    ghost var live: map<nat, nat>
    ghost var heap: set<nat>

    /** freep is element f of the list. */
    ghost predicate ListOk(f: nat)
      reads this
    {
      && Represents(mem, bs) && Ordered(bs) && bs[0] == Blk(base, 0)
      && f < |bs| && freep == bs[f].addr >= base
    }

    ghost predicate HeapOk()
      reads this
    {
      && Partition(bs, live, heap)
      && (forall u :: u in heap ==> base < u < brk)
      && (forall a :: a in live ==> a in mem && mem[a].size == live[a])
    }

    ghost predicate Valid()
      reads this
    {
      && 0 < base < brk && HeapOk()
      && if freep == 0 then bs == [] && live == map[] else exists f :: ListOk(f)
    }

    constructor (base: nat, brk: nat)
      requires 0 < base < brk
      ensures Valid() && this.base == base && this.brk == brk && live == map[] && heap == {}
    {
      this.base, this.brk := base, brk;
      mem, freep := map[], 0;
      bs, live, heap := [], map[], {};
    }

    // The search loop of free: the last list element below bp.
    method FindGap(bp: nat, ghost f: nat) returns (p: nat, ghost k: nat)
      requires ListOk(f) && bp > base
      requires forall i :: 0 <= i < |bs| ==> bs[i].addr != bp
      ensures k < |bs| && p == bs[k].addr < bp && (k + 1 < |bs| ==> bp <= bs[k + 1].addr)
    {
      ghost var t := GapOf(bs, bp);
      p, k := freep, f;
      while !(bp > p && bp < mem[p].ptr)
        invariant k < |bs| && p == bs[k].addr
        decreases Steps(|bs|, k, t)
      {
        assert LinkOk(mem, bs, k);
        if p >= mem[p].ptr && (bp > p || bp < mem[p].ptr) {
          break;
        }
        k := NextIndex(bs, k);
        p := mem[p].ptr;
      }
      assert LinkOk(mem, bs, k);
    }

    // The assignments of free, with p the list element before bp.
    method Link(p: nat, bp: nat)
      requires p in mem && bp in mem && mem[p].ptr in mem && p != bp && mem[p].ptr != bp
      modifies this`mem, this`freep
      ensures mem == FreedMem(old(mem), p, bp) && freep == p
    {
      if bp + mem[bp].size == mem[p].ptr {
        mem := mem[bp := Header(mem[mem[p].ptr].ptr, mem[bp].size + mem[mem[p].ptr].size)];
      } else {
        mem := mem[bp := Header(mem[p].ptr, mem[bp].size)];
      }
      if p + mem[p].size == bp {
        mem := mem[p := Header(mem[bp].ptr, mem[p].size + mem[bp].size)];
      } else {
        mem := mem[p := Header(bp, mem[p].size)];
      }
      freep := p;
    }

    /** free, on a block of the list's own heap; k is where it went in. */
    method FreeAt(bp: nat, ghost f: nat) returns (ghost k: nat)
      requires ListOk(f) && HeapOk() && bp in live
      modifies this`mem, this`freep, this`bs, this`live
      ensures k < |old(bs)| && InGap(old(bs), k, Blk(bp, old(live)[bp]))
      ensures bs == Insert(old(bs), k, Blk(bp, old(live)[bp])) && live == old(live) - {bp}
      ensures ListOk(k) && HeapOk()
    {
      NotListed(bs, live, heap, bp);
      var p;
      p, k := FindGap(bp, f);
      LiveInGap(bs, live, heap, k, bp);
      ghost var b := Blk(bp, live[bp]);
      FreePartition(bs, live, heap, k, bp);
      InsertOrdered(bs, k, b);
      FreedRepresents(mem, bs, k, b);
      FreedLive(mem, bs, live, heap, k, bp);
      assert Insert(bs, k, b)[k].addr == bs[k].addr && k < |Insert(bs, k, b)|;
      assert LinkOk(mem, bs, k);
      assert p >= base;
      hide Partition, FreedMem, Insert, InGap, Ordered, Represents;
      Link(p, bp);
      bs, live := Insert(bs, k, b), live - {bp};
    }

    /** free: the block's units become free, and nothing else changes hands. */
    method Free(ap: nat)
      requires Valid() && ap > 0 && ap - 1 in live
      modifies this`mem, this`freep, this`bs, this`live
      ensures Valid() && live == old(live) - {ap - 1}
    {
      hide Partition, Represents, Ordered;
      ghost var f :| ListOk(f);
      ghost var k := FreeAt(ap - 1, f);
      assert ListOk(k);
    }

    // The new memory that sbrk returned, as one allocated block.
    method Extend(nu: nat, gap: nat, ghost f: nat) returns (hp: nat)
      requires 0 < base < brk && ListOk(f) && HeapOk() && nu > 0
      modifies this`mem, this`brk, this`live, this`heap
      ensures hp == old(brk) + gap && brk == hp + nu && hp !in old(live)
      ensures live == old(live)[hp := nu] && heap == old(heap) + Units(hp, nu)
      ensures ListOk(f) && HeapOk()
    {
      hide Partition, Represents, Ordered, Units;
      hp := brk + gap;
      BelowBreak(bs, live, heap, brk);
      GrowPartition(bs, live, heap, hp, nu);
      RepresentsWith(mem, bs, hp, Header(if hp in mem then mem[hp].ptr else 0, nu));
      brk := hp + nu;
      mem := mem[hp := Header(if hp in mem then mem[hp].ptr else 0, nu)];
      live, heap := live[hp := nu], heap + Units(hp, nu);
    }

    /** morecore: at least nu units, and never less than 4096, join the free list.
        grant is what sbrk says: refused, or granted beyond a gap of that many units. */
    method MoreCore(nu: nat, grant: Option<nat>, ghost f: nat) returns (ok: bool, ghost k: nat, ghost t: nat)
      requires 0 < base < brk && ListOk(f) && HeapOk() && nu > 0
      modifies this
      ensures ok <==> grant.Some?
      ensures !ok ==> k == f && bs == old(bs) && heap == old(heap) && brk == old(brk)
      ensures live == old(live) && ListOk(k) && HeapOk() && base < brk
      ensures ok ==> brk == old(brk) + grant.value + (if nu < 4096 then 4096 else nu)
      ensures ok ==> heap == old(heap) + Units(old(brk) + grant.value, if nu < 4096 then 4096 else nu)
      ensures ok ==> t < |bs| && bs[t].size >= nu && t > 0 && (t == k || t == k + 1)
    {
      hide Partition, Represents, Ordered, Insert, InGap;
      var n := if nu < 4096 then 4096 else nu;
      k, t := f, 0;
      if grant.None? {
        return false, k, t;
      }
      var hp := Extend(n, grant.value, f);
      ghost var b := Blk(hp, live[hp]);
      k := FreeAt(hp, f);
      assert live == old(live);
      InsertedSize(old(bs), k, b);
      t := Place(old(bs), k, b);
      PlacePositive(old(bs), k, b);
      return true, k, t;
    }

    // malloc's assignments when the block at p, element i of the list, is large enough.
    method Take(prevp: nat, p: nat, n: nat, ghost i: nat) returns (a: nat)
      requires Represents(mem, bs) && Ordered(bs) && bs[0] == Blk(base, 0)
      requires HeapOk() && 0 < i < |bs| && p == bs[i].addr && prevp == bs[i - 1].addr && 0 < n <= bs[i].size
      modifies this`mem, this`freep, this`bs, this`live
      ensures a == Taken(old(bs), i, n).addr && a !in old(live) && live == old(live)[a := n]
      ensures bs == Cut(old(bs), i, n) && ListOk(i - 1) && HeapOk()
    {
      hide Partition, Represents, Ordered, Cut;
      CutPartition(bs, live, heap, i, n);
      CutRepresents(mem, bs, i, n);
      CutOrdered(bs, i, n);
      CutLive(mem, bs, live, heap, i, n);
      CutBelow(bs, i, n);
      ghost var mem' := CutMem(mem, prevp, p, n);
      a := p;
      if mem[p].size == n {
        mem := mem[prevp := Header(mem[p].ptr, mem[prevp].size)];
      } else {
        mem := mem[p := Header(mem[p].ptr, mem[p].size - n)];
        a := p + mem[p].size;
        mem := mem[a := Header(if a in mem then mem[a].ptr else 0, n)];
      }
      freep := prevp;
      assert mem == mem';
      bs, live := Cut(bs, i, n), live[a := n];
    }

    // The first call of malloc makes a list of base alone.
    method Init() returns (ghost f: nat)
      requires Valid()
      modifies this`mem, this`freep, this`bs
      ensures live == old(live) && ListOk(f) && HeapOk()
      ensures old(freep) != 0 ==> bs == old(bs) && freep == old(freep) && mem == old(mem)
      ensures old(freep) == 0 ==> bs == [Blk(base, 0)]
      ensures forall n: nat :: n > 0 ==> Fits(bs, n) == Fits(old(bs), n)
    {
      if freep == 0 {
        mem, freep := mem[base := Header(base, 0)], base;
        bs, f := [Blk(base, 0)], 0;
        assert LinkOk(mem, bs, 0);
        EmptyPartition(base, heap);
      } else {
        f :| ListOk(f);
      }
    }

    /** malloc: an unused block of enough units for nbytes and a header, after at most
        one call of morecore; 0 only when sbrk refuses. */
    method Malloc(nbytes: nat, grant: Option<nat>) returns (r: nat, calls: nat)
      requires Valid()
      modifies this
      ensures Valid() && calls <= 1
      ensures calls == 0 <==> Fits(old(bs), (nbytes + 15) / 16 + 1)
      ensures r == 0 <==> calls == 1 && grant.None?
      ensures r == 0 ==> live == old(live)
      ensures r > 0 ==>
                && r - 1 !in old(live) && live == old(live)[r - 1 := (nbytes + 15) / 16 + 1]
                && 16 * live[r - 1] >= nbytes + 16
      ensures calls == 0 || grant.None? ==> heap == old(heap) && brk == old(brk)
      ensures calls == 1 && grant.Some? ==>
                var n := (nbytes + 15) / 16 + 1;
                heap == old(heap) + Units(old(brk) + grant.value, if n < 4096 then 4096 else n)
    {
      hide Partition, Represents, Ordered, Allocator.HeapOk, Units, Fits, Passed, Cut, Taken;
      var nunits := (nbytes + 15) / 16 + 1;
      ghost var f := Init();
      calls := 0;
      var prevp := freep;
      ghost var i: nat, t: nat := NextIndex(bs, f), 0;
      assert LinkOk(mem, bs, f) by { RingLink(mem, bs, f); }
      PassedFirst(bs, nunits, f);
      var p := mem[prevp].ptr;
      while true
        invariant 0 < base < brk && ListOk(f) && HeapOk() && live == old(live) && calls <= 1
        invariant i < |bs| && p == bs[i].addr && prevp == bs[if i == 0 then |bs| - 1 else i - 1].addr
        invariant calls == 0 ==> heap == old(heap) && brk == old(brk)
        invariant calls == 0 ==> Passed(bs, nunits, i, f) && Fits(bs, nunits) == Fits(old(bs), nunits)
        invariant calls == 1 ==> !Fits(old(bs), nunits)
        invariant calls == 1 ==>
                    && grant.Some? && t < |bs| && bs[t].size >= nunits && Steps(|bs|, i, t) <= Steps(|bs|, i, f)
                    && heap == old(heap) + Units(old(brk) + grant.value, if nunits < 4096 then 4096 else nunits)
        decreases 1 - calls, Steps(|bs|, i, f)
      {
        RingLink(mem, bs, i);
        if mem[p].size >= nunits {
          assert i > 0;
          FitsHere(bs, nunits, i);
          var a := Take(prevp, p, nunits, i);
          assert ListOk(i - 1);
          return a + 1, calls;
        }
        if calls == 0 {
          PassedOne(bs, nunits, i, f);
        }
        if p == freep {
          assert i == f by { RingDistinct(bs, i, f); }
          var ok;
          ok, f, t := MoreCore(nunits, grant, f);
          calls := calls + 1;
          if !ok {
            assert ListOk(f);
            return 0, calls;
          }
          p, i := freep, f;
          RingLink(mem, bs, i);
        }
        prevp, i := p, NextIndex(bs, i);
        p := mem[p].ptr;
      }
    }
  }
}
