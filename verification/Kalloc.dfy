/**
 Reference-counted page allocation over one buddy pool per CPU (src/mm/kalloc.c).

 A page is named by its global number; page `g` belongs to pool `g / perCpu`. To its callers the allocator is a map of
 live blocks with their reference counts: free lists, page metadata and the split into pools do not show.
 */
module Kalloc {
  import opened Common
  import opened BuddyIndex
  import opened BuddyTiling
  import opened BuddyPool
  import opened Buddy

  function PagesFor(size: nat): nat
  {
    (size + PGSIZE - 1) / PGSIZE
  }

  /** `size_to_page_order`: the least order whose block holds `size` bytes. */
  method SizeToPageOrder(size: nat) returns (order: nat)
    ensures LeastOrder(size, order)
  {
    order := 0;
    var pageNum := PagesFor(size);
    var tmp := pageNum;
    while tmp > 1
      invariant pageNum > 0 ==> tmp >= 1
      invariant order > 0 ==> pageNum > 0
      invariant tmp * Pow2(order) <= pageNum < tmp * Pow2(order) + Pow2(order)
    {
      HalveBound(pageNum, tmp, Pow2(order));
      tmp := tmp / 2;
      order := order + 1;
    }
    assert pageNum > 0 ==> tmp * Pow2(order) == Pow2(order);
    if pageNum > Pow2(order) {
      order := order + 1;
    } else if order > 0 {
      assert Pow2(order) == 2 * Pow2(order - 1);
    }
  }

  lemma HalveBound(n: nat, t: nat, p: nat)
    requires t * p <= n < t * p + p
    ensures (t / 2) * (2 * p) <= n < (t / 2) * (2 * p) + 2 * p
  {
    var h := t / 2;
    assert t == 2 * h || t == 2 * h + 1;
    assert h * (2 * p) == (2 * h) * p;
    assert (2 * h + 1) * p == (2 * h) * p + p;
  }

  /** Outcome of an allocation: a page, no memory, or a failed assertion. */
  datatype Alloc = Got(page: nat) | NoMemory | Panic

  /** Outcome of `kfree`: the block went back to its pool, lost a reference, or was not referenced at all. */
  datatype Release = Freed | Dropped | BadFree

  /** A block of a pool. */
  type Block = (nat, Pos)

  datatype Request = Malloc(size: nat, cpu: nat) | Share(g: nat) | Free(g: nat)

  datatype Reply = Given(b: Block) | NoRoom | Panicked | Shared(b: Block) | LastGone(b: Block) | OneGone(b: Block) | Refused

  /** The block begins at global page `g`. */
  predicate Starts(b: Block, g: nat, perCpu: nat)
  {
    perCpu > 0 && b.0 == g / perCpu && Head(b.1.0, b.1.1) == g % perCpu
  }

  /** All pages of `b` exist and lie in no live block. */
  ghost predicate Room(blocks: map<Block, int>, perCpu: nat, b: Block)
  {
    forall p: nat :: InBlock(b.1, p) ==> p < perCpu && !Covered(blocks, b.0, p)
  }

  /** Page `p` of pool `i` lies in a live block. */
  ghost predicate Covered(blocks: map<Block, int>, i: nat, p: nat)
  {
    exists k: Pos :: (i, k) in blocks && InBlock(k, p)
  }

  /** Some pool of `n` has room for a block of the order. */
  ghost predicate RoomSomewhere(blocks: map<Block, int>, n: nat, perCpu: nat, order: nat)
  {
    exists i: nat, r: nat :: i < n && Room(blocks, perCpu, (i, (order, r)))
  }

  /** The answers a caller may get, over `n` pools. */
  ghost predicate Fair(blocks: map<Block, int>, n: nat, perCpu: nat, req: Request, reply: Reply)
  {
    match req
    case Malloc(size, _) =>
      exists order: nat :: LeastOrder(size, order) && FairMalloc(blocks, n, perCpu, order, reply)
    case Share(g) =>
      if reply.Shared? then reply.b in blocks && Starts(reply.b, g, perCpu)
      else reply.Refused? && forall b :: b in blocks ==> !Starts(b, g, perCpu)
    case Free(g) =>
      if reply.LastGone? then reply.b in blocks && Starts(reply.b, g, perCpu) && blocks[reply.b] == 1
      else if reply.OneGone? then reply.b in blocks && Starts(reply.b, g, perCpu) && blocks[reply.b] > 1
      else reply.Refused? && forall b :: b in blocks ==> !Starts(b, g, perCpu)
  }

  ghost predicate FairMalloc(blocks: map<Block, int>, n: nat, perCpu: nat, order: nat, reply: Reply)
  {
    if order > MAX_ORDER then reply.Panicked?
    else if !RoomSomewhere(blocks, n, perCpu, order) then reply.NoRoom?
    else reply.Given? && reply.b.0 < n && reply.b.1.0 == order && Room(blocks, perCpu, reply.b)
  }

  function Effect(blocks: map<Block, int>, reply: Reply): map<Block, int>
  {
    match reply
    case Given(b) => blocks[b := 1]
    case Shared(b) => if b in blocks then blocks[b := blocks[b] + 1] else blocks
    case OneGone(b) => if b in blocks then blocks[b := blocks[b] - 1] else blocks
    case LastGone(b) => blocks - {b}
    case _ => blocks
  }

  function Effects(blocks: map<Block, int>, replies: seq<Reply>): map<Block, int>
  {
    if replies == [] then blocks else Effect(Effects(blocks, replies[..|replies| - 1]), replies[|replies| - 1])
  }

  ghost predicate AllFair(blocks: map<Block, int>, n: nat, perCpu: nat, reqs: seq<Request>, replies: seq<Reply>)
    requires |reqs| == |replies|
  {
    reqs == [] ||
    (var k := |reqs| - 1;
     AllFair(blocks, n, perCpu, reqs[..k], replies[..k]) && Fair(Effects(blocks, replies[..k]), n, perCpu, reqs[k], replies[k]))
  }

  /** No page lies in two live blocks. */
  ghost predicate Disjoint(blocks: map<Block, int>)
  {
    forall b, c, p: nat :: b in blocks && c in blocks && b.0 == c.0 && InBlock(b.1, p) && InBlock(c.1, p) ==> b == c
  }

  /** Pages in all blocks of a set. */
  ghost function Pages(bs: set<Block>): nat
  {
    if bs == {} then 0
    else
      var b :| b in bs;
      Pages(bs - {b}) + Pow2(b.1.0)
  }

  lemma {:induction false} PagesAdd(bs: set<Block>, b: Block)
    requires b !in bs
    ensures Pages(bs + {b}) == Pages(bs) + Pow2(b.1.0)
  {
    var all := bs + {b};
    var c :| c in all && Pages(all) == Pages(all - {c}) + Pow2(c.1.0);
    if c == b {
      assert all - {c} == bs;
    } else {
      assert all - {c} == (bs - {c}) + {b};
      PagesAdd(bs - {c}, b);
      PagesAdd(bs - {c}, c);
      assert (bs - {c}) + {c} == bs;
    }
  }

  /** The blocks named in pool `i` are exactly those its callers hold. */
  ghost predicate Named(blocks: map<Block, int>, i: nat, lev: seq<nat>, F: set<Pos>)
  {
    forall k: Pos :: (i, k) in blocks <==> Held(lev, F, {}, k)
  }

  /** The same, before `k0` is entered. */
  ghost predicate NamedBut(blocks: map<Block, int>, i: nat, lev: seq<nat>, F: set<Pos>, k0: Pos)
  {
    (i, k0) !in blocks && forall k: Pos :: Held(lev, F, {}, k) <==> (i, k) in blocks || k == k0
  }

  lemma NamedInit(i: nat, lev: seq<nat>, F: set<Pos>, meta: seq<Page>, free: seq<FreeList>)
    requires Inv(lev, F, {}, meta, free) && forall p: nat :: p < |lev| ==> FreePage(lev, F, p)
    ensures Named(map[], i, lev, F)
  {
    hide Lists, Apart, Tiled, Heads, Flags;
    forall k: Pos
      ensures !Held(lev, F, {}, k)
    {
      if IsBlock(lev, k) {
        var h := Head(k.0, k.1);
        BinHead(k.0, k.1);
        assert FreePage(lev, F, h) && BlockOf(lev, h) == k;
      }
    }
  }

  lemma NamedAdd(blocks: map<Block, int>, i: nat, lev: seq<nat>, F: set<Pos>, k0: Pos)
    requires NamedBut(blocks, i, lev, F, k0)
    ensures (i, k0) !in blocks && Named(blocks[(i, k0) := 1], i, lev, F)
  {
    hide Held;
  }

  lemma NewHead(blocks: map<Block, int>, i: nat, lev: seq<nat>, F: set<Pos>, k0: Pos)
    requires NamedBut(blocks, i, lev, F, k0)
    ensures forall b :: b in blocks && b.0 == i ==> Head(b.1.0, b.1.1) != Head(k0.0, k0.1)
  {
    hide Held, Head;
    assert Held(lev, F, {}, k0);
    HeldDiffer(lev, F, k0);
    forall b | b in blocks && b.0 == i
      ensures Head(b.1.0, b.1.1) != Head(k0.0, k0.1)
    {
      assert b == (i, b.1) && Held(lev, F, {}, b.1);
    }
  }

  lemma NamedOut(blocks: map<Block, int>, i: nat, lev: seq<nat>, F: set<Pos>, k0: Pos)
    requires Named(blocks, i, lev, F) && (i, k0) in blocks
    ensures NamedBut(blocks - {(i, k0)}, i, lev, F, k0)
  {
    hide Held;
  }

  lemma NamedBack(blocks: map<Block, int>, i: nat, lev0: seq<nat>, F0: set<Pos>, lev: seq<nat>, F: set<Pos>, k0: Pos)
    requires NamedBut(blocks, i, lev0, F0, k0)
    requires forall k: Pos :: Held(lev, F, {}, k) <==> Held(lev0, F0, {}, k) && k != k0
    ensures Named(blocks, i, lev, F)
  {
    hide Held;
  }

  lemma NamedUpdate(blocks: map<Block, int>, j: nat, lev: seq<nat>, F: set<Pos>, b: Block, n: int)
    requires Named(blocks, j, lev, F) && (b.0 != j || b in blocks)
    ensures Named(blocks[b := n], j, lev, F)
  {
    hide Held;
  }

  lemma NamedElse(blocks: map<Block, int>, j: nat, lev: seq<nat>, F: set<Pos>, b: Block)
    requires Named(blocks, j, lev, F) && b.0 != j
    ensures Named(blocks - {b}, j, lev, F)
  {
    hide Held;
  }

  lemma TakeNamed(blocks: map<Block, int>, i: nat, lev0: seq<nat>, F0: set<Pos>, lev: seq<nat>, F: set<Pos>, k0: Pos)
    requires Named(blocks, i, lev0, F0) && !Held(lev0, F0, {}, k0)
    requires forall k: Pos :: Held(lev, F, {}, k) <==> Held(lev0, F0, {}, k) || k == k0
    ensures NamedBut(blocks, i, lev, F, k0)
  {
    hide Held;
  }

  lemma LevLength(lev: seq<nat>, F: set<Pos>, meta: seq<Page>, free: seq<FreeList>)
    requires Inv(lev, F, {}, meta, free)
    ensures |lev| == |meta|
  {
  }

  lemma RoomHere(blocks: map<Block, int>, n: nat, perCpu: nat, b: Block)
    requires Room(blocks, perCpu, b) && b.0 < n
    ensures RoomSomewhere(blocks, n, perCpu, b.1.0)
  {
    hide Room;
    assert b == (b.0, (b.1.0, b.1.1));
  }

  /** What the map of live blocks says of a pool: a page is free iff no live block covers it. */
  lemma CoverMeaning(blocks: map<Block, int>, i: nat, lev: seq<nat>, F: set<Pos>, meta: seq<Page>, free: seq<FreeList>, p: nat)
    requires Inv(lev, F, {}, meta, free) && Named(blocks, i, lev, F) && p < |lev|
    ensures FreePage(lev, F, p) <==> !Covered(blocks, i, p)
  {
    hide Lists, Apart, Tiled, Heads, Flags, InBlock;
    var b := BlockOf(lev, p);
    Partition(lev, p, b);
    if FreePage(lev, F, p) && Covered(blocks, i, p) {
      var k: Pos :| (i, k) in blocks && InBlock(k, p);
      assert Held(lev, F, {}, k);
      Partition(lev, p, k);
    }
    if !FreePage(lev, F, p) {
      assert Held(lev, F, {}, b);
    }
  }

  lemma RoomMeaning(blocks: map<Block, int>, i: nat, lev: seq<nat>, F: set<Pos>, meta: seq<Page>, free: seq<FreeList>, k: Pos)
    requires Inv(lev, F, {}, meta, free) && Named(blocks, i, lev, F)
    ensures FreeRun(lev, F, k) <==> Room(blocks, |lev|, (i, k))
  {
    hide Inv, Named, InBlock, Covered;
    forall p: nat | InBlock(k, p)
      ensures FreePage(lev, F, p) <==> p < |lev| && !Covered(blocks, i, p)
    {
      if p < |lev| {
        CoverMeaning(blocks, i, lev, F, meta, free, p);
      }
    }
  }

  /** Two live blocks of a pool have no page and no first page in common. */
  lemma NamedApart(blocks: map<Block, int>, i: nat, lev: seq<nat>, F: set<Pos>, meta: seq<Page>, free: seq<FreeList>, k: Pos, l: Pos)
    requires Inv(lev, F, {}, meta, free) && Named(blocks, i, lev, F) && (i, k) in blocks && (i, l) in blocks
    ensures k.0 <= MAX_ORDER && Head(k.0, k.1) == k.1 * Pow2(k.0) && Head(k.0, k.1) + Pow2(k.0) <= |lev|
    ensures forall p: nat :: InBlock(k, p) && InBlock(l, p) ==> k == l
    ensures Head(k.0, k.1) == Head(l.0, l.1) ==> k == l
  {
    hide Lists, Apart, Tiled, Heads, Flags, InBlock;
    assert Held(lev, F, {}, k) && Held(lev, F, {}, l);
    BlockInPool(lev, k);
    forall p: nat | InBlock(k, p) && InBlock(l, p)
      ensures k == l
    {
      Partition(lev, p, k);
      Partition(lev, p, l);
    }
    HeadsDiffer(lev, k);
  }

  function Sum(s: seq<int>): int
  {
    if s == [] then 0 else Sum(s[..|s| - 1]) + s[|s| - 1]
  }

  lemma {:induction false} SumUpdate(s: seq<int>, i: nat, v: int)
    requires i < |s|
    ensures Sum(s[i := v]) == Sum(s) + v - s[i]
  {
    var n := |s| - 1;
    if i < n {
      SumUpdate(s[..n], i, v);
      assert s[i := v][..n] == s[..n][i := v];
    } else {
      assert s[i := v][..n] == s[..n];
    }
  }

  lemma {:induction false} SumConst(n: nat, v: int)
    ensures Sum(seq(n, _ => v)) == n * v
  {
    if n > 0 {
      SumConst(n - 1, v);
      assert seq(n, _ => v)[..n - 1] == seq(n - 1, _ => v);
      assert n * v == (n - 1) * v + v;
    }
  }

  lemma GlobalPage(cpu: nat, page: nat, perCpu: nat)
    requires page < perCpu
    ensures (cpu * perCpu + page) / perCpu == cpu && (cpu * perCpu + page) % perCpu == page
  {
    var g := cpu * perCpu + page;
    assert g == perCpu * (g / perCpu) + g % perCpu;
    MultipleBetween(g / perCpu - cpu, perCpu, page - g % perCpu);
  }

  /** A multiple of `n` strictly between `-n` and `n` is zero. */
  lemma MultipleBetween(d: int, n: int, x: int)
    requires d * n == x && -n < x < n
    ensures d == 0
  {
    if d > 0 {
      MulAtLeast(d, n);
    } else if d < 0 {
      MulAtLeast(-d, n);
    }
  }

  lemma MulAtLeast(d: int, n: int)
    requires d >= 1 && n >= 0
    ensures d * n >= n && -d * n == -(d * n)
  {
  }

  class Memory {
    const npages: nat
    const perCpu: nat
    const pools: seq<Pool>
    const refcnt: array2<int>
    /** The pools and their arrays. */
    ghost const repr: set<object>
    var pagesCnt: int
    /** Free pages of each pool. */
    ghost var totals: seq<int>
    /** The live blocks and their reference counts. */
    ghost var blocks: map<Block, int>

    /** What never changes: one pool per CPU, all of one size and sharing nothing. */
    ghost predicate Layout()
    {
      && |pools| > 0 && perCpu == npages / |pools| && refcnt.Length0 == |pools| && refcnt.Length1 == perCpu
      && this !in repr && refcnt !in repr
      && (forall i: nat :: i < |pools| ==>
            && pools[i].meta.Length == perCpu
            && pools[i] in repr && pools[i].meta in repr && pools[i].free in repr)
      && (forall i: nat, j: nat :: i < j < |pools| ==>
            pools[i] != pools[j] && pools[i].meta != pools[j].meta && pools[i].free != pools[j].free)
    }

    ghost predicate PoolOk(i: nat)
      requires i < |pools|
      reads this`totals, pools[i], pools[i].meta, pools[i].free
    {
      pools[i].Valid() && |totals| == |pools| && totals[i] == pools[i].FreeTotal()
    }

    /** Reference counts are positive exactly at the heads of allocated blocks. */
    ghost predicate RefOk(i: nat, p: nat)
      requires Layout() && i < |pools| && p < perCpu
      reads pools[i].meta, refcnt
    {
      refcnt[i, p] >= 0 && (refcnt[i, p] > 0 <==> pools[i].meta[p].inUse)
    }

    ghost predicate Valid()
      reads this, repr, refcnt
    {
      && Layout() && |totals| == |pools|
      && (forall i: nat :: i < |pools| ==> PoolOk(i))
      && (forall i: nat, p: nat :: i < |pools| && p < perCpu ==> RefOk(i, p))
      && pagesCnt == Sum(totals) + npages % |pools|
      && Booked() && pagesCnt + Pages(blocks.Keys) == npages
    }

    /** The map of live blocks is what the pools and the counts say. */
    ghost predicate Booked()
      requires Layout()
      reads this`blocks, repr, refcnt
    {
      && (forall b :: b in blocks ==> b.0 < |pools| && CountOk(b))
      && (forall i: nat :: i < |pools| ==> Named(blocks, i, pools[i].lev, pools[i].F))
    }

    ghost predicate CountOk(b: Block)
      requires Layout() && b.0 < |pools| && b in blocks
      reads this`blocks, refcnt
    {
      var h := Head(b.1.0, b.1.1); h < perCpu && blocks[b] == refcnt[b.0, h]
    }

    /** A block of order `order` has just left pool `i` at `page`; nothing refers to it yet. */
    ghost predicate Pending(i: nat, page: nat, order: nat)
      reads this`totals, this`blocks, repr, refcnt
    {
      && Layout() && |totals| == |pools| && i < |pools| && page < perCpu && order <= MAX_ORDER
      && (forall j: nat :: j < |pools| ==> PoolOk(j))
      && (forall j: nat, p: nat :: j < |pools| && p < perCpu && (j != i || p != page) ==> RefOk(j, p))
      && pools[i].meta[page] == Page(true, order) && refcnt[i, page] == 0
      && page == Head(order, Bin(page, order))
      && (forall b :: b in blocks ==> b.0 < |pools| && CountOk(b))
      && (forall j: nat :: j < |pools| && j != i ==> Named(blocks, j, pools[j].lev, pools[j].F))
      && NamedBut(blocks, i, pools[i].lev, pools[i].F, (order, Bin(page, order)))
    }

    /** No pool has an aligned run of `2^order` free pages. */
    ghost predicate Exhausted(order: nat)
      requires Layout()
      reads repr
    {
      forall i: nat :: i < |pools| ==> !exists r: nat :: FreeRun(pools[i].lev, pools[i].F, (order, r))
    }

    /** `mm_init`: one pool per CPU; pages beyond a multiple of the CPU count belong to none. */
    constructor (npages: nat, ncpu: nat)
      requires ncpu > 0
      ensures Valid() && this.npages == npages && |pools| == ncpu && pagesCnt == npages
      ensures blocks == map[] && forall i: nat, p: nat :: i < ncpu && p < npages / ncpu ==> FreePage(pools[i].lev, pools[i].F, p)
    {
      hide Inv, FreePage, Weighted, Sum, Held;
      var ps, objects := MakePools(ncpu, npages / ncpu);
      this.npages, perCpu, pools, repr := npages, npages / ncpu, ps, objects;
      refcnt := new int[ncpu, npages / ncpu]((_, _) => 0);
      pagesCnt := npages;
      totals, blocks := seq(ncpu, _ => npages / ncpu), map[];
      SumConst(ncpu, npages / ncpu);
    }

    static method MakePools(n: nat, pages: nat) returns (ps: seq<Pool>, ghost objects: set<object>)
      ensures |ps| == n && fresh(objects)
      ensures forall i: nat :: i < n ==>
                && ps[i] in objects && ps[i].meta in objects && ps[i].free in objects
                && ps[i].Valid() && ps[i].meta.Length == pages && ps[i].FreeTotal() == pages && Named(map[], i, ps[i].lev, ps[i].F)
                && forall p: nat :: p < pages ==> FreePage(ps[i].lev, ps[i].F, p) && !ps[i].meta[p].inUse
      ensures forall i: nat, j: nat :: i < j < n ==>
                ps[i] != ps[j] && ps[i].meta != ps[j].meta && ps[i].free != ps[j].free
    {
      hide Inv, FreePage, Weighted, Named;
      ps, objects := [], {};
      while |ps| < n
        invariant |ps| <= n && fresh(objects)
        invariant forall i: nat :: i < |ps| ==>
                    && ps[i] in objects && ps[i].meta in objects && ps[i].free in objects
                    && ps[i].Valid() && ps[i].meta.Length == pages && ps[i].FreeTotal() == pages
                    && Named(map[], i, ps[i].lev, ps[i].F)
                    && forall p: nat :: p < pages ==> FreePage(ps[i].lev, ps[i].F, p) && !ps[i].meta[p].inUse
        invariant forall i: nat, j: nat :: i < j < |ps| ==>
                    ps[i] != ps[j] && ps[i].meta != ps[j].meta && ps[i].free != ps[j].free
      {
        var pool := new Pool(pages);
        NamedInit(|ps|, pool.lev, pool.F, pool.meta[..], pool.free[..]);
        ps := ps + [pool];
        objects := objects + {pool, pool.meta, pool.free};
      }
    }

    /** A pool none of whose objects changed is as well formed as before. */
    twostate lemma PoolKept(i: nat)
      requires i < |pools| && old(PoolOk(i)) && |totals| == |pools| && totals[i] == old(totals[i])
      requires unchanged(pools[i]) && unchanged(pools[i].meta) && unchanged(pools[i].free)
      ensures PoolOk(i)
    {
      assert pools[i].meta[..] == old(pools[i].meta[..]) && pools[i].free[..] == old(pools[i].free[..]);
    }

    /** One count goes up or down, and with it the block's entry. */
    method Recount(i: nat, page: nat, d: int) returns (b: Block)
      requires Valid() && i < |pools| && page < perCpu && refcnt[i, page] >= 1 && refcnt[i, page] + d >= 1
      modifies refcnt, this`blocks
      ensures Valid() && b in old(blocks) && b.0 == i && Head(b.1.0, b.1.1) == page && old(blocks)[b] == old(refcnt[i, page])
      ensures refcnt[i, page] == old(refcnt[i, page]) + d && blocks == old(blocks)[b := old(blocks)[b] + d]
    {
      hide Inv, Weighted, Sum, Held, FreePage, Head, Bin, Named;
      LiveAt(i, page);
      b := BlockAt(i, page);
      HeadsApart(b);
      refcnt[i, page] := refcnt[i, page] + d;
      blocks := blocks[b := blocks[b] + d];
      assert blocks.Keys == old(blocks.Keys);
      AllKept();
      forall j: nat | j < |pools|
        ensures Named(blocks, j, pools[j].lev, pools[j].F)
      {
        NamedUpdate(old(blocks), j, pools[j].lev, pools[j].F, b, blocks[b]);
      }
      forall j: nat, p: nat | j < |pools| && p < perCpu
        ensures RefOk(j, p)
      {
        assert old(RefOk(j, p));
      }
      forall c | c in blocks
        ensures c.0 < |pools| && CountOk(c)
      {
        assert old(CountOk(c));
      }
    }

    /** The block that begins at a page, as its metadata say. */
    function BlockAt(i: nat, page: nat): Block
      requires Layout() && i < |pools| && page < perCpu
      reads pools[i].meta
    {
      (i, (pools[i].meta[page].order, Bin(page, pools[i].meta[page].order)))
    }

    /** At a page with references a live block begins, and it has that many. */
    lemma LiveAt(i: nat, page: nat)
      requires Valid() && i < |pools| && page < perCpu && refcnt[i, page] >= 1
      ensures var b := BlockAt(i, page);
              b in blocks && Head(b.1.0, b.1.1) == page && blocks[b] == refcnt[i, page] && b.1.0 <= MAX_ORDER
      ensures pools[i].meta[page].inUse
    {
      hide Inv, Weighted, Sum, Held, FreePage, Head, Bin, IsBlock;
      assert RefOk(i, page) && PoolOk(i);
      HeldHead(pools[i].lev, pools[i].F, pools[i].meta[..], pools[i].free[..], page);
      BlockFacts(pools[i].lev, pools[i].F, {}, pools[i].meta[..], pools[i].free[..], BlockAt(i, page).1);
      assert Named(blocks, i, pools[i].lev, pools[i].F) && CountOk(BlockAt(i, page));
    }

    /** At any other page none does. */
    lemma NoBlockAt(i: nat, page: nat)
      requires Valid() && i < |pools| && page < perCpu && refcnt[i, page] < 1
      ensures forall b :: b in blocks && b.0 == i ==> Head(b.1.0, b.1.1) != page
    {
      hide Inv, Weighted, Sum, FreePage, Head, Bin, IsBlock;
      assert RefOk(i, page) && PoolOk(i);
      forall b | b in blocks && b.0 == i && Head(b.1.0, b.1.1) == page
        ensures false
      {
        assert Named(blocks, i, pools[i].lev, pools[i].F) && Held(pools[i].lev, pools[i].F, {}, b.1);
        BlockFacts(pools[i].lev, pools[i].F, {}, pools[i].meta[..], pools[i].free[..], b.1);
      }
    }

    lemma HeadsApart(b: Block)
      requires Valid() && b in blocks
      ensures forall c :: c in blocks && c.0 == b.0 && Head(c.1.0, c.1.1) == Head(b.1.0, b.1.1) ==> c == b
    {
      hide Inv, Weighted, Sum, Held, FreePage, Head, Bin, Named, InBlock;
      var i := b.0;
      assert PoolOk(i);
      forall c | c in blocks && c.0 == i && Head(c.1.0, c.1.1) == Head(b.1.0, b.1.1)
        ensures c == b
      {
        NamedApart(blocks, i, pools[i].lev, pools[i].F, pools[i].meta[..], pools[i].free[..], b.1, c.1);
      }
    }

    /** Live blocks are aligned, lie inside their pools and are pairwise disjoint. */
    lemma LiveBlocks()
      requires Valid()
      ensures Disjoint(blocks)
      ensures forall b :: b in blocks ==>
                var k := b.1;
                && b.0 < |pools| && blocks[b] >= 1 && k.0 <= MAX_ORDER
                && Head(k.0, k.1) == k.1 * Pow2(k.0) && Head(k.0, k.1) + Pow2(k.0) <= perCpu
    {
      hide Inv, Weighted, Sum, Held, FreePage, Head, Bin, Named, InBlock, Pow2;
      forall b, c | b in blocks && c in blocks && b.0 == c.0
        ensures forall p: nat :: InBlock(b.1, p) && InBlock(c.1, p) ==> b == c
        ensures b.1.0 <= MAX_ORDER && Head(b.1.0, b.1.1) == b.1.1 * Pow2(b.1.0) && Head(b.1.0, b.1.1) + Pow2(b.1.0) <= perCpu
      {
        var i := b.0;
        assert PoolOk(i);
        NamedApart(blocks, i, pools[i].lev, pools[i].F, pools[i].meta[..], pools[i].free[..], b.1, c.1);
        LevLength(pools[i].lev, pools[i].F, pools[i].meta[..], pools[i].free[..]);
      }
      forall b | b in blocks
        ensures b.0 < |pools| && blocks[b] >= 1
      {
        Positive(b);
      }
    }

    /** A page of a pool is free iff no live block covers it, and has references iff one begins there. */
    lemma BookMeaning(i: nat, p: nat)
      requires Valid() && i < |pools| && p < perCpu
      ensures FreePage(pools[i].lev, pools[i].F, p) <==> !Covered(blocks, i, p)
      ensures refcnt[i, p] >= 1 <==> exists b :: b in blocks && b.0 == i && Head(b.1.0, b.1.1) == p
      ensures forall b :: b in blocks && b.0 == i && Head(b.1.0, b.1.1) == p ==> blocks[b] == refcnt[i, p]
    {
      hide Inv, Weighted, Sum, Held, FreePage, Head, Bin, Named, Covered;
      assert PoolOk(i);
      LevLength(pools[i].lev, pools[i].F, pools[i].meta[..], pools[i].free[..]);
      CoverMeaning(blocks, i, pools[i].lev, pools[i].F, pools[i].meta[..], pools[i].free[..], p);
      if refcnt[i, p] >= 1 {
        LiveAt(i, p);
      } else {
        NoBlockAt(i, p);
      }
      forall b | b in blocks && b.0 == i && Head(b.1.0, b.1.1) == p
        ensures blocks[b] == refcnt[i, p]
      {
        assert CountOk(b);
      }
    }

    lemma Positive(b: Block)
      requires Valid() && b in blocks
      ensures b.0 < |pools| && blocks[b] >= 1
    {
      assert CountOk(b);
      var h := Head(b.1.0, b.1.1);
      assert RefOk(b.0, h);
      if refcnt[b.0, h] < 1 {
        NoBlockAt(b.0, h);
      }
    }

    /** `share_page`: one more reference to a live block; elsewhere its assertion fails. */
    method SharePage(g: nat) returns (ok: bool, b: Block)
      requires Valid() && perCpu > 0 && g / perCpu < |pools|
      modifies refcnt, this`blocks
      ensures Valid() && (ok ==> b in old(blocks) && Starts(b, g, perCpu))
      ensures !ok ==> forall c :: c in old(blocks) ==> !Starts(c, g, perCpu)
      ensures blocks == if ok then old(blocks)[b := old(blocks)[b] + 1] else old(blocks)
    {
      hide Inv, Weighted, Sum, Held, FreePage, Head, Bin;
      var cpu, page := g / perCpu, g % perCpu;
      assert RefOk(cpu, page);
      ok, b := refcnt[cpu, page] >= 1, (0, (0, 0));
      if ok {
        b := Recount(cpu, page, 1);
      } else {
        NoBlockAt(cpu, page);
      }
    }

    /** `buddy_get_pages` on pool `i`, with the free totals kept up to date. */
    method TakeFrom(i: nat, order: nat) returns (page: int)
      requires Valid() && i < |pools| && order <= MAX_ORDER
      modifies this`totals, pools[i], pools[i].meta, pools[i].free
      ensures page == -1 <==> !exists r: nat :: FreeRun(old(pools[i].lev), old(pools[i].F), (order, r))
      ensures page == -1 ==> Valid() && pools[i].lev == old(pools[i].lev) && pools[i].F == old(pools[i].F)
      ensures page != -1 ==> 0 <= page && Pending(i, page, order)
      ensures page != -1 ==> FreeRun(old(pools[i].lev), old(pools[i].F), (order, Bin(page, order)))
      ensures Sum(totals) == Sum(old(totals)) - (if page == -1 then 0 else Pow2(order))
    {
      hide Inv, Weighted, Sum, FreeRun, FreePage, Held, Pow2, Head, Bin;
      assert PoolOk(i);
      ghost var lev0, F0 := pools[i].lev, pools[i].F;
      page := pools[i].GetPages(order);
      SumUpdate(totals, i, pools[i].FreeTotal());
      totals := totals[i := pools[i].FreeTotal()];
      forall j: nat | j < |pools|
        ensures PoolOk(j)
      {
        if j != i {
          PoolKept(j);
        }
      }
      forall j: nat, p: nat | j < |pools| && p < perCpu
        ensures j != i || p != page ==> RefOk(j, p)
      {
        assert old(RefOk(j, p));
      }
      forall b | b in blocks
        ensures b.0 < |pools| && CountOk(b)
      {
        assert old(CountOk(b));
      }
      forall j: nat | j < |pools| && (j != i || page == -1)
        ensures Named(blocks, j, pools[j].lev, pools[j].F)
      {
        assert old(Named(blocks, j, pools[j].lev, pools[j].F));
      }
      if page != -1 {
        assert old(RefOk(i, page));
        TakeNamed(blocks, i, lev0, F0, pools[i].lev, pools[i].F, (order, Bin(page, order)));
      }
    }

    /** The search of `kmalloc` and `steal_mem`: the CPU's own pool first, then the others in order. */
    method TakeAny(cpu: nat, order: nat) returns (i: nat, page: int)
      requires Valid() && cpu < |pools| && order <= MAX_ORDER
      modifies this`totals, repr
      ensures page == -1 <==> old(Exhausted(order))
      ensures page == -1 ==> Valid()
      ensures page != -1 ==> 0 <= page && i < |pools| && Pending(i, page, order)
      ensures page != -1 ==> FreeRun(old(pools[i].lev), old(pools[i].F), (order, Bin(page, order)))
      ensures page != -1 && i != cpu ==> forall j: nat :: j < i || j == cpu ==>
                !exists r: nat :: FreeRun(old(pools[j].lev), old(pools[j].F), (order, r))
      ensures Sum(totals) == Sum(old(totals)) - (if page == -1 then 0 else Pow2(order))
    {
      hide Sum, FreeRun, Pow2, PoolOk, RefOk, Pending, Booked;
      i := cpu;
      page := TakeFrom(i, order);
      if page != -1 {
        return;
      }
      i := 0;
      while i < |pools|
        invariant i <= |pools| && page == -1 && Valid() && Sum(totals) == Sum(old(totals))
        invariant forall j: nat :: j < |pools| ==> pools[j].lev == old(pools[j].lev) && pools[j].F == old(pools[j].F)
        invariant forall j: nat :: j < i || j == cpu ==>
                    !exists r: nat :: FreeRun(old(pools[j].lev), old(pools[j].F), (order, r))
      {
        if i != cpu {
          page := TakeFrom(i, order);
          if page != -1 {
            return;
          }
        }
        i := i + 1;
      }
    }

    /** No pool has an aligned run of that many free pages iff the live blocks leave no room for one. */
    lemma ExhaustedMeaning(order: nat)
      requires Valid()
      ensures Exhausted(order) <==> !RoomSomewhere(blocks, |pools|, perCpu, order)
      ensures forall i: nat, r: nat :: i < |pools| ==>
                (FreeRun(pools[i].lev, pools[i].F, (order, r)) <==> Room(blocks, perCpu, (i, (order, r))))
    {
      hide Inv, Weighted, Sum, FreeRun, Room, Named;
      forall i: nat, r: nat | i < |pools|
        ensures FreeRun(pools[i].lev, pools[i].F, (order, r)) <==> Room(blocks, perCpu, (i, (order, r)))
      {
        RunIsRoom(i, (order, r));
      }
      if RoomSomewhere(blocks, |pools|, perCpu, order) {
        var i: nat, r: nat :| i < |pools| && Room(blocks, perCpu, (i, (order, r)));
        assert FreeRun(pools[i].lev, pools[i].F, (order, r));
      } else {
        forall i: nat | i < |pools|
          ensures !exists r: nat :: FreeRun(pools[i].lev, pools[i].F, (order, r))
        {
          forall r: nat
            ensures !FreeRun(pools[i].lev, pools[i].F, (order, r))
          {
            assert !Room(blocks, perCpu, (i, (order, r)));
          }
        }
      }
    }

    lemma RunIsRoom(i: nat, k: Pos)
      requires Valid() && i < |pools|
      ensures FreeRun(pools[i].lev, pools[i].F, k) <==> Room(blocks, perCpu, (i, k))
    {
      hide Inv, Weighted, Sum, FreeRun, Room, Named;
      assert PoolOk(i);
      LevLength(pools[i].lev, pools[i].F, pools[i].meta[..], pools[i].free[..]);
      RoomMeaning(blocks, i, pools[i].lev, pools[i].F, pools[i].meta[..], pools[i].free[..], k);
    }

    /**
     `kmalloc` (and `kalloc`, for one page): a block of the least sufficient order, where no live block was, with one
     reference; it comes from the CPU's own pool whenever that has room.
     */
    method Kmalloc(size: nat, cpu: nat) returns (r: Alloc, order: nat)
      requires Valid() && cpu < |pools|
      modifies this, repr, refcnt
      ensures Valid() && LeastOrder(size, order)
      ensures r.Panic? <==> order > MAX_ORDER
      ensures r.NoMemory? <==> order <= MAX_ORDER && !RoomSomewhere(old(blocks), |pools|, perCpu, order)
      ensures !r.Got? ==> blocks == old(blocks)
      ensures r.Got? ==>
                && perCpu > 0 && r.page / perCpu < |pools|
                && var i, p := r.page / perCpu, r.page % perCpu;
                   var b: Block := (i, (order, Bin(p, order)));
                   && Starts(b, r.page, perCpu) && pools[i].meta[p] == Page(true, order)
                   && Room(old(blocks), perCpu, b) && b !in old(blocks) && blocks == old(blocks)[b := 1]
                   && (i != cpu ==> !exists q: nat :: Room(old(blocks), perCpu, (cpu, (order, q))))
      ensures pagesCnt == old(pagesCnt) - (if r.Got? then Pow2(order) else 0)
    {
      hide Sum, Pow2, PoolOk, RefOk, Booked, Room, RoomSomewhere, Pages, Head, Bin;
      if size > PGSIZE {
        order := SizeToPageOrder(size);
      } else {
        order := 0;
        OnePage(size);
      }
      if order > MAX_ORDER {
        return Panic, order;
      }
      var i, page := Obtain(cpu, order);
      if page == -1 {
        return NoMemory, order;
      }
      GlobalPage(i, page, perCpu);
      r := Got(i * perCpu + page);
    }

    /** A block of the order from some pool, with its first reference. */
    method Obtain(cpu: nat, order: nat) returns (i: nat, page: int)
      requires Valid() && cpu < |pools| && order <= MAX_ORDER
      modifies this, repr, refcnt
      ensures Valid() && (page == -1 <==> !RoomSomewhere(old(blocks), |pools|, perCpu, order))
      ensures page == -1 ==> blocks == old(blocks) && pagesCnt == old(pagesCnt)
      ensures page != -1 ==>
                && 0 <= page < perCpu && i < |pools| && pools[i].meta[page] == Page(true, order)
                && pagesCnt == old(pagesCnt) - Pow2(order)
                && var b: Block := (i, (order, Bin(page, order)));
                   && Head(order, Bin(page, order)) == page
                   && Room(old(blocks), perCpu, b) && b !in old(blocks) && blocks == old(blocks)[b := 1]
                   && (i != cpu ==> !exists q: nat :: Room(old(blocks), perCpu, (cpu, (order, q))))
    {
      hide Sum, FreeRun, Pow2, PoolOk, RefOk, Booked, Room, RoomSomewhere, Named, Pages, Head, Bin;
      ExhaustedMeaning(order);
      i, page := TakeAny(cpu, order);
      if page == -1 {
        return;
      }
      if i != cpu {
        forall q: nat
          ensures !Room(old(blocks), perCpu, (cpu, (order, q)))
        {
          assert !FreeRun(old(pools[cpu].lev), old(pools[cpu].F), (order, q));
        }
      }
      FirstReference(i, page, order);
    }

    /** The end of `kmalloc`: the count found is 0, and becomes 1. */
    method FirstReference(i: nat, page: nat, ghost order: nat)
      requires Pending(i, page, order) && pagesCnt - Pow2(order) == Sum(totals) + npages % |pools|
      requires pagesCnt + Pages(blocks.Keys) == npages
      modifies this`pagesCnt, this`blocks, refcnt
      ensures Valid() && (i, (order, Bin(page, order))) !in old(blocks) && page == Head(order, Bin(page, order))
      ensures blocks == old(blocks)[(i, (order, Bin(page, order))) := 1]
      ensures pagesCnt == old(pagesCnt) - Pow2(order) && pools[i].meta[page] == Page(true, order)
    {
      hide Inv, Weighted, Sum, Pow2, Head, Bin, Held, Pages, Named, NamedBut;
      ghost var b: Block := (i, (order, Bin(page, order)));
      NamedAdd(blocks, i, pools[i].lev, pools[i].F, b.1);
      NewHead(blocks, i, pools[i].lev, pools[i].F, b.1);
      PagesAdd(blocks.Keys, b);
      refcnt[i, page] := 1;
      pagesCnt := pagesCnt - Pow2(pools[i].meta[page].order);
      blocks := blocks[b := 1];
      assert blocks.Keys == old(blocks.Keys) + {b};
      AllKept();
      forall j: nat, p: nat | j < |pools| && p < perCpu
        ensures RefOk(j, p)
      {
        if j != i || p != page {
          assert old(RefOk(j, p));
        }
      }
      forall j: nat | j < |pools|
        ensures Named(blocks, j, pools[j].lev, pools[j].F)
      {
        if j != i {
          NamedUpdate(old(blocks), j, pools[j].lev, pools[j].F, b, 1);
        }
      }
      forall c | c in blocks
        ensures c.0 < |pools| && CountOk(c)
      {
        if c != b {
          assert old(CountOk(c));
        }
      }
    }

    twostate lemma AllKept()
      requires Layout() && |totals| == |pools| && totals == old(totals)
      requires forall j: nat :: j < |pools| ==> old(PoolOk(j))
      requires unchanged(repr)
      ensures forall j: nat :: j < |pools| ==> PoolOk(j)
    {
      forall j: nat | j < |pools|
        ensures PoolOk(j)
      {
        PoolKept(j);
      }
    }

    /** `kfree`: drop one reference; the last one sends the block back to the pool it came from. */
    method Kfree(g: nat) returns (r: Release, b: Block)
      requires Valid() && perCpu > 0 && g / perCpu < |pools|
      modifies this, repr, refcnt
      ensures Valid()
      ensures r.BadFree? ==> blocks == old(blocks) && forall c :: c in blocks ==> !Starts(c, g, perCpu)
      ensures !r.BadFree? ==> b in old(blocks) && Starts(b, g, perCpu)
      ensures r.Dropped? ==> old(blocks)[b] > 1 && blocks == old(blocks)[b := old(blocks)[b] - 1]
      ensures r.Freed? ==> old(blocks)[b] == 1 && blocks == old(blocks) - {b}
      ensures pagesCnt == old(pagesCnt) + if r.Freed? then Pow2(b.1.0) else 0
    {
      hide Inv, Weighted, Sum, Pow2, Held, FreePage, Bin, InBlock, Head, Named, Pages;
      var id, page := g / perCpu, g % perCpu;
      assert RefOk(id, page);
      b := (0, (0, 0));
      if refcnt[id, page] < 1 {
        NoBlockAt(id, page);
        return BadFree, b;
      }
      if refcnt[id, page] > 1 {
        b := Recount(id, page, -1);
        return Dropped, b;
      }
      LiveAt(id, page);
      b := BlockAt(id, page);
      LastReference(id, page);
      ReturnBlock(id, page);
      r := Freed;
    }

    /** `buddy_free_pages` on pool `id`, with the free totals kept up to date. */
    method GiveBack(id: nat, page: nat)
      requires Layout() && |totals| == |pools| && forall j: nat :: j < |pools| ==> PoolOk(j)
      requires id < |pools| && page < perCpu && pools[id].meta[page].inUse
      modifies this`totals, pools[id], pools[id].meta, pools[id].free
      ensures |totals| == |pools| && forall j: nat :: j < |pools| ==> PoolOk(j)
      ensures forall j: Pos :: Held(pools[id].lev, pools[id].F, {}, j) <==>
                Held(old(pools[id].lev), old(pools[id].F), {}, j) && j != old(BlockAt(id, page)).1
      ensures forall p: nat :: p < perCpu ==> (pools[id].meta[p].inUse <==> old(pools[id].meta[p].inUse) && p != page)
      ensures Sum(totals) == Sum(old(totals)) + Pow2(old(pools[id].meta[page].order))
    {
      hide Inv, Weighted, Sum, Pow2, Held, FreePage, Bin, InBlock, Head;
      assert PoolOk(id);
      pools[id].FreePages(page);
      SumUpdate(totals, id, pools[id].FreeTotal());
      totals := totals[id := pools[id].FreeTotal()];
      forall j: nat | j < |pools|
        ensures PoolOk(j)
      {
        if j != id {
          PoolKept(j);
        }
      }
    }

    /** The last reference goes: the block is live no longer. */
    method LastReference(id: nat, page: nat)
      requires Valid() && id < |pools| && page < perCpu && refcnt[id, page] == 1
      modifies this`pagesCnt, this`blocks, refcnt
      ensures var order := pools[id].meta[page].order;
              && Pending(id, page, order) && pagesCnt - Pow2(order) == Sum(totals) + npages % |pools|
              && pagesCnt == old(pagesCnt) + Pow2(order)
      ensures blocks == old(blocks) - {BlockAt(id, page)} && pagesCnt + Pages(blocks.Keys) == npages
    {
      hide Inv, Weighted, Sum, Pow2, Held, FreePage, Bin, InBlock, Head, Named, NamedBut, Pages;
      ghost var b, was := BlockAt(id, page), blocks;
      LiveAt(id, page);
      HeadsApart(b);
      PagesAdd(was.Keys - {b}, b);
      assert was.Keys - {b} + {b} == was.Keys;
      NamedOut(was, id, pools[id].lev, pools[id].F, b.1);
      refcnt[id, page] := refcnt[id, page] - 1;
      pagesCnt := pagesCnt + Pow2(pools[id].meta[page].order);
      blocks := blocks - {b};
      assert blocks.Keys == was.Keys - {b};
      AllKept();
      forall j: nat | j < |pools| && j != id
        ensures Named(blocks, j, pools[j].lev, pools[j].F)
      {
        NamedElse(was, j, pools[j].lev, pools[j].F, b);
      }
      forall j: nat, p: nat | j < |pools| && p < perCpu && (j != id || p != page)
        ensures RefOk(j, p)
      {
        assert old(RefOk(j, p));
      }
      forall c | c in blocks
        ensures c.0 < |pools| && CountOk(c)
      {
        assert old(CountOk(c));
      }
    }

    /** The end of `kfree`: the block goes back to its pool. */
    method ReturnBlock(id: nat, page: nat)
      requires Layout() && id < |pools| && page < perCpu && Pending(id, page, pools[id].meta[page].order)
      requires pagesCnt - Pow2(pools[id].meta[page].order) == Sum(totals) + npages % |pools|
      requires pagesCnt + Pages(blocks.Keys) == npages
      modifies this`totals, pools[id], pools[id].meta, pools[id].free
      ensures Valid()
    {
      hide Inv, Weighted, Sum, Pow2, Held, FreePage, Bin, InBlock, Head, Named, NamedBut, Pages;
      ghost var k, lev0, F0 := BlockAt(id, page).1, pools[id].lev, pools[id].F;
      GiveBack(id, page);
      NamedBack(blocks, id, lev0, F0, pools[id].lev, pools[id].F, k);
      forall j: nat | j < |pools| && j != id
        ensures Named(blocks, j, pools[j].lev, pools[j].F)
      {
        assert old(Named(blocks, j, pools[j].lev, pools[j].F));
      }
      forall j: nat, p: nat | j < |pools| && p < perCpu
        ensures RefOk(j, p)
      {
        if j != id || p != page {
          assert old(RefOk(j, p));
        }
      }
      forall c | c in blocks
        ensures c.0 < |pools| && CountOk(c)
      {
        assert old(CountOk(c));
      }
    }

    method ServeMalloc(size: nat, cpu: nat) returns (reply: Reply)
      requires Valid() && cpu < |pools|
      modifies this, repr, refcnt
      ensures Valid() && blocks == Effect(old(blocks), reply)
      ensures exists order: nat :: LeastOrder(size, order) && FairMalloc(old(blocks), |pools|, perCpu, order, reply)
    {
      hide Layout, Booked, PoolOk, RefOk, Room, RoomSomewhere, LeastOrder, Pow2, Pages, Sum, Head, Bin;
      var r, order := Kmalloc(size, cpu);
      match r {
        case Panic => reply := Panicked;
        case NoMemory => reply := NoRoom;
        case Got(g) =>
          reply := Given((g / perCpu, (order, Bin(g % perCpu, order))));
          RoomHere(old(blocks), |pools|, perCpu, reply.b);
      }
      assert FairMalloc(old(blocks), |pools|, perCpu, order, reply);
    }

    /** Any single request acts as on a map of live blocks, and is answered fairly. */
    method Serve(req: Request) returns (reply: Reply)
      requires Valid() && InRange(req)
      modifies this, repr, refcnt
      ensures Valid() && blocks == Effect(old(blocks), reply) && Fair(old(blocks), |pools|, perCpu, req, reply)
    {
      hide Layout, Booked, PoolOk, RefOk, FairMalloc, LeastOrder, Pow2, Pages, Sum, Starts;
      match req {
        case Malloc(size, cpu) => reply := ServeMalloc(size, cpu);
        case Share(g) =>
          var ok, b := SharePage(g);
          reply := if ok then Shared(b) else Refused;
        case Free(g) =>
          var r, b := Kfree(g);
          reply := match r case Freed => LastGone(b) case Dropped => OneGone(b) case BadFree => Refused;
      }
    }

    /** The CPU exists, or the page lies in a pool. */
    ghost predicate InRange(req: Request)
    {
      match req
      case Malloc(_, cpu) => cpu < |pools|
      case Share(g) => perCpu > 0 && g / perCpu < |pools|
      case Free(g) => perCpu > 0 && g / perCpu < |pools|
    }

    /**
     Any run of kmalloc, share_page and kfree acts as on a map of live blocks. Every answer is fair, live blocks stay
     disjoint, and no page is lost: the counter and the live blocks make up all pages.
     */
    method Run(reqs: seq<Request>) returns (replies: seq<Reply>)
      requires Valid() && forall k :: 0 <= k < |reqs| ==> InRange(reqs[k])
      modifies this, repr, refcnt
      ensures Valid() && |replies| == |reqs|
      ensures blocks == Effects(old(blocks), replies) && AllFair(old(blocks), |pools|, perCpu, reqs, replies)
      ensures Disjoint(blocks) && pagesCnt + Pages(blocks.Keys) == npages
    {
      replies := [];
      while |replies| < |reqs|
        invariant |replies| <= |reqs| && Valid() && blocks == Effects(old(blocks), replies)
        invariant AllFair(old(blocks), |pools|, perCpu, reqs[..|replies|], replies)
      {
        hide Layout, Booked, PoolOk, RefOk, Fair, Effect, Pages, Sum;
        var k := |replies|;
        var reply := Serve(reqs[k]);
        assert reqs[..k + 1][..k] == reqs[..k] && (replies + [reply])[..k] == replies;
        replies := replies + [reply];
      }
      assert reqs[..|replies|] == reqs;
      LiveBlocks();
    }

    /** `get_free_mem`: `pages_cnt` tells the same iff every page belongs to some pool. */
    method GetFreeMem() returns (bytes: int)
      requires Valid()
      ensures bytes == PGSIZE * Sum(totals)
      ensures bytes == pagesCnt * PGSIZE <==> npages % |pools| == 0
    {
      bytes := 0;
      for cpu := 0 to |pools|
        invariant bytes == PGSIZE * Sum(totals[..cpu])
      {
        assert PoolOk(cpu);
        var poolBytes := pools[cpu].FreeBytes();
        bytes := bytes + poolBytes;
        assert totals[..cpu + 1][..cpu] == totals[..cpu];
      }
      assert totals[..|pools|] == totals;
    }
  }

  /** Three pages and two CPUs: one page is counted as free and belongs to no pool. */
  method CountedOutsidePools() returns (m: Memory, bytes: int)
    ensures fresh(m) && m.Valid() && m.pagesCnt * PGSIZE == 12288 && bytes == 8192
  {
    hide Sum;
    m := new Memory(3, 2);
    bytes := m.GetFreeMem();
  }

  ghost predicate LeastOrder(size: nat, order: nat)
  {
    PagesFor(size) <= Pow2(order) && (order > 0 ==> Pow2(order - 1) < PagesFor(size))
  }

  lemma OnePage(size: nat)
    requires size <= PGSIZE
    ensures LeastOrder(size, 0)
  {
  }
}
