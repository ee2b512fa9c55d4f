/**
 The buddy allocator of src/mm/buddy.c for one pool of any number of pages.
 */
module Buddy {
  import opened Common
  import opened BuddyIndex
  import opened BuddyTiling
  import opened BuddyPool

  /** `p ^ (1 << k)`. */
  function FlipBit(p: nat, k: nat): int
  {
    if Bin(p, k) % 2 == 0 then p + Pow2(k) else p - Pow2(k)
  }

  lemma SiblingHead(k: nat, q: nat)
    ensures Head(k, Sibling(q)) == if q % 2 == 0 then Head(k, q) + Pow2(k) else Head(k, q) - Pow2(k)
  {
    HeadIsMultiple(k, q);
    HeadIsMultiple(k, Sibling(q));
    if q % 2 == 0 {
      assert (q + 1) * Pow2(k) == q * Pow2(k) + Pow2(k);
    } else {
      assert q * Pow2(k) == (q - 1) * Pow2(k) + Pow2(k);
    }
  }

  lemma FlipIsBuddy(k: nat, q: nat)
    ensures FlipBit(Head(k, q), k) == Head(k, Sibling(q))
  {
    BinHead(k, q);
    SiblingHead(k, q);
  }

  /** The page at the same offset in the other half of the next larger block. */
  ghost function Counterpart(p: nat, k: nat): int
  {
    Head(k, Sibling(Bin(p, k))) + (p - Head(k, Bin(p, k)))
  }

  /** Flipping the bit of weight `2^k` goes to the counterpart, and back. */
  lemma FlipMeaning(p: nat, k: nat)
    ensures FlipBit(p, k) == Counterpart(p, k)
    ensures FlipBit(p, k) >= 0 && FlipBit(FlipBit(p, k), k) == p
  {
    hide Head, Bin, Pow2;
    var q := Bin(p, k);
    SiblingHead(k, q);
    BlockInterval(k, q, p);
    BlockInterval(k, Sibling(q), FlipBit(p, k));
  }

  /** At the head of a block it is the head of the buddy. */
  lemma CounterpartOfHead(k: nat, q: nat)
    ensures Counterpart(Head(k, q), k) == Head(k, Sibling(q))
  {
    BinHead(k, q);
  }

  /** Block `j` belongs to some caller: it is neither free nor in hand. */
  ghost predicate Held(lev: seq<nat>, F: set<Pos>, hand: set<Pos>, j: Pos)
  {
    IsBlock(lev, j) && j !in F && j !in hand
  }

  /** Page `p` is free or lies in a block in hand. */
  ghost predicate Loose(lev: seq<nat>, F: set<Pos>, hand: set<Pos>, p: nat)
  {
    FreePage(lev, F, p) || exists k :: k in hand && InBlock(k, p)
  }

  /** The callers' blocks and the pages left to the pool are the same in two states. */
  ghost predicate SameView(lev: seq<nat>, F: set<Pos>, hand: set<Pos>, lev': seq<nat>, F': set<Pos>, hand': set<Pos>)
  {
    && |lev| == |lev'|
    && (forall j: Pos :: Held(lev', F', hand', j) <==> Held(lev, F, hand, j))
    && (forall p: nat :: Loose(lev', F', hand', p) <==> Loose(lev, F, hand, p))
  }

  lemma LooseOne(lev: seq<nat>, F: set<Pos>, k: Pos, p: nat)
    ensures Loose(lev, F, {k}, p) <==> FreePage(lev, F, p) || InBlock(k, p)
    ensures Loose(lev, F, {}, p) <==> FreePage(lev, F, p)
  {
    assert k in {k};
  }

  lemma SplitView(lev: seq<nat>, F: set<Pos>, meta: seq<Page>, free: seq<FreeList>, k: Pos)
    requires Inv(lev, F, {k}, meta, free) && k.0 > 0
    ensures SameView(lev, F, {k}, Relevel(lev, k, k.0 - 1), F + {Upper(k)}, {Lower(k)})
  {
    hide Tiled, Loose, Heads, Flags, Lists, Apart;
    assert k in {k};
    var lev', F' := Relevel(lev, k, k.0 - 1), F + {Upper(k)};
    forall j: Pos
      ensures Held(lev', F', {Lower(k)}, j) <==> Held(lev, F, {k}, j)
    {
      SplitBlocks(lev, k, j);
      SplitFacts(lev, k);
    }
    forall p: nat
      ensures Loose(lev', F', {Lower(k)}, p) <==> Loose(lev, F, {k}, p)
    {
      SplitPage(lev, F, k, p);
      LooseOne(lev', F', Lower(k), p);
      LooseOne(lev, F, k, p);
    }
  }

  lemma SplitPage(lev: seq<nat>, F: set<Pos>, k: Pos, p: nat)
    requires Tiled(lev) && FreeBlocks(lev, F, {k}) && IsBlock(lev, k) && k.0 > 0
    ensures FreePage(Relevel(lev, k, k.0 - 1), F + {Upper(k)}, p) || InBlock(Lower(k), p)
            <==> FreePage(lev, F, p) || InBlock(k, p)
  {
    hide Tiled;
    Partition(lev, p, k);
    assert k in {k};
    SplitFacts(lev, k);
    Partition(Relevel(lev, k, k.0 - 1), p, Lower(k));
  }

  lemma MergeView(lev: seq<nat>, F: set<Pos>, meta: seq<Page>, free: seq<FreeList>, k: Pos)
    requires Inv(lev, F, {k}, meta, free) && BuddyOf(k) in F && k.0 < MAX_ORDER
    ensures SameView(lev, F, {k}, Relevel(lev, Merged(k), k.0 + 1), F - {BuddyOf(k)}, {Merged(k)})
  {
    hide Tiled, Loose, Heads, Flags, Lists, Apart;
    assert k in {k};
    var lev', F' := Relevel(lev, Merged(k), k.0 + 1), F - {BuddyOf(k)};
    forall j: Pos
      ensures Held(lev', F', {Merged(k)}, j) <==> Held(lev, F, {k}, j)
    {
      MergeBlocks(lev, k, j);
      MergeFacts(lev, k);
    }
    forall p: nat
      ensures Loose(lev', F', {Merged(k)}, p) <==> Loose(lev, F, {k}, p)
    {
      MergePage(lev, F, k, p);
      LooseOne(lev', F', Merged(k), p);
      LooseOne(lev, F, k, p);
    }
  }

  lemma MergePage(lev: seq<nat>, F: set<Pos>, k: Pos, p: nat)
    requires Tiled(lev) && FreeBlocks(lev, F, {k}) && IsBlock(lev, k) && BuddyOf(k) in F && k.0 < MAX_ORDER
    ensures FreePage(Relevel(lev, Merged(k), k.0 + 1), F - {BuddyOf(k)}, p) || InBlock(Merged(k), p)
            <==> FreePage(lev, F, p) || InBlock(k, p)
  {
    hide Tiled;
    InBlockMerged(k, p);
    Partition(lev, p, k);
    Partition(lev, p, BuddyOf(k));
  }

  class Pool {
    const meta: array<Page>
    const free: array<FreeList>
    ghost var lev: seq<nat>
    ghost var F: set<Pos>

    ghost predicate InvHand(hand: set<Pos>)
      reads this, meta, free
    {
      free.Length == MAX_ORDER + 1 && Inv(lev, F, hand, meta[..], free[..])
    }

    ghost predicate Valid()
      reads this, meta, free
    {
      InvHand({})
    }

    ghost function FreeTotal(): int
      reads free
    {
      Weighted(free[..])
    }

    /**
     What a well-formed pool says of order `k`: its counter is its list's length, the list names exactly the free blocks
     of that order, each lies aligned inside the pool, and its buddy is not free as well.
     */
    lemma Accounts(k: nat, q: nat)
      requires Valid() && k <= MAX_ORDER
      ensures free[k].num == |free[k].list| && ((k, q) in F <==> Head(k, q) in free[k].list)
      ensures (k, q) in F ==> IsBlock(lev, (k, q)) && Head(k, q) == q * Pow2(k) && Head(k, q) + Pow2(k) <= meta.Length
      ensures (k, q) in F && k < MAX_ORDER ==> (k, Sibling(q)) !in F
    {
      hide Inv, IsBlock, Head, Pow2, Bin;
      AccountsOf(lev, F, meta[..], free[..], k, q);
    }

    /** `get_buddy`: the counterpart of a page in the buddy of its block, or -1 if that lies outside the pool. */
    method GetBuddy(page: nat) returns (b: int)
      requires page < meta.Length && meta[page].order < MAX_ORDER
      ensures b == -1 <==> Counterpart(page, meta[page].order) >= meta.Length
      ensures b != -1 ==> 0 <= b < meta.Length && b == Counterpart(page, meta[page].order)
    {
      FlipMeaning(page, meta[page].order);
      b := FlipBit(page, meta[page].order);
      if b >= meta.Length {
        b := -1;
      }
    }

    /** The joining branch of `merge_page`: the buddy leaves its list, the lower head's order goes up. */
    method Join(page: nat, buddy: nat, ghost k: Pos) returns (merge: nat)
      requires InvHand({k}) && page == Head(k.0, k.1) && buddy == Head(k.0, Sibling(k.1))
      requires k.0 < MAX_ORDER && BuddyOf(k) in F
      modifies this, meta, free
      ensures InvHand({Merged(k)}) && merge == Head(k.0 + 1, k.1 / 2)
      ensures SameView(old(lev), old(F), {k}, lev, F, {Merged(k)})
      ensures FreeTotal() == old(FreeTotal()) - Pow2(k.0)
    {
      hide Inv, SameView, Head, Weighted, Pow2, IsBlock;
      ghost var lev0, F0, meta0, free0 := lev, F, meta[..], free[..];
      BlockFacts(lev0, F0, {k}, meta0, free0, k);
      BlockFacts(lev0, F0, {k}, meta0, free0, BuddyOf(k));
      MergeStep(lev0, F0, meta0, free0, k);
      MergeView(lev0, F0, meta0, free0, k);
      HeadMerged(k);
      HeadOrder(k);
      var n := meta[page].order;
      free[n] := FreeList(Without(free[n].list, buddy), free[n].num - 1);
      merge := if buddy < page then buddy else page;
      meta[merge] := meta[merge].(order := meta[merge].order + 1);
      lev, F := Relevel(lev, Merged(k), k.0 + 1), F - {BuddyOf(k)};
      assert meta[..] == MergeMeta(meta0, k);
      assert free[..] == free0[n := FreeList(Without(free0[n].list, buddy), free0[n].num - 1)];
      WeightedUpdate(free0, n, free[n]);
    }

    /** `merge_page`: join the block in hand with its buddies as long as they are free. */
    method MergePage(page: nat, ghost k: Pos) returns (r: nat, ghost k': Pos)
      requires InvHand({k}) && page == Head(k.0, k.1)
      modifies this, meta, free
      ensures InvHand({k'}) && r == Head(k'.0, k'.1)
      ensures k'.0 < MAX_ORDER ==> BuddyOf(k') !in F
      ensures SameView(old(lev), old(F), {k}, lev, F, {k'})
      ensures FreeTotal() + Pow2(k'.0) == old(FreeTotal()) + Pow2(k.0)
      decreases MAX_ORDER - k.0
    {
      hide Inv, SameView, Head, Counterpart, Bin, IsBlock, Weighted;
      BlockFacts(lev, F, {k}, meta[..], free[..], k);
      SameRefl(lev, F, {k});
      if meta[page].order == MAX_ORDER {
        return page, k;
      }
      CounterpartOfHead(k.0, k.1);
      BuddyTest(lev, F, meta[..], free[..], k);
      var buddy := GetBuddy(page);
      if buddy == -1 {
        return page, k;
      }
      if !meta[buddy].inUse && meta[buddy].order == meta[page].order {
        ghost var lev0, F0 := lev, F;
        var merge := Join(page, buddy, k);
        ghost var lev1, F1 := lev, F;
        r, k' := MergePage(merge, Merged(k));
        SameTrans(lev0, F0, {k}, lev1, F1, {Merged(k)}, lev, F, {k'});
      } else {
        return page, k;
      }
    }

    /**
     `buddy_free_pages`: an allocated block goes back to the pool, merged as far as possible.
     */
    method FreePages(page: nat)
      requires Valid() && page < meta.Length && meta[page].inUse
      modifies this, meta, free
      ensures Valid() && |lev| == |old(lev)|
      ensures var k: Pos := (old(meta[page].order), Bin(page, old(meta[page].order)));
              && Held(old(lev), old(F), {}, k) && page == Head(k.0, k.1)
              && (forall j: Pos :: Held(lev, F, {}, j) <==> Held(old(lev), old(F), {}, j) && j != k)
              && (forall p: nat :: FreePage(lev, F, p) <==> FreePage(old(lev), old(F), p) || InBlock(k, p))
      ensures FreeTotal() == old(FreeTotal()) + Pow2(old(meta[page].order))
      ensures forall p: nat :: p < meta.Length ==> (meta[p].inUse <==> old(meta[p].inUse) && p != page)
    {
      hide Inv, SameView, Head, Bin, IsBlock, Weighted, Pow2, FreePage, Loose, InBlock;
      ghost var lev0, F0, meta0, free0 := lev, F, meta[..], free[..];
      HeldHead(lev0, F0, meta0, free0, page);
      ghost var k: Pos := (meta[page].order, Bin(page, meta[page].order));
      UnmarkStep(lev0, F0, meta0, free0, k);
      meta[page] := meta[page].(inUse := false);
      assert meta[..] == meta0[page := Page(false, k.0)];
      BlockFacts(lev, F, {k}, meta[..], free[..], k);
      var r, k' := page, k;
      SameRefl(lev, F, {k});
      if meta[page].order < MAX_ORDER {
        r, k' := MergePage(page, k);
      }
      ghost var F1, free1 := F, free[..];
      BlockFacts(lev, F, {k'}, meta[..], free[..], k');
      PutStep(lev, F, meta[..], free1, k');
      var n := meta[r].order;
      free[n] := FreeList([r] + free[n].list, free[n].num + 1);
      F := F + {k'};
      assert free[..] == free1[n := FreeList([r] + free1[n].list, free1[n].num + 1)];
      WeightedUpdate(free1, n, free[n]);
      PutView(lev0, F0, k, lev, F1, k');
      UseOf(lev0, F0, meta0, free0);
      UseOf(lev, F, meta[..], free[..]);
      HeadsDiffer(lev0, k);
    }

    /** `split_page`: halve the block in hand down to order `order`, freeing the upper halves. */
    method SplitPage(page: nat, order: nat, ghost k0: Pos) returns (ghost k: Pos)
      requires InvHand({k0}) && page == Head(k0.0, k0.1) && order < k0.0
      modifies this, meta, free
      ensures InvHand({k}) && page == Head(k.0, k.1) && k.0 == order
      ensures SameView(old(lev), old(F), {k0}, lev, F, {k})
      ensures FreeTotal() + Pow2(order) == old(FreeTotal()) + Pow2(k0.0)
      ensures forall p: nat :: InBlock(k, p) ==> InBlock(k0, p)
    {
      hide Inv, SameView, Head, Bin, IsBlock, Weighted, Pow2, InBlock;
      k := k0;
      SameRefl(lev, F, {k});
      BlockFacts(lev, F, {k}, meta[..], free[..], k);
      while meta[page].order > order
        invariant InvHand({k}) && page == Head(k.0, k.1) && order <= k.0
        invariant page < meta.Length && meta[page].order == k.0
        invariant SameView(old(lev), old(F), {k0}, lev, F, {k})
        invariant FreeTotal() + Pow2(k.0) == old(FreeTotal()) + Pow2(k0.0)
        invariant forall p: nat :: InBlock(k, p) ==> InBlock(k0, p)
        decreases k.0
      {
        ghost var lev1, F1 := lev, F;
        SplitOnce(page, k);
        SameTrans(old(lev), old(F), {k0}, lev1, F1, {k}, lev, F, {Lower(k)});
        LowerInside(k);
        PowHalf(k.0);
        k := Lower(k);
        BlockFacts(lev, F, {k}, meta[..], free[..], k);
      }
    }

    /** One round of `split_page`; the buddy it frees was not marked allocated. */
    method SplitOnce(page: nat, ghost k: Pos)
      requires InvHand({k}) && page == Head(k.0, k.1) && k.0 > 0
      modifies this, meta, free
      ensures InvHand({Lower(k)}) && page == Head(k.0 - 1, 2 * k.1)
      ensures SameView(old(lev), old(F), {k}, lev, F, {Lower(k)})
      ensures FreeTotal() == old(FreeTotal()) + Pow2(k.0 - 1)
    {
      hide Inv, SameView, Head, IsBlock, Weighted, Pow2, Bin, Counterpart;
      ghost var lev0, F0, meta0, free0 := lev, F, meta[..], free[..];
      BlockFacts(lev0, F0, {k}, meta0, free0, k);
      SplitStep(lev0, F0, meta0, free0, k);
      SplitView(lev0, F0, meta0, free0, k);
      HeadLower(k);
      CounterpartOfHead(k.0 - 1, 2 * k.1);
      meta[page] := meta[page].(order := meta[page].order - 1);
      var buddy := GetBuddy(page);
      assert !meta[buddy].inUse;
      meta[buddy] := meta[buddy].(order := meta[page].order);
      var n := meta[buddy].order;
      free[n] := FreeList([buddy] + free[n].list, free[n].num + 1);
      lev, F := Relevel(lev, k, k.0 - 1), F + {Upper(k)};
      assert meta[..] == SplitMeta(meta0, k);
      assert free[..] == free0[n := FreeList([buddy] + free0[n].list, free0[n].num + 1)];
      WeightedUpdate(free0, n, free[n]);
    }

    /**
     `buddy_get_pages`: a block of exactly `2^order` pages, or -1 iff no aligned run of that many pages is free.
     */
    method GetPages(order: nat) returns (page: int)
      requires Valid() && order <= MAX_ORDER
      modifies this, meta, free
      ensures Valid() && |lev| == |old(lev)|
      ensures page == -1 <==> !exists r: nat :: FreeRun(old(lev), old(F), (order, r))
      ensures page == -1 ==> lev == old(lev) && F == old(F) && meta[..] == old(meta[..]) && free[..] == old(free[..])
      ensures page != -1 ==> 0 <= page && page + Pow2(order) <= meta.Length && meta[page] == Page(true, order)
      ensures page != -1 ==>
                var k: Pos := (order, Bin(page, order));
                && page == Head(k.0, k.1) && FreeRun(old(lev), old(F), k) && !Held(old(lev), old(F), {}, k)
                && (forall j: Pos :: Held(lev, F, {}, j) <==> Held(old(lev), old(F), {}, j) || j == k)
                && (forall p: nat :: FreePage(lev, F, p) <==> FreePage(old(lev), old(F), p) && !InBlock(k, p))
      ensures FreeTotal() == old(FreeTotal()) - (if page == -1 then 0 else Pow2(order))
      ensures forall p: nat :: p < meta.Length ==> (meta[p].inUse <==> old(meta[p].inUse) || p == page)
      ensures page != -1 ==> !old(meta[page].inUse)
    {
      hide Inv, SameView, Head, Bin, IsBlock, Weighted, Pow2, FreePage, InBlock, FreeRun, Held;
      ghost var lev0, F0 := lev, F;
      UseOf(lev, F, meta[..], free[..]);
      RunMeansFree(lev, F, meta[..], free[..], order);
      var i := FindList(order);
      if i > MAX_ORDER {
        return -1;
      }
      var head, k0 := TakeFirst(i);
      page := head;
      ghost var lev1, F1 := lev, F;
      BlockFacts(lev, F, {k0}, meta[..], free[..], k0);
      ghost var k := k0;
      if meta[head].order > order {
        k := SplitPage(head, order, k0);
        SameTrans(lev0, F0, {}, lev1, F1, {k0}, lev, F, {k});
      }
      Hand(head, lev0, F0, k);
      assert FreeRun(lev0, F0, (order, k.1));
      UseOf(lev, F, meta[..], free[..]);
      HeldDiffer(lev, F, k);
    }

    /** The search of `buddy_get_pages`: the smallest order, from `order` on, with a free block. */
    method FindList(order: nat) returns (i: nat)
      requires Valid() && order <= MAX_ORDER
      ensures order <= i <= MAX_ORDER + 1
      ensures i <= MAX_ORDER ==> free[i].list != []
      ensures i > MAX_ORDER ==> !exists b :: b in F && b.0 >= order
    {
      hide Inv;
      i := order;
      while i <= MAX_ORDER && free[i].list == []
        invariant order <= i <= MAX_ORDER + 1
        invariant forall b :: b in F && b.0 >= order ==> b.0 >= i
      {
        EmptyList(lev, F, meta[..], free[..], i);
        i := i + 1;
      }
      LargestOrder(lev, F, meta[..], free[..]);
    }

    /** The first block of list `i` leaves it; the counter used is the one of the block's own order. */
    method TakeFirst(i: nat) returns (page: nat, ghost k: Pos)
      requires Valid() && i <= MAX_ORDER && free[i].list != []
      modifies this`F, free
      ensures InvHand({k}) && page == Head(k.0, k.1) && k.0 == i && k in old(F)
      ensures SameView(lev, old(F), {}, lev, F, {k})
      ensures FreeTotal() == old(FreeTotal()) - Pow2(i)
    {
      hide Inv, SameView, Head, Bin, IsBlock, Weighted, Pow2;
      ghost var free0 := free[..];
      k := FirstFree(lev, F, meta[..], free0, i);
      TakeStep(lev, F, meta[..], free0, k);
      TakeView(lev, F, meta[..], free0, k);
      page := free[i].list[0];
      free[i] := FreeList(free[i].list[1..], free[i].num);
      var n := meta[page].order;
      free[n] := FreeList(free[n].list, free[n].num - 1);
      F := F - {k};
      assert free[..] == free0[i := FreeList(Without(free0[i].list, page), free0[i].num - 1)];
      WeightedUpdate(free0, i, free[i]);
    }

    /** The end of `buddy_get_pages`: the block in hand is marked allocated. */
    method Hand(page: nat, ghost lev0: seq<nat>, ghost F0: set<Pos>, ghost k: Pos)
      requires InvHand({k}) && page == Head(k.0, k.1) && SameView(lev0, F0, {}, lev, F, {k})
      modifies meta
      ensures Valid() && |lev| == |lev0| && page + Pow2(k.0) <= meta.Length && meta[page] == Page(true, k.0)
      ensures k.1 == Bin(page, k.0) && FreeRun(lev0, F0, k) && !Held(lev0, F0, {}, k)
      ensures forall j: Pos :: Held(lev, F, {}, j) <==> Held(lev0, F0, {}, j) || j == k
      ensures forall p: nat :: FreePage(lev, F, p) <==> FreePage(lev0, F0, p) && !InBlock(k, p)
    {
      hide Inv, Head, Bin, IsBlock, Pow2, FreePage, InBlock, FreeRun, Held, Loose;
      BlockFacts(lev, F, {k}, meta[..], free[..], k);
      BlockInPool(lev, k);
      HandRun(lev0, F0, lev, F, k);
      MarkStep(lev, F, meta[..], free[..], k);
      BinHead(k.0, k.1);
      ghost var meta0 := meta[..];
      meta[page] := meta[page].(inUse := true);
      assert meta[..] == meta0[page := Page(true, k.0)];
    }

    /** The inner loop of `get_free_mem`. */
    method FreeBytes() returns (bytes: int)
      requires Valid()
      ensures bytes == PGSIZE * FreeTotal()
    {
      hide Inv;
      bytes := 0;
      for i := 0 to MAX_ORDER + 1
        invariant bytes == PGSIZE * Weighted(free[..i])
      {
        WeightedStep(free[..i + 1]);
        assert free[..i + 1][..i] == free[..i];
        bytes := bytes + free[i].num * PGSIZE * Pow2(i);
        BytesOf(free[i].num, Pow2(i));
      }
      assert free[..MAX_ORDER + 1] == free[..];
    }

    /** `init_buddy`: mark every page a block of order 0 and free them one by one. */
    constructor (pages: nat)
      ensures Valid() && meta.Length == pages && |lev| == pages && fresh(meta) && fresh(free)
      ensures forall p: nat :: p < pages ==> FreePage(lev, F, p)
      ensures FreeTotal() == pages && forall p: nat :: p < pages ==> !meta[p].inUse
    {
      meta := new Page[pages](_ => Page(true, 0));
      free := new FreeList[MAX_ORDER + 1](_ => FreeList([], 0));
      lev, F := seq(pages, _ => 0), {};
      new;
      InitInv(lev, meta[..], free[..]);
      FreeAll();
    }

    /** The loop of `init_buddy`; the total it asserts at the end is the pool size. */
    method FreeAll()
      requires Valid() && meta.Length == |lev| && FreeTotal() == 0
      requires forall j: Pos :: Held(lev, F, {}, j) <==> j.0 == 0 && j.1 < meta.Length
      modifies this, meta, free
      ensures Valid() && |lev| == meta.Length
      ensures forall p: nat :: p < meta.Length ==> FreePage(lev, F, p)
      ensures FreeTotal() == meta.Length && forall p: nat :: p < meta.Length ==> !meta[p].inUse
    {
      hide Inv, IsBlock, Weighted, FreePage;
      for i := 0 to meta.Length
        invariant Valid() && |lev| == meta.Length
        invariant forall j: Pos :: Held(lev, F, {}, j) <==> j.0 == 0 && i <= j.1 < meta.Length
        invariant forall p: nat :: p < i ==> FreePage(lev, F, p)
        invariant FreeTotal() == i && forall p: nat :: p < i ==> !meta[p].inUse
      {
        assert Held(lev, F, {}, (0, i));
        BlockFacts(lev, F, {}, meta[..], free[..], (0, i));
        FreePages(i);
      }
    }
  }

  lemma AccountsOf(lev: seq<nat>, F: set<Pos>, meta: seq<Page>, free: seq<FreeList>, k: nat, q: nat)
    requires Inv(lev, F, {}, meta, free) && k <= MAX_ORDER
    ensures |free| == MAX_ORDER + 1 && |meta| == |lev|
    ensures free[k].num == |free[k].list| && ((k, q) in F <==> Head(k, q) in free[k].list)
    ensures (k, q) in F ==> IsBlock(lev, (k, q)) && Head(k, q) == q * Pow2(k) && Head(k, q) + Pow2(k) <= |lev|
    ensures (k, q) in F && k < MAX_ORDER ==> (k, Sibling(q)) !in F
  {
    hide Tiled, IsBlock, Flags, Head, Pow2, Bin;
    assert ListOk(free[k], F, k);
    var b: Pos := (k, q);
    if b in F {
      BlockInPool(lev, b);
    }
  }

  /** A page is marked allocated iff it is the head of a block held by a caller. */
  lemma UseOf(lev: seq<nat>, F: set<Pos>, meta: seq<Page>, free: seq<FreeList>)
    requires Inv(lev, F, {}, meta, free)
    ensures forall p: nat :: p < |meta| ==>
              (meta[p].inUse <==> exists j: Pos :: Held(lev, F, {}, j) && Head(j.0, j.1) == p)
  {
    hide Lists, Apart, Tiled;
    forall p: nat | p < |meta| && meta[p].inUse
      ensures exists j: Pos :: Held(lev, F, {}, j) && Head(j.0, j.1) == p
    {
      HeldHead(lev, F, meta, free, p);
    }
  }

  lemma InitInv(lev: seq<nat>, meta: seq<Page>, free: seq<FreeList>)
    requires |meta| == |lev| && |free| == MAX_ORDER + 1
    requires (forall p: nat :: p < |lev| ==> lev[p] == 0 && meta[p] == Page(true, 0))
    requires (forall k: nat :: k <= MAX_ORDER ==> free[k] == FreeList([], 0))
    ensures Inv(lev, {}, {}, meta, free) && Weighted(free) == 0
    ensures forall j: Pos :: Held(lev, {}, {}, j) <==> j.0 == 0 && j.1 < |lev|
  {
    WeightedZero(free);
    forall j: Pos
      ensures IsBlock(lev, j) <==> j.0 == 0 && j.1 < |lev|
    {
    }
  }

  lemma {:induction false} WeightedZero(free: seq<FreeList>)
    requires forall k: nat :: k < |free| ==> free[k].num == 0
    ensures Weighted(free) == 0
  {
    if free != [] {
      WeightedZero(free[..|free| - 1]);
    }
  }

  lemma RunMeansFree(lev: seq<nat>, F: set<Pos>, meta: seq<Page>, free: seq<FreeList>, k: nat)
    requires Inv(lev, F, {}, meta, free) && k <= MAX_ORDER
    ensures (exists r: nat :: FreeRun(lev, F, (k, r))) <==> (exists b :: b in F && b.0 >= k)
  {
    hide Tiled, Apart;
    RunMeansBlock(lev, F, k);
  }

  lemma EmptyList(lev: seq<nat>, F: set<Pos>, meta: seq<Page>, free: seq<FreeList>, i: nat)
    requires Inv(lev, F, {}, meta, free) && i <= MAX_ORDER && free[i].list == []
    ensures forall b :: b in F ==> b.0 != i
  {
    hide Tiled, Apart, Heads, Flags;
    assert ListOk(free[i], F, i);
  }

  lemma LargestOrder(lev: seq<nat>, F: set<Pos>, meta: seq<Page>, free: seq<FreeList>)
    requires Inv(lev, F, {}, meta, free)
    ensures forall b :: b in F ==> b.0 <= MAX_ORDER
  {
    hide Apart, Heads, Flags, Lists;
  }

  /** The first page on a list is the head of a free block of that order. */
  lemma FirstFree(lev: seq<nat>, F: set<Pos>, meta: seq<Page>, free: seq<FreeList>, i: nat) returns (k: Pos)
    requires Inv(lev, F, {}, meta, free) && i <= MAX_ORDER && free[i].list != []
    ensures k in F && k.0 == i && free[i].list[0] == Head(k.0, k.1)
  {
    hide Tiled, Apart, Heads, Flags;
    var h := free[i].list[0];
    k := (i, Bin(h, i));
    assert ListOk(free[i], F, i) && h in free[i].list;
  }

  lemma TakeView(lev: seq<nat>, F: set<Pos>, meta: seq<Page>, free: seq<FreeList>, k: Pos)
    requires Inv(lev, F, {}, meta, free) && k in F
    ensures SameView(lev, F, {}, lev, F - {k}, {k})
  {
    hide Apart, Heads, Flags, Lists, Loose, Tiled;
    forall p: nat
      ensures Loose(lev, F - {k}, {k}, p) <==> Loose(lev, F, {}, p)
    {
      LooseOne(lev, F - {k}, k, p);
      LooseOne(lev, F, k, p);
      Partition(lev, p, k);
    }
  }

  /** What the block in hand was, and what handing it out means to the callers. */
  lemma HandRun(lev0: seq<nat>, F0: set<Pos>, lev: seq<nat>, F: set<Pos>, k: Pos)
    requires SameView(lev0, F0, {}, lev, F, {k}) && Tiled(lev) && IsBlock(lev, k) && k !in F
    ensures FreeRun(lev0, F0, k) && !Held(lev0, F0, {}, k)
    ensures forall j: Pos :: Held(lev, F, {}, j) <==> Held(lev0, F0, {}, j) || j == k
    ensures forall p: nat :: FreePage(lev, F, p) <==> FreePage(lev0, F0, p) && !InBlock(k, p)
  {
    forall p: nat
      ensures FreePage(lev, F, p) <==> FreePage(lev0, F0, p) && !InBlock(k, p)
      ensures InBlock(k, p) ==> FreePage(lev0, F0, p)
    {
      hide Tiled;
      LooseOne(lev0, F0, k, p);
      LooseOne(lev, F, k, p);
      assert Loose(lev, F, {k}, p) <==> Loose(lev0, F0, {}, p);
      Partition(lev, p, k);
    }
    forall j: Pos
      ensures Held(lev, F, {}, j) <==> Held(lev0, F0, {}, j) || j == k
    {
      assert Held(lev, F, {k}, j) <==> Held(lev0, F0, {}, j);
    }
    assert !Held(lev, F, {k}, k);
  }

  lemma HeldDiffer(lev: seq<nat>, F: set<Pos>, k: Pos)
    requires Held(lev, F, {}, k)
    ensures forall j: Pos :: Held(lev, F, {}, j) && Head(j.0, j.1) == Head(k.0, k.1) ==> j == k
  {
    HeadsDiffer(lev, k);
  }

  lemma WeightedStep(free: seq<FreeList>)
    requires free != []
    ensures Weighted(free) == Weighted(free[..|free| - 1]) + free[|free| - 1].num * Pow2(|free| - 1)
  {
  }

  lemma BytesOf(n: int, p: int)
    ensures n * PGSIZE * p == PGSIZE * (n * p)
  {
  }

  lemma HeadLower(k: Pos)
    requires k.0 > 0
    ensures Head(k.0, k.1) == Head(k.0 - 1, 2 * k.1) && Sibling(2 * k.1) == 2 * k.1 + 1
    ensures Head(k.0 - 1, 2 * k.1 + 1) != Head(k.0, k.1)
  {
    HeadSplit(k.0, k.1);
  }

  lemma LowerInside(k: Pos)
    requires k.0 > 0
    ensures forall p: nat :: InBlock(Lower(k), p) ==> InBlock(k, p)
  {
  }

  lemma PowHalf(k: nat)
    requires k > 0
    ensures Pow2(k) == 2 * Pow2(k - 1)
  {
  }

  /** A page marked allocated is the head of a block held by a caller. */
  lemma HeldHead(lev: seq<nat>, F: set<Pos>, meta: seq<Page>, free: seq<FreeList>, page: nat)
    requires Inv(lev, F, {}, meta, free) && page < |meta| && meta[page].inUse
    ensures var k: Pos := (meta[page].order, Bin(page, meta[page].order));
            page == Head(k.0, k.1) && IsBlock(lev, k) && k !in F && Held(lev, F, {}, k)
  {
    hide Lists, Apart;
    var k := BlockOf(lev, page);
    Partition(lev, page, k);
  }

  /** Freeing the block in hand, seen by the callers. */
  lemma PutView(lev0: seq<nat>, F0: set<Pos>, k: Pos, lev: seq<nat>, F1: set<Pos>, k': Pos)
    requires SameView(lev0, F0, {k}, lev, F1, {k'})
    requires IsBlock(lev, k') && Tiled(lev)
    ensures forall j: Pos :: Held(lev, F1 + {k'}, {}, j) <==> Held(lev0, F0, {}, j) && j != k
    ensures forall p: nat :: FreePage(lev, F1 + {k'}, p) <==> FreePage(lev0, F0, p) || InBlock(k, p)
  {
    forall j: Pos
      ensures Held(lev, F1 + {k'}, {}, j) <==> Held(lev0, F0, {}, j) && j != k
    {
      assert Held(lev, F1, {k'}, j) <==> Held(lev0, F0, {k}, j);
    }
    forall p: nat
      ensures FreePage(lev, F1 + {k'}, p) <==> FreePage(lev0, F0, p) || InBlock(k, p)
    {
      hide Tiled;
      LooseOne(lev0, F0, k, p);
      LooseOne(lev, F1, k', p);
      Partition(lev, p, k');
      assert Loose(lev, F1, {k'}, p) <==> Loose(lev0, F0, {k}, p);
    }
  }

  lemma BlockFacts(lev: seq<nat>, F: set<Pos>, hand: set<Pos>, meta: seq<Page>, free: seq<FreeList>, k: Pos)
    requires Inv(lev, F, hand, meta, free) && (k in hand || k in F || IsBlock(lev, k))
    ensures Tiled(lev) && IsBlock(lev, k)
    ensures Head(k.0, k.1) < |meta| == |lev| && meta[Head(k.0, k.1)].order == k.0 <= MAX_ORDER
    ensures meta[Head(k.0, k.1)].inUse <==> k !in F && k !in hand
    ensures k in hand ==> k !in F
  {
    BlockInPool(lev, k);
  }

  lemma HeadOrder(k: Pos)
    ensures Head(k.0, Sibling(k.1)) < Head(k.0, k.1) <==> k.1 % 2 == 1
    ensures Head(k.0, Sibling(k.1)) != Head(k.0, k.1)
  {
    FlipIsBuddy(k.0, k.1);
    BinHead(k.0, k.1);
  }

  lemma SameRefl(lev: seq<nat>, F: set<Pos>, hand: set<Pos>)
    ensures SameView(lev, F, hand, lev, F, hand)
  {
  }

  lemma SameTrans(lev: seq<nat>, F: set<Pos>, hand: set<Pos>, lev': seq<nat>, F': set<Pos>, hand': set<Pos>,
                  lev'': seq<nat>, F'': set<Pos>, hand'': set<Pos>)
    requires SameView(lev, F, hand, lev', F', hand') && SameView(lev', F', hand', lev'', F'', hand'')
    ensures SameView(lev, F, hand, lev'', F'', hand'')
  {
    hide Held, Loose;
  }
}
