/**
 Page metadata and free lists of one pool, and the steps split and merge take on them.

 `F` holds the positions of the free blocks. A block in `hand` has left the lists and is not
 marked allocated: it is the one an operation is working on.
 */
module BuddyPool {
  import opened Common
  import opened BuddyIndex
  import opened BuddyTiling

  datatype Page = Page(inUse: bool, order: nat)

  datatype FreeList = FreeList(list: seq<nat>, num: int)

  /** The order field is right at the head of every block; elsewhere it may be stale. */
  ghost predicate Heads(lev: seq<nat>, meta: seq<Page>)
  {
    |meta| == |lev| && forall k: Pos :: IsBlock(lev, k) ==> meta[Head(k.0, k.1)].order == k.0
  }

  /** `allocated` (here `inUse`) is set exactly at the heads of allocated blocks. */
  ghost predicate Flags(lev: seq<nat>, F: set<Pos>, hand: set<Pos>, meta: seq<Page>)
  {
    && |meta| == |lev|
    && (forall k: Pos :: IsBlock(lev, k) ==> (meta[Head(k.0, k.1)].inUse <==> k !in F && k !in hand))
    && (forall p: nat :: p < |meta| && meta[p].inUse ==> p == Head(lev[p], Bin(p, lev[p])))
  }

  /** The list of order `k` holds the heads of the free blocks of that order, once each, and counts them. */
  ghost predicate ListOk(fl: FreeList, F: set<Pos>, k: nat)
  {
    && fl.num == |fl.list| && Distinct(fl.list)
    && (forall q: nat :: (k, q) in F <==> Head(k, q) in fl.list)
    && (forall h :: h in fl.list ==> h == Head(k, Bin(h, k)))
  }

  ghost predicate Lists(free: seq<FreeList>, F: set<Pos>)
  {
    |free| == MAX_ORDER + 1 && forall k: nat :: k <= MAX_ORDER ==> ListOk(free[k], F, k)
  }

  ghost predicate FreeBlocks(lev: seq<nat>, F: set<Pos>, hand: set<Pos>)
  {
    F !! hand && (forall k :: k in F ==> IsBlock(lev, k)) && (forall k :: k in hand ==> IsBlock(lev, k))
  }

  /** No two buddies below the top order are both free. */
  ghost predicate Apart(F: set<Pos>)
  {
    forall k :: k in F && k.0 < MAX_ORDER ==> BuddyOf(k) !in F
  }

  ghost predicate Inv(lev: seq<nat>, F: set<Pos>, hand: set<Pos>, meta: seq<Page>, free: seq<FreeList>)
  {
    Tiled(lev) && Heads(lev, meta) && Flags(lev, F, hand, meta) && Lists(free, F) && FreeBlocks(lev, F, hand)
    && Apart(F)
  }

  // ---- free lists ----

  lemma {:induction false} WithoutLength(s: seq<nat>, x: nat)
    requires x in s
    ensures |Without(s, x)| == |s| - 1
  {
    if s[0] != x {
      assert x in s[1..];
      WithoutLength(s[1..], x);
    }
  }

  lemma ListTake(fl: FreeList, F: set<Pos>, k: Pos)
    requires ListOk(fl, F, k.0) && k in F
    ensures Head(k.0, k.1) in fl.list
    ensures ListOk(FreeList(Without(fl.list, Head(k.0, k.1)), fl.num - 1), F - {k}, k.0)
  {
    WithoutMembers(fl.list, Head(k.0, k.1));
    WithoutLength(fl.list, Head(k.0, k.1));
    forall q: nat
      ensures Head(k.0, q) == Head(k.0, k.1) ==> q == k.1
    {
      BinHead(k.0, q);
      BinHead(k.0, k.1);
    }
  }

  lemma ListPut(fl: FreeList, F: set<Pos>, k: Pos)
    requires ListOk(fl, F, k.0) && k !in F
    ensures ListOk(FreeList([Head(k.0, k.1)] + fl.list, fl.num + 1), F + {k}, k.0)
  {
    BinHead(k.0, k.1);
    forall q: nat
      ensures Head(k.0, q) == Head(k.0, k.1) ==> q == k.1
    {
      BinHead(k.0, q);
    }
  }

  lemma ListsTake(free: seq<FreeList>, F: set<Pos>, k: Pos)
    requires Lists(free, F) && k in F && k.0 <= MAX_ORDER
    ensures Head(k.0, k.1) in free[k.0].list
    ensures Lists(free[k.0 := FreeList(Without(free[k.0].list, Head(k.0, k.1)), free[k.0].num - 1)], F - {k})
  {
    hide Head, Distinct;
    ListTake(free[k.0], F, k);
  }

  lemma ListsPut(free: seq<FreeList>, F: set<Pos>, k: Pos)
    requires Lists(free, F) && k !in F && k.0 <= MAX_ORDER
    ensures Lists(free[k.0 := FreeList([Head(k.0, k.1)] + free[k.0].list, free[k.0].num + 1)], F + {k})
  {
    hide Head, Distinct;
    ListPut(free[k.0], F, k);
  }

  /** Pages on the free lists, as `get_free_mem` adds them up. */
  function Weighted(free: seq<FreeList>): int
  {
    if free == [] then 0 else Weighted(free[..|free| - 1]) + free[|free| - 1].num * Pow2(|free| - 1)
  }

  lemma {:induction false} WeightedUpdate(free: seq<FreeList>, k: nat, fl: FreeList)
    requires k < |free|
    ensures Weighted(free[k := fl]) == Weighted(free) + (fl.num - free[k].num) * Pow2(k)
  {
    var n := |free| - 1;
    if k < n {
      WeightedUpdate(free[..n], k, fl);
      assert free[k := fl][..n] == free[..n][k := fl];
    } else {
      assert free[k := fl][..n] == free[..n];
      assert (fl.num - free[k].num) * Pow2(k) == fl.num * Pow2(k) - free[k].num * Pow2(k);
    }
  }

  // ---- the steps ----

  /** A free block leaves its list. */
  lemma TakeStep(lev: seq<nat>, F: set<Pos>, meta: seq<Page>, free: seq<FreeList>, k: Pos)
    requires Inv(lev, F, {}, meta, free) && k in F
    ensures k.0 <= MAX_ORDER && Head(k.0, k.1) < |meta| && meta[Head(k.0, k.1)].order == k.0
    ensures !meta[Head(k.0, k.1)].inUse
    ensures Inv(lev, F - {k}, {k}, meta,
                free[k.0 := FreeList(Without(free[k.0].list, Head(k.0, k.1)), free[k.0].num - 1)])
  {
    hide ListOk, Head;
    ListsTake(free, F, k);
  }

  /** The block in hand goes onto its list, once its buddy is not free. */
  lemma PutStep(lev: seq<nat>, F: set<Pos>, meta: seq<Page>, free: seq<FreeList>, k: Pos)
    requires Inv(lev, F, {k}, meta, free) && (k.0 < MAX_ORDER ==> BuddyOf(k) !in F)
    ensures k.0 <= MAX_ORDER
    ensures Inv(lev, F + {k}, {}, meta, free[k.0 := FreeList([Head(k.0, k.1)] + free[k.0].list, free[k.0].num + 1)])
  {
    hide ListOk, Head;
    ListsPut(free, F, k);
  }

  /** The block in hand is handed out. */
  lemma MarkStep(lev: seq<nat>, F: set<Pos>, meta: seq<Page>, free: seq<FreeList>, k: Pos)
    requires Inv(lev, F, {k}, meta, free)
    ensures Head(k.0, k.1) < |meta|
    ensures Inv(lev, F, {}, meta[Head(k.0, k.1) := Page(true, k.0)], free)
  {
    hide ListOk;
    HeadsDiffer(lev, k);
    BinHead(k.0, k.1);
  }

  /** An allocated block comes back. */
  lemma UnmarkStep(lev: seq<nat>, F: set<Pos>, meta: seq<Page>, free: seq<FreeList>, k: Pos)
    requires Inv(lev, F, {}, meta, free) && IsBlock(lev, k) && k !in F
    ensures Inv(lev, F, {k}, meta[Head(k.0, k.1) := Page(false, k.0)], free)
  {
    hide ListOk;
    HeadsDiffer(lev, k);
  }

  lemma HeadsDiffer(lev: seq<nat>, k: Pos)
    requires IsBlock(lev, k)
    ensures forall j: Pos :: IsBlock(lev, j) && Head(j.0, j.1) == Head(k.0, k.1) ==> j == k
  {
    forall j: Pos | IsBlock(lev, j) && Head(j.0, j.1) == Head(k.0, k.1)
      ensures j == k
    {
      BinHead(k.0, k.1);
      BinHead(j.0, j.1);
    }
  }

  function Lower(k: Pos): Pos
    requires k.0 > 0
  {
    (k.0 - 1, 2 * k.1)
  }

  function Upper(k: Pos): Pos
    requires k.0 > 0
  {
    (k.0 - 1, 2 * k.1 + 1)
  }

  lemma SplitFacts(lev: seq<nat>, k: Pos)
    requires Tiled(lev) && IsBlock(lev, k) && k.0 > 0
    ensures Tiled(Relevel(lev, k, k.0 - 1))
    ensures Head(k.0, k.1) == Head(k.0 - 1, 2 * k.1) && Head(k.0 - 1, 2 * k.1 + 1) < |lev|
    ensures !IsBlock(lev, Lower(k)) && !IsBlock(lev, Upper(k))
    ensures lev[Head(k.0 - 1, 2 * k.1 + 1)] == k.0
  {
    BlockIsRegion(lev, k);
    RelevelTiled(lev, k, k.0 - 1);
    hide Tiled;
    BinHead(k.0 - 1, 2 * k.1 + 1);
    Partition(lev, Head(k.0 - 1, 2 * k.1 + 1), k);
  }

  lemma HeadInHalf(k: Pos, j: Pos)
    requires k.0 > 0
    ensures j.0 == k.0 - 1 && InBlock(k, Head(j.0, j.1)) <==> j == Lower(k) || j == Upper(k)
  {
    BinHead(j.0, j.1);
  }

  /** The blocks after splitting `k`. */
  lemma SplitBlocks(lev: seq<nat>, k: Pos, j: Pos)
    requires Tiled(lev) && IsBlock(lev, k) && k.0 > 0
    ensures IsBlock(Relevel(lev, k, k.0 - 1), j) <==> (IsBlock(lev, j) && j != k) || j == Lower(k) || j == Upper(k)
  {
    hide Tiled, Head, Bin;
    SplitFacts(lev, k);
    RelevelBlocks(lev, k, k.0 - 1, j);
    HeadInHalf(k, j);
    if IsBlock(lev, j) {
      BinHead(j.0, j.1);
      Partition(lev, Head(j.0, j.1), k);
      Partition(lev, Head(j.0, j.1), j);
    }
    BinHead(k.0, k.1);
  }

  ghost function SplitMeta(meta: seq<Page>, k: Pos): seq<Page>
    requires k.0 > 0 && Head(k.0, k.1) < |meta| && Head(k.0 - 1, 2 * k.1 + 1) < |meta|
  {
    var h, b := Head(k.0, k.1), Head(k.0 - 1, 2 * k.1 + 1);
    var m := meta[h := meta[h].(order := k.0 - 1)];
    m[b := m[b].(order := k.0 - 1)]
  }

  lemma SplitHeads(lev: seq<nat>, meta: seq<Page>, k: Pos)
    requires Tiled(lev) && IsBlock(lev, k) && k.0 > 0 && Heads(lev, meta)
    ensures Head(k.0 - 1, 2 * k.1 + 1) < |meta| && Heads(Relevel(lev, k, k.0 - 1), SplitMeta(meta, k))
  {
    hide Tiled;
    SplitFacts(lev, k);
    var lev' := Relevel(lev, k, k.0 - 1);
    forall j: Pos | IsBlock(lev', j)
      ensures SplitMeta(meta, k)[Head(j.0, j.1)].order == j.0
    {
      SplitBlocks(lev, k, j);
      HeadsDiffer(lev', j);
      SplitBlocks(lev, k, Lower(k));
      SplitBlocks(lev, k, Upper(k));
    }
  }

  lemma SplitFlags(lev: seq<nat>, F: set<Pos>, meta: seq<Page>, k: Pos)
    requires Tiled(lev) && IsBlock(lev, k) && k.0 > 0 && Flags(lev, F, {k}, meta) && FreeBlocks(lev, F, {k})
    ensures Head(k.0 - 1, 2 * k.1 + 1) < |meta| && !meta[Head(k.0 - 1, 2 * k.1 + 1)].inUse
    ensures Flags(Relevel(lev, k, k.0 - 1), F + {Upper(k)}, {Lower(k)}, SplitMeta(meta, k))
  {
    hide Tiled;
    SplitFacts(lev, k);
    var lev' := Relevel(lev, k, k.0 - 1);
    var b := Head(k.0 - 1, 2 * k.1 + 1);
    BinHead(k.0 - 1, 2 * k.1 + 1);
    BinHead(k.0, k.1);
    HeadSplit(k.0, k.1);
    assert !meta[b].inUse;
    forall j: Pos | IsBlock(lev', j)
      ensures SplitMeta(meta, k)[Head(j.0, j.1)].inUse <==> j !in F + {Upper(k)} && j != Lower(k)
    {
      SplitBlocks(lev, k, j);
    }
    forall p: nat | p < |meta| && SplitMeta(meta, k)[p].inUse
      ensures p == Head(lev'[p], Bin(p, lev'[p]))
    {
      assert meta[p].inUse;
      if InBlock(k, p) {
        Partition(lev, p, k);
      }
    }
  }

  lemma SplitFree(lev: seq<nat>, F: set<Pos>, k: Pos)
    requires Tiled(lev) && IsBlock(lev, k) && k.0 > 0 && FreeBlocks(lev, F, {k}) && Apart(F)
    ensures Upper(k) !in F && FreeBlocks(Relevel(lev, k, k.0 - 1), F + {Upper(k)}, {Lower(k)})
    ensures Apart(F + {Upper(k)})
  {
    hide Tiled, IsBlock;
    SplitFacts(lev, k);
    assert k in {k};
    forall j | j in F + {Upper(k)} + {Lower(k)}
      ensures IsBlock(Relevel(lev, k, k.0 - 1), j)
    {
      SplitBlocks(lev, k, j);
    }
    assert Lower(k) !in F && Lower(k) != Upper(k);
    var F' := F + {Upper(k)};
    assert F' !! {Lower(k)};
    assert forall j :: j in F' ==> j in F + {Upper(k)} + {Lower(k)};
    assert Lower(k) in F + {Upper(k)} + {Lower(k)};
  }

  /** One round of `split_page`: the upper half of the block in hand becomes free. */
  lemma SplitStep(lev: seq<nat>, F: set<Pos>, meta: seq<Page>, free: seq<FreeList>, k: Pos)
    requires Inv(lev, F, {k}, meta, free) && k.0 > 0
    ensures Head(k.0 - 1, 2 * k.1 + 1) < |meta| && !meta[Head(k.0 - 1, 2 * k.1 + 1)].inUse && k.0 <= MAX_ORDER
    ensures Inv(Relevel(lev, k, k.0 - 1), F + {Upper(k)}, {Lower(k)}, SplitMeta(meta, k),
                free[k.0 - 1 := FreeList([Head(k.0 - 1, 2 * k.1 + 1)] + free[k.0 - 1].list, free[k.0 - 1].num + 1)])
  {
    hide Heads, Flags, Lists, Apart, Head;
    assert k in {k};
    BlockInPool(lev, k);
    SplitHeads(lev, meta, k);
    SplitFlags(lev, F, meta, k);
    SplitFree(lev, F, k);
    ListsPut(free, F, Upper(k));
    SplitFacts(lev, k);
  }

  // ---- merging ----

  lemma MergeFacts(lev: seq<nat>, k: Pos)
    requires Tiled(lev) && IsBlock(lev, k) && IsBlock(lev, BuddyOf(k)) && k.0 < MAX_ORDER
    ensures Tiled(Relevel(lev, Merged(k), k.0 + 1))
    ensures Head(k.0 + 1, k.1 / 2) == if k.1 % 2 == 0 then Head(k.0, k.1) else Head(k.0, Sibling(k.1))
    ensures Head(k.0 + 1, k.1 / 2) < |lev| && !IsBlock(lev, Merged(k))
  {
    hide Tiled, Head;
    MergedRegion(lev, k);
    RelevelTiled(lev, Merged(k), k.0 + 1);
    HeadMerged(k);
  }

  lemma HeadMerged(k: Pos)
    ensures Head(k.0 + 1, k.1 / 2) == if k.1 % 2 == 0 then Head(k.0, k.1) else Head(k.0, Sibling(k.1))
  {
    assert Head(k.0 + 1, k.1 / 2) == Head(k.0, 2 * (k.1 / 2));
  }

  /** The blocks after merging `k` with its buddy. */
  lemma MergeBlocks(lev: seq<nat>, k: Pos, j: Pos)
    requires Tiled(lev) && IsBlock(lev, k) && IsBlock(lev, BuddyOf(k)) && k.0 < MAX_ORDER
    ensures IsBlock(Relevel(lev, Merged(k), k.0 + 1), j) <==>
              (IsBlock(lev, j) && j != k && j != BuddyOf(k)) || j == Merged(k)
  {
    var m := Merged(k);
    MergeFacts(lev, k);
    MergedRegion(lev, k);
    hide Tiled, Head, Bin, Region;
    RelevelBlocks(lev, m, m.0, j);
    BinHead(j.0, j.1);
    BinHead(m.0, m.1);
    if IsBlock(lev, j) {
      var h := Head(j.0, j.1);
      Partition(lev, h, k);
      Partition(lev, h, BuddyOf(k));
      Partition(lev, h, j);
      BinHead(k.0, k.1);
      BinHead(k.0, Sibling(k.1));
      InBlockMerged(k, Head(k.0, k.1));
      InBlockMerged(k, Head(k.0, Sibling(k.1)));
    }
  }

  lemma InBlockMerged(k: Pos, p: nat)
    ensures InBlock(Merged(k), p) <==> InBlock(k, p) || InBlock(BuddyOf(k), p)
  {
  }

  ghost function MergeMeta(meta: seq<Page>, k: Pos): seq<Page>
    requires Head(k.0 + 1, k.1 / 2) < |meta|
  {
    var h := Head(k.0 + 1, k.1 / 2);
    meta[h := meta[h].(order := k.0 + 1)]
  }

  lemma MergeHeads(lev: seq<nat>, meta: seq<Page>, k: Pos)
    requires Tiled(lev) && IsBlock(lev, k) && IsBlock(lev, BuddyOf(k)) && k.0 < MAX_ORDER && Heads(lev, meta)
    ensures Head(k.0 + 1, k.1 / 2) < |meta| && Heads(Relevel(lev, Merged(k), k.0 + 1), MergeMeta(meta, k))
  {
    hide Tiled;
    MergeFacts(lev, k);
    var lev' := Relevel(lev, Merged(k), k.0 + 1);
    MergeBlocks(lev, k, Merged(k));
    HeadsDiffer(lev', Merged(k));
    forall j: Pos | IsBlock(lev', j)
      ensures MergeMeta(meta, k)[Head(j.0, j.1)].order == j.0
    {
      MergeBlocks(lev, k, j);
    }
  }

  lemma MergeFlags(lev: seq<nat>, F: set<Pos>, meta: seq<Page>, k: Pos)
    requires Tiled(lev) && IsBlock(lev, k) && BuddyOf(k) in F && k.0 < MAX_ORDER
    requires Flags(lev, F, {k}, meta) && FreeBlocks(lev, F, {k})
    ensures Head(k.0 + 1, k.1 / 2) < |meta|
    ensures Flags(Relevel(lev, Merged(k), k.0 + 1), F - {BuddyOf(k)}, {Merged(k)}, MergeMeta(meta, k))
  {
    hide Tiled;
    MergeFacts(lev, k);
    var lev' := Relevel(lev, Merged(k), k.0 + 1);
    assert k in {k};
    forall j: Pos | IsBlock(lev', j)
      ensures MergeMeta(meta, k)[Head(j.0, j.1)].inUse <==> j !in F - {BuddyOf(k)} && j != Merged(k)
    {
      MergeBlocks(lev, k, j);
    }
    forall p: nat | p < |meta| && MergeMeta(meta, k)[p].inUse
      ensures p == Head(lev'[p], Bin(p, lev'[p]))
    {
      assert meta[p].inUse;
      InBlockMerged(k, p);
      Partition(lev, p, k);
      Partition(lev, p, BuddyOf(k));
    }
  }

  lemma MergeFree(lev: seq<nat>, F: set<Pos>, k: Pos)
    requires Tiled(lev) && IsBlock(lev, k) && BuddyOf(k) in F && k.0 < MAX_ORDER
    requires FreeBlocks(lev, F, {k}) && Apart(F)
    ensures FreeBlocks(Relevel(lev, Merged(k), k.0 + 1), F - {BuddyOf(k)}, {Merged(k)})
    ensures Apart(F - {BuddyOf(k)})
  {
    hide Tiled, IsBlock;
    MergeFacts(lev, k);
    assert k in {k};
    MergeBlocks(lev, k, Merged(k));
    forall j | j in F - {BuddyOf(k)}
      ensures IsBlock(Relevel(lev, Merged(k), k.0 + 1), j)
    {
      MergeBlocks(lev, k, j);
    }
    assert Merged(k) !in F;
  }

  /** One round of `merge_page`: the free buddy leaves its list and joins the block in hand. */
  lemma MergeStep(lev: seq<nat>, F: set<Pos>, meta: seq<Page>, free: seq<FreeList>, k: Pos)
    requires Inv(lev, F, {k}, meta, free) && BuddyOf(k) in F && k.0 < MAX_ORDER
    ensures Head(k.0 + 1, k.1 / 2) < |meta|
    ensures Head(k.0, Sibling(k.1)) in free[k.0].list
    ensures Inv(Relevel(lev, Merged(k), k.0 + 1), F - {BuddyOf(k)}, {Merged(k)}, MergeMeta(meta, k),
                free[k.0 := FreeList(Without(free[k.0].list, Head(k.0, Sibling(k.1))), free[k.0].num - 1)])
  {
    hide Heads, Flags, Lists, Apart, Head;
    assert k in {k};
    MergeFacts(lev, k);
    MergeHeads(lev, meta, k);
    MergeFlags(lev, F, meta, k);
    MergeFree(lev, F, k);
    ListsTake(free, F, BuddyOf(k));
  }

  /** The test made by `merge_page` reads the metadata of a block head and decides exactly whether the buddy is free. */
  lemma BuddyTest(lev: seq<nat>, F: set<Pos>, meta: seq<Page>, free: seq<FreeList>, k: Pos)
    requires Inv(lev, F, {k}, meta, free)
    ensures Head(k.0, Sibling(k.1)) >= |meta| ==> BuddyOf(k) !in F
    ensures var b := Head(k.0, Sibling(k.1));
            b < |meta| ==> (!meta[b].inUse && meta[b].order == k.0 <==> BuddyOf(k) in F)
  {
    hide Lists, Apart;
    assert k in {k};
    if Head(k.0, Sibling(k.1)) < |meta| {
      BuddyIsHead(lev, k);
      var b := Head(k.0, Sibling(k.1));
      assert meta[b].order == lev[b];
    }
  }

  // ---- what a failed allocation means ----

  /** Page `p` lies in a free block. */
  ghost predicate FreePage(lev: seq<nat>, F: set<Pos>, p: nat)
  {
    p < |lev| && BlockOf(lev, p) in F
  }

  /** All `2^k` pages of the aligned run `(k, r)` are free. */
  ghost predicate FreeRun(lev: seq<nat>, F: set<Pos>, run: Pos)
  {
    forall p: nat :: InBlock(run, p) ==> FreePage(lev, F, p)
  }

  /** Because no free buddies are left unmerged, a free run lies inside one free block. */
  lemma {:induction false} RunInOneBlock(lev: seq<nat>, F: set<Pos>, k: nat, r: nat, p: nat)
    requires Tiled(lev) && Apart(F) && k <= MAX_ORDER && FreeRun(lev, F, (k, r)) && InBlock((k, r), p)
    ensures p < |lev| && lev[p] >= k
    decreases k
  {
    assert FreePage(lev, F, p);
    if k > 0 {
      var half, other := Bin(p, k - 1), Sibling(Bin(p, k - 1));
      forall x: nat | InBlock((k - 1, half), x) || InBlock((k - 1, other), x)
        ensures InBlock((k, r), x)
      {
      }
      RunInOneBlock(lev, F, k - 1, half, p);
      var p2 := Head(k - 1, other);
      BinHead(k - 1, other);
      assert InBlock((k - 1, other), p2);
      RunInOneBlock(lev, F, k - 1, other, p2);
      if lev[p] == k - 1 {
        SmallerBuddy(lev, F, k, p, p2);
      }
    }
  }

  lemma BuddyTaken(F: set<Pos>, k: Pos)
    requires Apart(F) && k in F && k.0 < MAX_ORDER
    ensures BuddyOf(k) !in F
  {
  }

  lemma SmallerBuddy(lev: seq<nat>, F: set<Pos>, k: nat, p: nat, p2: nat)
    requires Tiled(lev) && Apart(F) && 0 < k <= MAX_ORDER && FreePage(lev, F, p) && FreePage(lev, F, p2)
    requires Bin(p2, k - 1) == Sibling(Bin(p, k - 1)) && lev[p2] >= k - 1
    ensures lev[p] != k - 1
  {
    hide Apart;
    if lev[p] == k - 1 {
      if lev[p2] == k - 1 {
        BuddyTaken(F, BlockOf(lev, p));
        assert false;
      } else {
        BinAgreesAbove(p, p2, k, lev[p2]);
        Partition(lev, p2, BlockOf(lev, p2));
        Partition(lev, p, BlockOf(lev, p2));
        assert false;
      }
    }
  }

  /** There is a free block of order at least `k` iff some aligned run of `2^k` pages is free. */
  lemma RunMeansBlock(lev: seq<nat>, F: set<Pos>, k: nat)
    requires Tiled(lev) && Apart(F) && k <= MAX_ORDER && (forall b :: b in F ==> IsBlock(lev, b))
    ensures (exists r: nat :: FreeRun(lev, F, (k, r))) <==> (exists b :: b in F && b.0 >= k)
  {
    if r: nat :| FreeRun(lev, F, (k, r)) {
      var p := Head(k, r);
      BinHead(k, r);
      assert InBlock((k, r), p) && FreePage(lev, F, p);
      RunInOneBlock(lev, F, k, r, p);
      assert BlockOf(lev, p) in F;
    }
    if b :| b in F && b.0 >= k {
      var h := Head(b.0, b.1);
      var r := Bin(h, k);
      forall p: nat | InBlock((k, r), p)
        ensures FreePage(lev, F, p)
      {
        BinHead(b.0, b.1);
        BinAgreesAbove(p, h, k, b.0);
        Partition(lev, p, b);
      }
      assert FreeRun(lev, F, (k, r));
    }
  }
}
