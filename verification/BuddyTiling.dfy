/**
 How the blocks of a pool tile its pages, and how split and merge change the tiling.

 `lev[p]` is the order of the block page `p` lies in; the pool has `|lev|` pages, any number.
 */
module BuddyTiling {
  import opened BuddyIndex

  const MAX_ORDER := 13

  ghost function BlockOf(lev: seq<nat>, p: nat): Pos
    requires p < |lev|
  {
    (lev[p], Bin(p, lev[p]))
  }

  ghost predicate InBlock(k: Pos, p: nat)
  {
    Bin(p, k.0) == k.1
  }

  ghost predicate IsBlock(lev: seq<nat>, k: Pos)
  {
    Head(k.0, k.1) < |lev| && lev[Head(k.0, k.1)] == k.0
  }

  /** Pages of one block agree on it, and a block never reaches outside the pool. */
  ghost predicate Tiled(lev: seq<nat>)
  {
    && (forall p: nat :: p < |lev| ==> lev[p] <= MAX_ORDER)
    && (forall p: nat, r: nat {:trigger InBlock(BlockOf(lev, p), r)} ::
          p < |lev| && InBlock(BlockOf(lev, p), r) ==> r < |lev| && lev[r] == lev[p])
  }

  /** The blocks partition the pool: each page lies in exactly one of them. */
  lemma Partition(lev: seq<nat>, p: nat, k: Pos)
    requires Tiled(lev)
    ensures p < |lev| ==> IsBlock(lev, BlockOf(lev, p)) && InBlock(BlockOf(lev, p), p)
    ensures IsBlock(lev, k) && InBlock(k, p) ==> p < |lev| && BlockOf(lev, p) == k
  {
    if p < |lev| {
      var b := BlockOf(lev, p);
      BinHead(b.0, b.1);
      assert InBlock(b, Head(b.0, b.1));
    }
    if IsBlock(lev, k) && InBlock(k, p) {
      BinHead(k.0, k.1);
      assert BlockOf(lev, Head(k.0, k.1)) == k;
    }
  }

  /** Every block is an aligned run of `2^k` pages inside the pool. */
  lemma BlockInPool(lev: seq<nat>, k: Pos)
    requires Tiled(lev) && IsBlock(lev, k)
    ensures k.0 <= MAX_ORDER && Head(k.0, k.1) == k.1 * Pow2(k.0) && Head(k.0, k.1) + Pow2(k.0) <= |lev|
  {
    HeadIsMultiple(k.0, k.1);
    var last := Head(k.0, k.1) + Pow2(k.0) - 1;
    BlockInterval(k.0, k.1, last);
    Partition(lev, last, k);
  }

  /** Position `k` lies inside the pool and covers whole blocks of order at most its own. */
  ghost predicate Region(lev: seq<nat>, k: Pos)
  {
    forall p: nat :: InBlock(k, p) ==> p < |lev| && lev[p] <= k.0
  }

  /** The pages of region `k` moved to blocks of order `j`. */
  ghost function Relevel(lev: seq<nat>, k: Pos, j: nat): seq<nat>
  {
    seq(|lev|, p requires 0 <= p < |lev| => if InBlock(k, p) then j else lev[p])
  }

  lemma RelevelTiled(lev: seq<nat>, k: Pos, j: nat)
    requires Tiled(lev) && Region(lev, k) && j <= k.0 <= MAX_ORDER
    ensures Tiled(Relevel(lev, k, j))
  {
    var lev' := Relevel(lev, k, j);
    forall p: nat, r: nat {:trigger InBlock(BlockOf(lev', p), r)} | p < |lev| && InBlock(BlockOf(lev', p), r)
      ensures r < |lev| && lev'[r] == lev'[p]
    {
      if InBlock(k, p) {
        BinAgreesAbove(p, r, j, k.0);
        assert InBlock(k, r);
      } else {
        assert InBlock(BlockOf(lev, p), r);
        if InBlock(k, r) {
          BinAgreesAbove(p, r, lev[p], k.0);
        }
      }
    }
  }

  /** After a relevel, the blocks are the old ones outside the region and those of order `j` inside. */
  lemma RelevelBlocks(lev: seq<nat>, k: Pos, j: nat, b: Pos)
    ensures IsBlock(Relevel(lev, k, j), b) <==>
              Head(b.0, b.1) < |lev| && if InBlock(k, Head(b.0, b.1)) then b.0 == j else IsBlock(lev, b)
  {
  }

  lemma BlockIsRegion(lev: seq<nat>, k: Pos)
    requires Tiled(lev) && IsBlock(lev, k)
    ensures Region(lev, k)
  {
    forall p: nat | InBlock(k, p)
      ensures p < |lev| && lev[p] <= k.0
    {
      Partition(lev, p, k);
    }
  }

  ghost function BuddyOf(k: Pos): Pos
  {
    (k.0, Sibling(k.1))
  }

  ghost function Merged(k: Pos): Pos
  {
    (k.0 + 1, k.1 / 2)
  }

  /**
   The page read as the buddy of a block is always the head of some block of order at most `k.0`,
   so its metadata is never stale.
   */
  lemma BuddyIsHead(lev: seq<nat>, k: Pos)
    requires Tiled(lev) && IsBlock(lev, k) && Head(k.0, Sibling(k.1)) < |lev|
    ensures var b := Head(k.0, Sibling(k.1));
            lev[b] <= k.0 && Head(lev[b], Bin(b, lev[b])) == b && IsBlock(lev, BlockOf(lev, b))
    ensures lev[Head(k.0, Sibling(k.1))] == k.0 <==> IsBlock(lev, BuddyOf(k))
  {
    var h, b := Head(k.0, k.1), Head(k.0, Sibling(k.1));
    BinHead(k.0, k.1);
    BinHead(k.0, Sibling(k.1));
    if lev[b] > k.0 {
      assert Bin(h, k.0 + 1) == Bin(b, k.0 + 1);
      BinAgreesAbove(h, b, k.0 + 1, lev[b]);
      Partition(lev, b, k);
      Partition(lev, h, BlockOf(lev, b));
      assert false;
    } else {
      HeadOfHead(k.0, Sibling(k.1), lev[b]);
    }
    Partition(lev, b, k);
  }

  /** Two buddies of one order make up the merged region. */
  lemma MergedRegion(lev: seq<nat>, k: Pos)
    requires Tiled(lev) && IsBlock(lev, k) && IsBlock(lev, BuddyOf(k))
    ensures Region(lev, Merged(k))
    ensures forall p: nat :: InBlock(Merged(k), p) <==> InBlock(k, p) || InBlock(BuddyOf(k), p)
  {
    forall p: nat | InBlock(Merged(k), p)
      ensures p < |lev| && lev[p] <= k.0 + 1
    {
      assert InBlock(k, p) || InBlock(BuddyOf(k), p);
      Partition(lev, p, k);
      Partition(lev, p, BuddyOf(k));
    }
  }
}
