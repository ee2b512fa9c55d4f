/**
 Page numbers and the aligned power-of-two blocks they belong to.

 A block of order `k` is named by its position `(k, q)`: it holds the pages `p` with
 `p >> k == q`, starts at page `q << k` and its buddy is `(k, q ^ 1)`.
 */
module BuddyIndex {

  type Pos = (nat, nat)

  /** `p >> k`. */
  function Bin(p: nat, k: nat): nat
  {
    if k == 0 then p else Bin(p, k - 1) / 2
  }

  /** `q << k`, the first page of block `(k, q)`. */
  function Head(k: nat, q: nat): nat
    decreases k
  {
    if k == 0 then q else Head(k - 1, 2 * q)
  }

  /** `1 << k`. */
  function Pow2(k: nat): (r: nat)
    ensures r > 0
  {
    if k == 0 then 1 else 2 * Pow2(k - 1)
  }

  /** `q ^ 1`. */
  function Sibling(q: nat): nat
  {
    if q % 2 == 0 then q + 1 else q - 1
  }

  lemma {:induction false} BinAdjoint(p: nat, k: nat, q: nat)
    ensures q <= Bin(p, k) <==> Head(k, q) <= p
    decreases k
  {
    if k > 0 {
      BinAdjoint(p, k - 1, 2 * q);
    }
  }

  /** The first page of a block belongs to it. */
  lemma {:induction false} BinHead(k: nat, q: nat)
    ensures Bin(Head(k, q), k) == q
    decreases k
  {
    if k > 0 {
      BinHead(k - 1, 2 * q);
    }
  }

  lemma {:induction false} HeadIsMultiple(k: nat, q: nat)
    ensures Head(k, q) == q * Pow2(k)
    decreases k
  {
    if k > 0 {
      HeadIsMultiple(k - 1, 2 * q);
      MulHalf(q, Pow2(k - 1));
    }
  }

  lemma MulHalf(q: nat, p: nat)
    ensures (2 * q) * p == q * (2 * p)
  {
  }

  /** A block is exactly the interval of `2^k` pages from its head. */
  lemma BlockInterval(k: nat, q: nat, p: nat)
    ensures Bin(p, k) == q <==> Head(k, q) <= p < Head(k, q) + Pow2(k)
  {
    BinAdjoint(p, k, q);
    BinAdjoint(p, k, q + 1);
    HeadIsMultiple(k, q);
    HeadIsMultiple(k, q + 1);
    assert (q + 1) * Pow2(k) == q * Pow2(k) + Pow2(k);
  }

  lemma {:induction false} BinAgreesAbove(p: nat, r: nat, k: nat, m: nat)
    requires k <= m && Bin(p, k) == Bin(r, k)
    ensures Bin(p, m) == Bin(r, m)
    decreases m
  {
    if k < m {
      BinAgreesAbove(p, r, k, m - 1);
    }
  }

  /** The first page of a block is also the first page of every smaller block it lies in. */
  lemma {:induction false} HeadOfHead(k: nat, q: nat, m: nat)
    requires m <= k
    ensures Head(m, Bin(Head(k, q), m)) == Head(k, q)
    decreases k - m
  {
    if m == k {
      BinHead(k, q);
    } else {
      HeadOfHead(k, q, m + 1);
      var r := Bin(Head(k, q), m + 1);
      assert Head(m + 1, r) == Head(m, 2 * r);
      BinHead(m, 2 * r);
    }
  }

  lemma HeadSplit(k: nat, q: nat)
    requires k > 0
    ensures Head(k, q) == Head(k - 1, 2 * q)
    ensures Head(k - 1, 2 * q + 1) == Head(k, q) + Pow2(k - 1)
  {
    HeadIsMultiple(k - 1, 2 * q);
    HeadIsMultiple(k - 1, 2 * q + 1);
    assert (2 * q + 1) * Pow2(k - 1) == (2 * q) * Pow2(k - 1) + Pow2(k - 1);
  }
}
