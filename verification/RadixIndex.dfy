/**
 Index arithmetic of the radix tree: `index >> (6 * k)` and its lower adjoint,
 the first index of the block `q` at level `k` (RADIX_TREE_MAP_SHIFT is 6).
 */
module RadixIndex {

  /** `x >> (6 * k)`. */
  function Shr(x: nat, k: nat): nat
  {
    if k == 0 then x else Shr(x, k - 1) / 64
  }

  /** `q << (6 * k)`. */
  function Shl(q: nat, k: nat): nat
    decreases k
  {
    if k == 0 then q else Shl(64 * q, k - 1)
  }

  /** Shifting right and shifting left form a Galois connection. */
  lemma {:induction false} ShiftAdjoint(x: nat, q: nat, k: nat)
    ensures q <= Shr(x, k) <==> Shl(q, k) <= x
    decreases k
  {
    if k > 0 {
      ShiftAdjoint(x, 64 * q, k - 1);
    }
  }

  /** The indices of block `q` at level `k` are exactly `[Shl(q, k), Shl(q + 1, k))`. */
  lemma BlockRange(x: nat, q: nat, k: nat)
    ensures Shr(x, k) == q <==> Shl(q, k) <= x < Shl(q + 1, k)
  {
    ShiftAdjoint(x, q, k);
    ShiftAdjoint(x, q + 1, k);
  }

  /** Indices that agree at one level agree at every higher level. */
  lemma {:induction false} ShrAgreesAbove(x: nat, y: nat, k: nat, m: nat)
    requires k <= m && Shr(x, k) == Shr(y, k)
    ensures Shr(x, m) == Shr(y, m)
    decreases m
  {
    if k < m {
      ShrAgreesAbove(x, y, k, m - 1);
    }
  }

  lemma {:induction false} ShrZeroAbove(x: nat, k: nat, m: nat)
    requires k <= m && Shr(x, k) == 0
    ensures Shr(x, m) == 0
    decreases m
  {
    if k < m {
      ShrZeroAbove(x, k, m - 1);
    }
  }

  lemma {:induction false} ShrOfZero(k: nat)
    ensures Shr(0, k) == 0
  {
    if k > 0 {
      ShrOfZero(k - 1);
    }
  }

  /** Some member of `S` lies in block `q` at level `k`. */
  ghost predicate Below(S: set<nat>, k: nat, q: nat)
  {
    exists x :: x in S && Shr(x, k) == q
  }

  /** Child `i` of block `q`. */
  function Kid(q: nat, i: nat): nat
  {
    64 * q + i
  }

  /** A block holds a member iff one of its 64 children does. */
  lemma BelowSplits(S: set<nat>, k: nat, q: nat)
    ensures Below(S, k + 1, q) <==> exists i: nat :: i < 64 && Below(S, k, Kid(q, i))
  {
    if Below(S, k + 1, q) {
      var x :| x in S && Shr(x, k + 1) == q;
      assert Shr(x, k) == Kid(q, Shr(x, k) % 64);
      assert Below(S, k, Kid(q, Shr(x, k) % 64));
    }
    if i: nat :| i < 64 && Below(S, k, Kid(q, i)) {
      var x :| x in S && Shr(x, k) == Kid(q, i);
      assert Shr(x, k + 1) == q;
    }
  }

  /** Adding one index changes exactly the blocks on its path. */
  lemma BelowAdd(S: set<nat>, x: nat, k: nat, q: nat)
    ensures Below(S + {x}, k, q) <==> Below(S, k, q) || q == Shr(x, k)
  {
    if Below(S, k, q) {
      var y :| y in S && Shr(y, k) == q;
      assert y in S + {x};
    }
    if q == Shr(x, k) {
      assert x in S + {x};
    }
  }

  /** Removing one index leaves every block off its path alone. */
  lemma BelowRemoveOffPath(S: set<nat>, x: nat, k: nat, q: nat)
    requires q != Shr(x, k)
    ensures Below(S - {x}, k, q) <==> Below(S, k, q)
  {
    if Below(S, k, q) {
      var y :| y in S && Shr(y, k) == q;
      assert y in S - {x};
    }
  }

  /** If a block on the path of `x` keeps a member without `x`, so does every block above it. */
  lemma BelowRemoveAbove(S: set<nat>, x: nat, k: nat, m: nat, q: nat)
    requires k <= m && Below(S - {x}, k, Shr(x, k))
    ensures Below(S - {x}, m, q) <==> Below(S, m, q)
  {
    if q != Shr(x, m) {
      BelowRemoveOffPath(S, x, m, q);
    } else {
      var y :| y in S - {x} && Shr(y, k) == Shr(x, k);
      ShrAgreesAbove(y, x, k, m);
      assert y in S;
    }
  }

  /** Number of non-NULL words in a slot array. */
  function NonNull(s: seq<nat>): nat
  {
    if s == [] then 0 else NonNull(s[..|s| - 1]) + (if s[|s| - 1] != 0 then 1 else 0)
  }

  lemma {:induction false} NonNullUpdate(s: seq<nat>, i: nat, v: nat)
    requires i < |s|
    ensures NonNull(s[i := v]) + (if s[i] != 0 then 1 else 0) == NonNull(s) + (if v != 0 then 1 else 0)
  {
    var n := |s| - 1;
    if i < n {
      NonNullUpdate(s[..n], i, v);
      assert s[i := v][..n] == s[..n][i := v];
    } else {
      assert s[i := v][..n] == s[..n];
    }
  }

  lemma {:induction false} NonNullZero(s: seq<nat>)
    ensures NonNull(s) == 0 <==> forall i :: 0 <= i < |s| ==> s[i] == 0
  {
    if s != [] {
      NonNullZero(s[..|s| - 1]);
    }
  }

  /** Slot 0 is the only one in use iff it is in use and the count is one. */
  lemma NonNullOnlyFirst(s: seq<nat>)
    requires |s| > 0 && s[0] != 0
    ensures NonNull(s) == 1 <==> forall i :: 0 < i < |s| ==> s[i] == 0
  {
    NonNullUpdate(s, 0, 0);
    NonNullZero(s[0 := 0]);
    assert forall i :: 0 < i < |s| ==> s[0 := 0][i] == s[i];
  }

  /** The members of `S` in `[lo, hi)`, in increasing order. */
  function Listing(S: set<nat>, lo: nat, hi: nat): seq<nat>
    decreases hi - lo
  {
    if lo >= hi then [] else (if lo in S then [lo] else []) + Listing(S, lo + 1, hi)
  }

  lemma {:induction false} ListingConcat(S: set<nat>, a: nat, b: nat, c: nat)
    requires a <= b <= c
    ensures Listing(S, a, c) == Listing(S, a, b) + Listing(S, b, c)
    decreases b - a
  {
    if a < b {
      ListingConcat(S, a + 1, b, c);
    }
  }

  lemma {:induction false} ListingEmpty(S: set<nat>, a: nat, b: nat)
    requires forall x :: x in S ==> !(a <= x < b)
    ensures Listing(S, a, b) == []
    decreases b - a
  {
    if a < b {
      ListingEmpty(S, a + 1, b);
    }
  }

  /** A listing has exactly the members in range. */
  lemma {:induction false} ListingMembers(S: set<nat>, lo: nat, hi: nat)
    ensures forall x :: x in Listing(S, lo, hi) <==> x in S && lo <= x < hi
    decreases hi - lo
  {
    if lo < hi {
      ListingMembers(S, lo + 1, hi);
    }
  }

  /** A listing is strictly increasing, so each member occurs exactly once. */
  lemma {:induction false} ListingIncreasing(S: set<nat>, lo: nat, hi: nat)
    ensures forall i, j :: 0 <= i < j < |Listing(S, lo, hi)| ==> Listing(S, lo, hi)[i] < Listing(S, lo, hi)[j]
    decreases hi - lo
  {
    if lo < hi {
      ListingIncreasing(S, lo + 1, hi);
      var rest := Listing(S, lo + 1, hi);
      forall j | 0 <= j < |rest|
        ensures lo < rest[j]
      {
        assert rest[j] in rest;
        ListingMembers(S, lo + 1, hi);
      }
    }
  }

  lemma EmptyListing(S: set<nat>, a: nat)
    ensures Listing(S, a, a) == []
  {
  }

  /** Extending the range by one index at its end. */
  lemma ListingStep(S: set<nat>, a: nat, b: nat)
    requires a <= b
    ensures Listing(S, a, b + 1) == Listing(S, a, b) + (if b in S then [b] else [])
  {
    ListingConcat(S, a, b, b + 1);
    assert Listing(S, b + 1, b + 1) == [];
  }

  /** Beyond the largest member a listing does not grow. */
  lemma {:induction false} ListingEnd(S: set<nat>, a: nat, b: nat, c: nat, m: nat)
    requires m <= b && m <= c && forall x :: x in S ==> x < m
    ensures Listing(S, a, b) == Listing(S, a, c)
    ensures |Listing(S, a, b)| <= m
  {
    if a >= m {
      ListingEmpty(S, a, b);
      ListingEmpty(S, a, c);
    } else {
      ListingConcat(S, a, m, b);
      ListingConcat(S, a, m, c);
      ListingEmpty(S, m, b);
      ListingEmpty(S, m, c);
      ListingLength(S, a, m);
    }
  }

  lemma {:induction false} ListingLength(S: set<nat>, a: nat, b: nat)
    requires a <= b
    ensures |Listing(S, a, b)| <= b - a
    decreases b - a
  {
    if a < b {
      ListingLength(S, a + 1, b);
    }
  }

  /** Whatever is wanted in the leaf a listing ends at, or before, is in it. */
  lemma LeafListed(S: set<nat>, first: nat, end: nat, x: nat)
    requires first < end && end % 64 == 0 && x in S && first <= x && x / 64 <= (end - 1) / 64
    ensures x in Listing(S, first, end)
  {
    ListingMembers(S, first, end);
  }

  lemma OnlyZero(S: set<nat>)
    requires S == {0}
    ensures forall b: nat :: b > 0 ==> Listing(S, 0, b) == [0]
  {
    forall b: nat | b > 0
      ensures Listing(S, 0, b) == [0]
    {
      ListingEmpty(S, 1, b);
    }
  }
}
