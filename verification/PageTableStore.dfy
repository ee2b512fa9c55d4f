/**
 Three-level Sv39 page tables (section 4.4 of the RISC-V Privileged Architecture, version 20211203)
 as a store of table pages, and the layout that makes them a tree.

 The table of level `l` with prefix `q` holds the entries `(l, 512 * q + i)`; entry `(l, r)` is the
 one that virtual page `v` uses at level `l` when `v >> (9 * l) == r`. Leaves sit at level 0 (pages)
 and level 1 (2 MB superpages).
 */
module PageTableStore {

  type Pos = (nat, nat)

  datatype Flag = V | R | W | X | U | A | D | Share | ReadOnly

  datatype Pte = Pte(pfn: nat, flags: set<Flag>)

  const ZERO := Pte(0, {})

  predicate IsValid(p: Pte)
  {
    V in p.flags
  }

  /** A valid entry that can be read or executed through maps memory; otherwise it points to a table. */
  predicate IsLeaf(p: Pte)
  {
    V in p.flags && (R in p.flags || X in p.flags)
  }

  /** `v >> (9 * l)`. */
  function Sh(v: nat, l: nat): nat
  {
    if l == 0 then v else Sh(v, l - 1) / 512
  }

  function Kid(q: nat, i: nat): nat
  {
    512 * q + i
  }

  /** The content of entry `(l, r)`: a leaf, a pointer to the next table, or nothing. */
  ghost function Entry(at: map<Pos, nat>, leaves: map<Pos, Pte>, l: nat, r: nat): Pte
  {
    if (l, r) in leaves then leaves[(l, r)]
    else if l >= 1 && (l - 1, r) in at then Pte(at[(l - 1, r)], {V})
    else ZERO
  }

  ghost predicate TableOk(t: seq<Pte>, at: map<Pos, nat>, leaves: map<Pos, Pte>, k: Pos)
  {
    |t| == 512 && forall i: nat :: i < 512 ==> t[i] == Entry(at, leaves, k.0, Kid(k.1, i))
  }

  /** Table addresses and positions determine each other; every table but the root hangs below another. */
  ghost predicate Placed(at: map<Pos, nat>, pos: map<nat, Pos>)
  {
    && (2, 0) in at
    && (forall a :: a in pos ==> pos[a] in at && at[pos[a]] == a)
    && (forall k: Pos :: k in at ==> at[k] in pos && pos[at[k]] == k && k.0 <= 2)
    && (forall k: Pos :: k in at && k.0 < 2 ==> (k.0 + 1, k.1 / 512) in at)
    && (forall k: Pos :: k in at && k.0 == 2 ==> k.1 == 0)
  }

  ghost predicate TablesOk(tables: map<nat, seq<Pte>>, at: map<Pos, nat>, pos: map<nat, Pos>, leaves: map<Pos, Pte>)
  {
    forall a :: a in pos ==> a in tables && TableOk(tables[a], at, leaves, pos[a])
  }

  /** Leaves are leaf entries of existing tables, and no table hangs below a superpage. */
  ghost predicate LeavesOk(at: map<Pos, nat>, leaves: map<Pos, Pte>)
  {
    && (forall k: Pos :: k in leaves ==> k.0 <= 1 && IsLeaf(leaves[k]) && (k.0, k.1 / 512) in at)
    && (forall k: Pos :: k in leaves && k.0 == 1 ==> (0, k.1) !in at)
  }

  ghost predicate Inv(tables: map<nat, seq<Pte>>, at: map<Pos, nat>, pos: map<nat, Pos>, leaves: map<Pos, Pte>)
  {
    Placed(at, pos) && TablesOk(tables, at, pos, leaves) && LeavesOk(at, leaves)
  }

  // ---- the flat view ----

  datatype Mapping = Mapped(pfn: nat, flags: set<Flag>) | Unmapped

  /** The translation of one virtual page. */
  ghost function Flat(leaves: map<Pos, Pte>, v: nat): Mapping
  {
    if (1, v / 512) in leaves then Mapped(leaves[(1, v / 512)].pfn + v % 512, leaves[(1, v / 512)].flags)
    else if (0, v) in leaves then Mapped(leaves[(0, v)].pfn, leaves[(0, v)].flags)
    else Unmapped
  }

  // ---- one entry changed ----

  lemma TableUpdate(t: seq<Pte>, at: map<Pos, nat>, leaves: map<Pos, Pte>, at': map<Pos, nat>, leaves': map<Pos, Pte>,
                    l: nat, r: nat)
    requires TableOk(t, at, leaves, (l, r / 512))
    requires forall x: nat :: x != r ==> Entry(at', leaves', l, x) == Entry(at, leaves, l, x)
    ensures TableOk(t[r % 512 := Entry(at', leaves', l, r)], at', leaves', (l, r / 512))
  {
    assert Kid(r / 512, r % 512) == r;
    forall i: nat | i < 512 && i != r % 512
      ensures t[i] == Entry(at', leaves', l, Kid(r / 512, i))
    {
      assert Kid(r / 512, i) != r;
    }
  }

  lemma TableFrame(t: seq<Pte>, at: map<Pos, nat>, leaves: map<Pos, Pte>, at': map<Pos, nat>, leaves': map<Pos, Pte>,
                   k: Pos, l: nat, r: nat)
    requires TableOk(t, at, leaves, k) && k != (l, r / 512)
    requires forall m: nat, x: nat :: m != l || x != r ==> Entry(at', leaves', m, x) == Entry(at, leaves, m, x)
    ensures TableOk(t, at', leaves', k)
  {
    forall i: nat | i < 512
      ensures t[i] == Entry(at', leaves', k.0, Kid(k.1, i))
    {
      assert k.0 != l || Kid(k.1, i) != r;
    }
  }

  /** Writing the entry in which two layouts differ carries all tables from one to the other. */
  lemma TablesUpdate(tables: map<nat, seq<Pte>>, at: map<Pos, nat>, pos: map<nat, Pos>, leaves: map<Pos, Pte>,
                     at': map<Pos, nat>, leaves': map<Pos, Pte>, l: nat, r: nat, a: nat)
    requires Placed(at, pos) && TablesOk(tables, at, pos, leaves)
    requires a in pos && pos[a] == (l, r / 512) && a in tables && |tables[a]| == 512
    requires forall m: nat, x: nat :: m != l || x != r ==> Entry(at', leaves', m, x) == Entry(at, leaves, m, x)
    ensures TablesOk(tables[a := tables[a][r % 512 := Entry(at', leaves', l, r)]], at', pos, leaves')
  {
    var tables' := tables[a := tables[a][r % 512 := Entry(at', leaves', l, r)]];
    forall b | b in pos
      ensures b in tables' && TableOk(tables'[b], at', leaves', pos[b])
    {
      if b == a {
        TableUpdate(tables[a], at, leaves, at', leaves', l, r);
      } else {
        TableFrame(tables[b], at, leaves, at', leaves', pos[b], l, r);
      }
    }
  }

  /** The entry of `v` at level `l`, read from its table. */
  lemma ReadEntry(tables: map<nat, seq<Pte>>, at: map<Pos, nat>, pos: map<nat, Pos>, leaves: map<Pos, Pte>,
                  l: nat, r: nat)
    requires Inv(tables, at, pos, leaves) && (l, r / 512) in at
    ensures var a := at[(l, r / 512)];
            && l <= 2 && a in tables && a in pos && pos[a] == (l, r / 512) && |tables[a]| == 512
            && tables[a][r % 512] == Entry(at, leaves, l, r)
  {
    assert Kid(r / 512, r % 512) == r;
  }

  const EMPTY_TABLE: seq<Pte> := seq(512, _ => ZERO)

  /** A fresh table linked into the empty entry `(l, r)`. */
  lemma AddTable(tables: map<nat, seq<Pte>>, at: map<Pos, nat>, pos: map<nat, Pos>, leaves: map<Pos, Pte>,
                 l: nat, r: nat, a: nat)
    requires Inv(tables, at, pos, leaves)
    requires 1 <= l <= 2 && (l, r / 512) in at && (l - 1, r) !in at && (l, r) !in leaves && a !in tables
    ensures var b := at[(l, r / 512)];
            b in tables && |tables[b]| == 512
            && Inv(tables[b := tables[b][r % 512 := Pte(a, {V})]][a := EMPTY_TABLE],
                   at[(l - 1, r) := a], pos[a := (l - 1, r)], leaves)
  {
    hide TableOk, Placed, LeavesOk, Entry;
    var at', pos' := at[(l - 1, r) := a], pos[a := (l - 1, r)];
    var b := at[(l, r / 512)];
    ReadEntry(tables, at, pos, leaves, l, r);
    EntriesAdd(at, leaves, l, r, a);
    TablesUpdate(tables, at, pos, leaves, at', leaves, l, r, b);
    NewTable(at, pos, leaves, l, r, a);
    PlacedAdd(at, pos, l, r, a);
    LeavesAdd(at, leaves, l, r, a);
  }

  lemma EntriesAdd(at: map<Pos, nat>, leaves: map<Pos, Pte>, l: nat, r: nat, a: nat)
    requires l >= 1 && (l, r) !in leaves
    ensures forall m: nat, x: nat :: m != l || x != r ==>
              Entry(at[(l - 1, r) := a], leaves, m, x) == Entry(at, leaves, m, x)
    ensures Entry(at[(l - 1, r) := a], leaves, l, r) == Pte(a, {V})
  {
  }

  lemma LeavesAdd(at: map<Pos, nat>, leaves: map<Pos, Pte>, l: nat, r: nat, a: nat)
    requires LeavesOk(at, leaves) && l >= 1 && (l, r) !in leaves
    ensures LeavesOk(at[(l - 1, r) := a], leaves)
  {
  }

  lemma PlacedAdd(at: map<Pos, nat>, pos: map<nat, Pos>, l: nat, r: nat, a: nat)
    requires Placed(at, pos) && 1 <= l <= 2 && (l, r / 512) in at && (l - 1, r) !in at && a !in pos
    ensures Placed(at[(l - 1, r) := a], pos[a := (l - 1, r)])
  {
    var n: Pos := (l - 1, r);
    var at', pos' := at[n := a], pos[a := n];
    forall b | b in pos'
      ensures pos'[b] in at' && at'[pos'[b]] == b
    {
      assert b != a ==> pos[b] != n;
    }
    forall k: Pos | k in at'
      ensures at'[k] in pos' && pos'[at'[k]] == k && k.0 <= 2
    {
      assert k != n ==> at[k] != a;
    }
    forall k: Pos | k in at' && k.0 < 2
      ensures (k.0 + 1, k.1 / 512) in at'
    {
      assert k != n ==> (k.0 + 1, k.1 / 512) in at;
    }
  }

  lemma NewTable(at: map<Pos, nat>, pos: map<nat, Pos>, leaves: map<Pos, Pte>, l: nat, r: nat, a: nat)
    requires Placed(at, pos) && LeavesOk(at, leaves) && 1 <= l <= 2 && (l - 1, r) !in at
    ensures TableOk(EMPTY_TABLE, at[(l - 1, r) := a], leaves, (l - 1, r))
  {
    forall i: nat | i < 512
      ensures Entry(at[(l - 1, r) := a], leaves, l - 1, Kid(r, i)) == ZERO
    {
      assert Kid(r, i) / 512 == r;
      assert (l - 1, Kid(r, i)) !in leaves;
    }
  }

  /** Position `(l, r)` can hold a leaf: its table is there and no table hangs below it. */
  ghost predicate CanHold(at: map<Pos, nat>, l: nat, r: nat)
  {
    l <= 1 && (l, r / 512) in at && (l == 1 ==> (0, r) !in at)
  }

  /** A leaf written into its entry. */
  lemma SetLeaf(tables: map<nat, seq<Pte>>, at: map<Pos, nat>, pos: map<nat, Pos>, leaves: map<Pos, Pte>,
                l: nat, r: nat, p: Pte)
    requires Inv(tables, at, pos, leaves) && CanHold(at, l, r) && IsLeaf(p)
    ensures var b := at[(l, r / 512)];
            b in tables && |tables[b]| == 512
            && Inv(tables[b := tables[b][r % 512 := p]], at, pos, leaves[(l, r) := p])
    ensures forall v: nat :: Flat(leaves[(l, r) := p], v) ==
              if Sh(v, l) == r then Mapped(p.pfn + (if l == 1 then v % 512 else 0), p.flags) else Flat(leaves, v)
  {
    hide TableOk, Placed, Flat;
    ReadEntry(tables, at, pos, leaves, l, r);
    TablesUpdate(tables, at, pos, leaves, at, leaves[(l, r) := p], l, r, at[(l, r / 512)]);
    FlatSet(at, pos, leaves, l, r, p);
  }

  lemma FlatSet(at: map<Pos, nat>, pos: map<nat, Pos>, leaves: map<Pos, Pte>, l: nat, r: nat, p: Pte)
    requires Placed(at, pos) && LeavesOk(at, leaves) && CanHold(at, l, r)
    ensures forall v: nat :: Flat(leaves[(l, r) := p], v) ==
              if Sh(v, l) == r then Mapped(p.pfn + (if l == 1 then v % 512 else 0), p.flags) else Flat(leaves, v)
  {
    assert l == 0 ==> (1, r / 512) !in leaves;
  }

  /** A leaf erased. */
  lemma ClearLeaf(tables: map<nat, seq<Pte>>, at: map<Pos, nat>, pos: map<nat, Pos>, leaves: map<Pos, Pte>,
                  l: nat, r: nat)
    requires Inv(tables, at, pos, leaves) && (l, r) in leaves
    ensures l <= 1 && (l, r / 512) in at
    ensures var b := at[(l, r / 512)];
            b in tables && |tables[b]| == 512
            && Inv(tables[b := tables[b][r % 512 := ZERO]], at, pos, leaves - {(l, r)})
    ensures forall v: nat :: Flat(leaves - {(l, r)}, v) == if Sh(v, l) == r then Unmapped else Flat(leaves, v)
  {
    hide TableOk, Placed, Flat;
    ReadEntry(tables, at, pos, leaves, l, r);
    NoTableBelow(at, pos, leaves, l, r);
    TablesUpdate(tables, at, pos, leaves, at, leaves - {(l, r)}, l, r, at[(l, r / 512)]);
    FlatClear(at, pos, leaves, l, r);
  }

  lemma NoTableBelow(at: map<Pos, nat>, pos: map<nat, Pos>, leaves: map<Pos, Pte>, l: nat, r: nat)
    requires LeavesOk(at, leaves) && (l, r) in leaves
    ensures Entry(at, leaves - {(l, r)}, l, r) == ZERO
  {
  }

  lemma FlatClear(at: map<Pos, nat>, pos: map<nat, Pos>, leaves: map<Pos, Pte>, l: nat, r: nat)
    requires Placed(at, pos) && LeavesOk(at, leaves) && (l, r) in leaves
    ensures forall v: nat :: Flat(leaves - {(l, r)}, v) == if Sh(v, l) == r then Unmapped else Flat(leaves, v)
  {
    if l == 0 {
      assert (1, r / 512) !in leaves;
    } else {
      forall v: nat | v / 512 == r
        ensures (0, v) !in leaves
      {
      }
    }
  }
}
