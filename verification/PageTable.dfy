/**
 An address space of src/mm/vm.c: walk, mappages, uvmunmap, uvmalloc and uvmdealloc on page tables
 updated in place. Virtual page numbers are addresses divided by the page size.
 */
module PageTable {
  import opened Common
  import opened PageTableStore

  const SUPERPGSIZE := 2097152

  /** Virtual pages below MAXVA, which is 2^38. */
  const MAX_VPN := 0x400_0000

  /** What `walk` hands back: no entry, or an entry and the level of the leaf found above it (0 if none). */
  datatype WalkResult = NoEntry | Found(level: nat, table: nat, index: nat)

  /** Blocks of frames do not overlap. */
  ghost predicate Disjoint(frames: map<nat, nat>)
  {
    forall b, c :: b in frames && c in frames && b < c ==> b + frames[b] <= c
  }

  class Space {
    const root: nat
    var tables: map<nat, seq<Pte>>
    /** Blocks of physical pages handed out for data: first frame to number of pages. */
    var frames: map<nat, nat>
    var nextFree: nat
    /** The calls of the allocator that find no memory, and how many calls there were. */
    const starved: set<nat>
    var asked: nat
    ghost var at: map<Pos, nat>
    ghost var pos: map<nat, Pos>
    ghost var leaves: map<Pos, Pte>

    ghost predicate Supply()
      reads `tables, `frames, `nextFree
    {
      && (forall a :: a in tables ==> a < nextFree)
      && (forall b :: b in frames ==> frames[b] > 0 && b + frames[b] <= nextFree)
      && Disjoint(frames)
    }

    ghost predicate Valid()
      reads this
    {
      Inv(tables, at, pos, leaves) && tables.Keys == pos.Keys && at[(2, 0)] == root && Supply()
    }

    /** `uvmcreate`: an empty root table. */
    constructor (page: nat, starved: set<nat>)
      ensures Valid() && leaves == map[] && frames == map[] && root == page && at == map[(2, 0) := page]
      ensures this.starved == starved && asked == 0
    {
      root, this.starved, asked := page, starved, 0;
      tables, frames, nextFree := map[page := EMPTY_TABLE], map[], page + 1;
      at, pos, leaves := map[(2, 0) := page], map[page := (2, 0)], map[];
    }

    /** `kzalloc` of a table page; whether there is memory is not ours to say. */
    method AllocTable() returns (r: Option<nat>)
      requires Supply()
      modifies `nextFree, `asked
      ensures Supply() && (r.Some? ==> r.value !in tables && r.value < nextFree)
      ensures asked == old(asked) + 1 && (r.None? <==> !Supplied(starved, old(asked), asked))
    {
      asked := asked + 1;
      if asked - 1 in starved {
        return None;
      }
      r := Some(nextFree);
      nextFree := nextFree + 1;
    }

    /** `kzalloc` of `n` physical pages, aligned for a superpage. */
    method AllocFrames(n: nat) returns (r: Option<nat>)
      requires Supply() && 0 < n <= 512
      modifies `nextFree, `asked, `frames
      ensures asked == old(asked) + 1 && (r.None? <==> !Supplied(starved, old(asked), asked))
      ensures Supply() && (r.None? ==> frames == old(frames))
      ensures r.Some? ==> r.value % 512 == 0 && r.value !in old(frames) && frames == old(frames)[r.value := n]
    {
      asked := asked + 1;
      if asked - 1 in starved {
        return None;
      }
      var base := (nextFree + 511) / 512 * 512;
      r := Some(base);
      frames := frames[base := n];
      nextFree := base + 512;
    }

    /** Where a successful walk ends up. */
    ghost predicate FoundAt(v: nat, low: nat, r: WalkResult)
      requires r.Found? && low <= 1
      reads `at, `leaves
    {
      if low == 0 && (1, v / 512) in leaves then
        (1, Sh(v, 2)) in at && r == Found(1, at[(1, Sh(v, 2))], Sh(v, 1) % 512)
      else
        (low, Sh(v, low + 1)) in at && r == Found(0, at[(low, Sh(v, low + 1))], Sh(v, low) % 512)
    }

    /** `walk` without allocation: the entry is there iff the tables on the way are, or a superpage ends it. */
    method WalkOnly(v: nat, low: nat) returns (r: WalkResult)
      requires Valid() && v < MAX_VPN && low <= 1
      ensures r.Found? ==> FoundAt(v, low, r)
      ensures r.NoEntry? ==> (low, Sh(v, low + 1)) !in at && (low == 0 ==> (1, v / 512) !in leaves)
    {
      hide Supply, TablesOk;
      ShTop(v);
      var table, level := root, 2;
      while level > low
        invariant low <= level <= 2 && (level, Sh(v, level + 1)) in at && table == at[(level, Sh(v, level + 1))]
        invariant level == 0 ==> (1, Sh(v, 1)) !in leaves
      {
        ReadEntry(tables, at, pos, leaves, level, Sh(v, level));
        EntryCases(tables, at, pos, leaves, level, Sh(v, level));
        var entry := tables[table][Sh(v, level) % 512];
        if IsValid(entry) {
          if IsLeaf(entry) {
            return Found(level, table, Sh(v, level) % 512);
          }
          table := entry.pfn;
        } else {
          return NoEntry;
        }
        level := level - 1;
      }
      r := Found(0, table, Sh(v, low) % 512);
    }

    /** Tables only appear on the path of `v`, and no leaf changes. */
    ghost predicate OnlyTables(v: nat, low: nat, at0: map<Pos, nat>)
      reads `at
    {
      && (forall k: Pos :: k in at0 ==> k in at && at[k] == at0[k])
      && (forall k: Pos :: k in at && k !in at0 ==> low <= k.0 <= 1 && k.1 == Sh(v, k.0 + 1))
    }

    /** One missing table, allocated and linked. */
    method GrowTable(v: nat, level: nat, table: nat) returns (r: Option<nat>)
      requires Valid() && 1 <= level <= 2 && (level, Sh(v, level + 1)) in at && table == at[(level, Sh(v, level + 1))]
      requires (level - 1, Sh(v, level)) !in at && (level, Sh(v, level)) !in leaves
      modifies `tables, `nextFree, `asked, `at, `pos
      ensures Valid()
      ensures r.None? ==> at == old(at) && tables == old(tables)
      ensures r.Some? ==> at == old(at)[(level - 1, Sh(v, level)) := r.value]
      ensures asked == old(asked) + 1 && (r.None? <==> !Supplied(starved, old(asked), asked))
    {
      hide Inv, Sh, Supplied;
      var idx := Sh(v, level);
      ShStep(v, level);
      ReadEntry(tables, at, pos, leaves, level, idx);
      r := AllocTable();
      if r.None? {
        return;
      }
      var page := r.value;
      AddTable(tables, at, pos, leaves, level, idx, page);
      tables := tables[table := tables[table][idx % 512 := Pte(page, {V})]][page := EMPTY_TABLE];
      at, pos := at[(level - 1, idx) := page], pos[page := (level - 1, idx)];
      PlacedRoot(tables, at, pos, leaves);
    }

    /** `walk` with allocation: the tables on the way are created; it fails only for lack of memory. */
    method WalkAlloc(v: nat, low: nat) returns (r: WalkResult)
      requires Valid() && v < MAX_VPN && low <= 1
      modifies `tables, `nextFree, `asked, `at, `pos
      ensures Valid() && OnlyTables(v, low, old(at))
      ensures r.Found? ==> FoundAt(v, low, r)
      ensures asked >= old(asked) && (r.NoEntry? <==> !Supplied(starved, old(asked), asked))
    {
      hide Supply, TablesOk, LeavesOk, Placed, Supplied;
      SuppliedJoin(starved, asked, asked, asked);
      ShTop(v);
      PlacedRoot(tables, at, pos, leaves);
      var table, level := root, 2;
      while level > low
        invariant Valid() && OnlyTables(v, low, old(at)) && asked >= old(asked) && Supplied(starved, old(asked), asked)
        invariant low <= level <= 2 && (level, Sh(v, level + 1)) in at && table == at[(level, Sh(v, level + 1))]
        invariant level == 0 ==> (1, Sh(v, 1)) !in leaves
      {
        ReadEntry(tables, at, pos, leaves, level, Sh(v, level));
        EntryCases(tables, at, pos, leaves, level, Sh(v, level));
        var entry := tables[table][Sh(v, level) % 512];
        if IsValid(entry) {
          if IsLeaf(entry) {
            return Found(level, table, Sh(v, level) % 512);
          }
          table := entry.pfn;
        } else {
          SuppliedJoin(starved, old(asked), asked, asked + 1);
          var page := GrowTable(v, level, table);
          if page.None? {
            return NoEntry;
          }
          table := page.value;
        }
        level := level - 1;
      }
      r := Found(0, table, Sh(v, low) % 512);
    }

    /** `walkaddr`: the flat translation of a user page, with the offset inside a superpage; 0 if there is none. */
    method WalkAddr(va: nat) returns (pa: nat)
      requires Valid()
      ensures pa == if va >= MAX_VPN * PGSIZE then 0
                    else match Flat(leaves, va / PGSIZE)
                         case Mapped(pfn, flags) => if U in flags then pfn * PGSIZE else 0
                         case Unmapped => 0
    {
      hide Supply, Inv;
      if va >= MAX_VPN * PGSIZE {
        return 0;
      }
      var v := va / PGSIZE;
      ShTop(v);
      ShStep(v, 1);
      var r := WalkOnly(v, 0);
      if r.NoEntry? {
        FlatNone(tables, at, pos, leaves, v);
        return 0;
      }
      ReadEntry(tables, at, pos, leaves, r.level, Sh(v, r.level));
      EntryCases(tables, at, pos, leaves, r.level, Sh(v, r.level));
      var entry := tables[r.table][r.index];
      if !IsValid(entry) || U !in entry.flags {
        return 0;
      }
      SuperOffset(va);
      return entry.pfn * PGSIZE + if r.level == 1 then va / PGSIZE * PGSIZE - va / SUPERPGSIZE * SUPERPGSIZE else 0;
    }

    /** One round of `mappages`: walk to the entry of unit `x` and write it, unless something is there. */
    method MapOne(x: nat, pte: Pte, low: nat) returns (r: MapResult)
      requires Valid() && low <= 1 && x * Unit(low) < MAX_VPN && IsLeaf(pte)
      modifies `tables, `nextFree, `asked, `at, `pos, `leaves
      ensures Valid() && OnlyTables(x * Unit(low), low, old(at))
      ensures r.MapOk? ==> (low, x) !in old(leaves) && leaves == old(leaves)[(low, x) := pte]
      ensures r.MapOk? ==> FlatPlus(leaves, old(leaves), low, x, pte)
      ensures !r.MapOk? ==> leaves == old(leaves)
      ensures r.MapRemap? ==> if low == 0 then Flat(old(leaves), x) != Unmapped else (1, x) in leaves || (0, x) in at
      ensures !r.MapBeyond? && asked >= old(asked) && (r.MapNoMemory? <==> !Supplied(starved, old(asked), asked))
    {
      hide Valid, Supplied, OnlyTables, FoundAt, FlatPlus, Flat;
      var w := WalkAlloc(x * Unit(low), low);
      if w.NoEntry? {
        return MapNoMemory;
      }
      r := WriteEntry(x, pte, low, w);
    }

    /** The entry the walk has found, read and written. */
    method WriteEntry(x: nat, pte: Pte, low: nat, w: WalkResult) returns (r: MapResult)
      requires Valid() && low <= 1 && x * Unit(low) < MAX_VPN && IsLeaf(pte) && w.Found? && FoundAt(x * Unit(low), low, w)
      modifies `tables, `leaves
      ensures Valid() && (r.MapOk? || r.MapRemap?)
      ensures r.MapOk? ==> (low, x) !in old(leaves) && leaves == old(leaves)[(low, x) := pte]
      ensures r.MapOk? ==> FlatPlus(leaves, old(leaves), low, x, pte)
      ensures r.MapRemap? ==> leaves == old(leaves)
      ensures r.MapRemap? ==> if low == 0 then Flat(old(leaves), x) != Unmapped else (1, x) in leaves || (0, x) in at
    {
      hide Inv;
      var v := x * Unit(low);
      UnitShift(x, low);
      ShTop(v);
      ShStep(v, 1);
      ghost var l, e := if w.level == 1 then 1 else low, Sh(v, if w.level == 1 then 1 else low);
      ShStep(v, l);
      ReadEntry(tables, at, pos, leaves, l, e);
      EntryCases(tables, at, pos, leaves, l, e);
      if IsValid(tables[w.table][w.index]) {
        return MapRemap;
      }
      SetLeaf(tables, at, pos, leaves, low, x, pte);
      tables := tables[w.table := tables[w.table][w.index := pte]];
      leaves := leaves[(low, x) := pte];
      r := MapOk;
    }

    /**
     `mappages`: map the units that `[va, va + size)` touches to consecutive frames. Short of memory it stops
     part way; where something is mapped already, and at the end of the address space, it panics.
     */
    method MapPages(va: nat, size: nat, pa: nat, perm: set<Flag>, low: nat) returns (r: MapResult, ghost done: nat)
      requires Valid() && size > 0 && low <= 1 && (low == 1 ==> va % SUPERPGSIZE == 0)
      requires R in perm || X in perm
      modifies `tables, `nextFree, `asked, `at, `pos, `leaves
      ensures Valid()
      ensures UnitOf(va, low) <= done <= UnitOf(va + size - 1, low) + 1
      ensures r.MapOk? <==> done == UnitOf(va + size - 1, low) + 1
      ensures RangeDone(leaves, old(leaves), low, UnitOf(va, low), done, pa / PGSIZE, perm + {V})
      ensures r.MapRemap? ==> if low == 0 then Flat(leaves, done) != Unmapped else (1, done) in leaves || (0, done) in at
      ensures r.MapBeyond? <==> done * Unit(low) >= MAX_VPN && !r.MapOk?
      ensures asked >= old(asked) && (r.MapNoMemory? <==> !Supplied(starved, old(asked), asked))
      ensures TablesWithin(old(at), at, low, UnitOf(va, low), UnitOf(va + size - 1, low))
    {
      hide Valid, Flat, FlatPlus, RangeDone, TablesWithin, Supplied;
      SuppliedJoin(starved, asked, asked, asked);
      var first, last := UnitOf(va, low), UnitOf(va + size - 1, low);
      var x: nat, pfn: nat := first, pa / PGSIZE;
      done := first;
      RangeStart(leaves, low, first, pfn, perm + {V});
      TablesSame(at, low, first, last);
      while true
        invariant Valid() && first <= x <= last && done == x && pfn == FrameAt(pa / PGSIZE, x - first, low)
        invariant RangeDone(leaves, old(leaves), low, first, x, pa / PGSIZE, perm + {V})
        invariant TablesWithin(old(at), at, low, first, last)
        invariant asked >= old(asked) && Supplied(starved, old(asked), asked)
        decreases last - x
      {
        if x * Unit(low) >= MAX_VPN {
          return MapBeyond, done;
        }
        ghost var before, at0, asked0 := leaves, at, asked;
        r := MapOne(x, Pte(pfn, perm + {V}), low);
        SuppliedJoin(starved, old(asked), asked0, asked);
        TablesGrow(old(at), at0, at, low, first, x, last);
        if !r.MapOk? {
          return;
        }
        RangeStep(leaves, before, old(leaves), low, first, x, pa / PGSIZE, perm + {V});
        done := x + 1;
        if x == last {
          return;
        }
        x := x + 1;
        pfn := pfn + Unit(low);
      }
    }

    lemma LeafFacts()
      requires Valid()
      ensures Levels(leaves) && NoOverlap(leaves)
    {
      hide TablesOk;
    }

    lemma LeafTable(v: nat)
      requires Valid() && (0, v) in leaves
      ensures (0, v / 512) in at
    {
      hide TablesOk, Placed;
    }

    /** What `uvmunmap` finds at page `a`, and erases. */
    method UnmapAt(a: nat, doFree: bool) returns (r: Option<Pos>)
      requires Valid() && a < MAX_VPN
      requires doFree ==> forall k: Pos :: k in leaves && Sh(a, k.0) == k.1 ==> leaves[k].pfn in frames
      modifies `tables, `leaves, `frames
      ensures Valid()
      ensures r.None? ==> Flat(leaves, a) == Unmapped && leaves == old(leaves) && frames == old(frames)
      ensures r.Some? ==> r.value in old(leaves) && r.value == (r.value.0, Sh(a, r.value.0)) && r.value.0 <= 1
      ensures r.Some? ==> leaves == old(leaves) - {r.value}
      ensures r.Some? ==> frames == if doFree then old(frames) - {old(leaves)[r.value].pfn} else old(frames)
    {
      hide Inv;
      ShTop(a);
      ShStep(a, 1);
      var w := WalkOnly(a, 0);
      if w.NoEntry? {
        FlatNone(tables, at, pos, leaves, a);
        return None;
      }
      ReadEntry(tables, at, pos, leaves, w.level, Sh(a, w.level));
      EntryCases(tables, at, pos, leaves, w.level, Sh(a, w.level));
      var entry := tables[w.table][w.index];
      if !IsValid(entry) {
        return None;
      }
      r := Some((w.level, Sh(a, w.level)));
      assert IsLeaf(entry);
      if doFree {
        frames := frames - {entry.pfn};
      }
      ClearLeaf(tables, at, pos, leaves, w.level, Sh(a, w.level));
      tables := tables[w.table := tables[w.table][w.index := ZERO]];
      leaves := leaves - {(w.level, Sh(a, w.level))};
    }

    /**
     `uvmunmap` on a range that cuts no superpage: on success exactly the leaves inside the range are gone, and
     their frames are freed if asked for. Without `onDemand` it panics at a page that is not mapped.
     */
    method Unmap(lo: nat, n: nat, doFree: bool, onDemand: bool) returns (ok: bool)
      requires Valid() && lo + n <= MAX_VPN
      requires forall k: Pos :: k in leaves ==> Inside(k, lo, lo + n) || Outside(k, lo, lo + n)
      requires doFree ==> Owned(leaves, frames, lo, lo + n)
      modifies `tables, `leaves, `frames
      ensures Valid()
      ensures ok ==> leaves == Remaining(old(leaves), lo, lo + n)
      ensures ok ==> forall v: nat :: Flat(leaves, v) == if lo <= v < lo + n then Unmapped else Flat(old(leaves), v)
      ensures ok ==> frames == if doFree then old(frames) - Held(old(leaves), lo, lo + n) else old(frames)
      ensures ok <==> onDemand || AllMapped(old(leaves), lo, lo + n)
    {
      hide Valid, Flat, Inside, Outside, Remaining, Held, Owned, Sh, AllMapped;
      var a, hi := lo, lo + n;
      NoneMapped(leaves, lo);
      LeafFacts();
      UnmapStart(leaves, lo, hi);
      while a < hi
        invariant lo <= a <= hi && Valid() && Unmapping(old(leaves), leaves, lo, a, hi)
        invariant frames == if doFree then old(frames) - Held(old(leaves), lo, a) else old(frames)
        invariant onDemand || AllMapped(old(leaves), lo, a)
        decreases hi - a
      {
        if doFree {
          StillOwned(old(leaves), leaves, old(frames), frames, lo, a, hi);
        }
        ghost var before := leaves;
        LeafFacts();
        var found := UnmapAt(a, doFree);
        if found.None? {
          UnmapMiss(old(leaves), leaves, lo, a, hi);
          if !onDemand {
            SomeUnmapped(old(leaves), lo, hi, a);
            return false;
          }
          a := a + 1;
        } else {
          UnmapHit(old(leaves), before, lo, a, hi, found.value);
          HitRange(old(leaves), before, lo, a, hi, found.value);
          if !onDemand {
            HitMapped(old(leaves), lo, a, found.value);
          }
          a := a + Unit(found.value.0);
        }
      }
      UnmapEnd(old(leaves), leaves, lo, hi);
      ok := true;
    }

    /** `uvmdealloc`: shrink from `oldsz` to `newsz`, freeing the pages in between. */
    method Uvmdealloc(oldsz: nat, newsz: nat) returns (r: nat, ok: bool)
      requires Valid() && oldsz <= MAX_VPN * PGSIZE
      requires var lo, hi := PgUp(newsz), PgUp(oldsz);
               lo < hi ==> (forall k: Pos :: k in leaves ==> Inside(k, lo, hi) || Outside(k, lo, hi))
                           && Owned(leaves, frames, lo, hi)
      modifies `tables, `leaves, `frames
      ensures Valid() && r == if newsz >= oldsz then oldsz else newsz
      ensures var lo, hi := PgUp(newsz), PgUp(oldsz);
              if lo < hi then
                && (ok ==> leaves == Remaining(old(leaves), lo, hi) && frames == old(frames) - Held(old(leaves), lo, hi))
                && (ok <==> AllMapped(old(leaves), lo, hi))
              else ok && leaves == old(leaves) && frames == old(frames)
    {
      hide Valid, Inside, Outside, Owned, Remaining, Held, Flat;
      ok := true;
      if newsz >= oldsz {
        return oldsz, true;
      }
      if PgUp(newsz) < PgUp(oldsz) {
        ok := Unmap(PgUp(newsz), PgUp(oldsz) - PgUp(newsz), true, false);
      }
      r := newsz;
    }

    /** `mappages` as `uvmalloc` calls it, for the one unit that starts at page `cur`. */
    method MapUnit(cur: nat, base: nat, perm: set<Flag>, low: nat) returns (r: MapResult)
      requires Valid() && low <= 1 && cur % Unit(low) == 0 && cur + Unit(low) <= MAX_VPN
      modifies `tables, `nextFree, `asked, `at, `pos, `leaves
      ensures Valid() && TablesWithin(old(at), at, low, cur / Unit(low), cur / Unit(low))
      ensures r.MapOk? ==> (low, cur / Unit(low)) !in old(leaves)
      ensures r.MapOk? ==> leaves == old(leaves)[(low, cur / Unit(low)) := Pte(base, perm + {R, U, V})]
      ensures !r.MapOk? ==> leaves == old(leaves)
      ensures r.MapRemap? ==> Flat(leaves, cur) != Unmapped || (low == 1 && (0, cur / 512) in old(at))
      ensures !r.MapBeyond? && asked >= old(asked) && (r.MapNoMemory? <==> !Supplied(starved, old(asked), asked))
    {
      hide Valid, Flat, FlatRange, Supplied;
      UnitAddress(cur, low);
      var x := cur / Unit(low);
      ghost var done;
      r, done := MapPages(cur * PGSIZE, Unit(low) * PGSIZE, base * PGSIZE, perm + {R, U}, low);
      assert perm + {R, U} + {V} == perm + {R, U, V};
      assert WithRange(old(leaves), low, x, x, base, perm + {R, U, V}) == old(leaves);
      if r.MapRemap? && low == 1 {
        SuperMapped(leaves, cur);
      }
    }

    /**
     One round of the loops of `uvmalloc`: a fresh block for the unit that starts at page `cur`, mapped. Without
     memory everything `uvmalloc` did so far is undone; where something stands in the way the kernel stops.
     */
    method GrowOne(startva: nat, cur: nat, low: nat, perm: set<Flag>,
                   ghost leaves0: map<Pos, Pte>, ghost frames0: map<nat, nat>) returns (r: MapResult)
      requires Valid() && low <= 1 && cur % Unit(low) == 0 && PgUp(startva) <= cur && cur + Unit(low) <= MAX_VPN
      requires startva <= cur * PGSIZE
      requires Grown(leaves0, frames0, leaves, frames, PgUp(startva), cur, perm + {R, U, V})
      modifies this
      ensures Valid() && TablesWithin(old(at), at, low, cur / Unit(low), cur / Unit(low))
      ensures r.MapOk? ==> Grown(leaves0, frames0, leaves, frames, PgUp(startva), cur + Unit(low), perm + {R, U, V})
      ensures r.MapOk? ==> (low, cur / Unit(low)) in leaves
      ensures r.MapNoMemory? ==> leaves == leaves0 && frames == frames0
      ensures r.MapRemap? ==> Flat(leaves0, cur) != Unmapped || (low == 1 && (0, cur / 512) in old(at))
      ensures !r.MapBeyond? && asked >= old(asked) && (r.MapNoMemory? <==> !Supplied(starved, old(asked), asked))
    {
      hide Inv, Flat, Inside, Outside, Grown, Disjoint, TablesWithin, Supplied;
      ghost var s, flags := PgUp(startva), perm + {R, U, V};
      ghost var leaves1, frames1 := leaves, frames;
      TablesSame(at, low, cur / Unit(low), cur / Unit(low));
      LeafFacts();
      AheadSame(leaves0, frames0, leaves, frames, s, cur, flags);
      var mem := AllocFrames(Unit(low));
      if mem.None? {
        Undo(startva, cur, leaves0, frames0, flags);
        return MapNoMemory;
      }
      r := MapUnit(cur, mem.value, perm, low);
      SuppliedJoin(starved, old(asked), old(asked) + 1, asked);
      if r.MapNoMemory? {
        ReturnFrames(mem.value);
        assert frames == frames1;
        Undo(startva, cur, leaves0, frames0, flags);
        return;
      }
      if r.MapOk? {
        GrownStep(leaves0, frames0, leaves1, frames1, s, cur, flags, low, mem.value);
      }
    }

    /** `kfree` of a block that is mapped nowhere. */
    method ReturnFrames(base: nat)
      requires Valid() && base in frames
      modifies `frames
      ensures Valid() && frames == old(frames) - {base}
    {
      hide Inv;
      frames := frames - {base};
    }

    /** The loops of `uvmalloc` over common pages: from page `from` up to byte `limit`. */
    method GrowPages(startva: nat, from: nat, limit: nat, perm: set<Flag>, ghost leaves0: map<Pos, Pte>,
                     ghost frames0: map<nat, nat>, ghost lo: nat, ghost hi: nat) returns (r: MapResult)
      requires Valid() && PgUp(startva) <= from <= PgUp(limit) <= MAX_VPN && startva <= from * PGSIZE
      requires Grown(leaves0, frames0, leaves, frames, PgUp(startva), from, perm + {R, U, V})
      requires lo < hi ==> limit <= lo * SUPERPGSIZE
      modifies this
      ensures Valid() && SameBody(old(at), at, lo, hi)
      ensures r.MapOk? ==> Grown(leaves0, frames0, leaves, frames, PgUp(startva), PgUp(limit), perm + {R, U, V})
      ensures r.MapNoMemory? ==> leaves == leaves0 && frames == frames0
      ensures r.MapRemap? ==> MappedIn(leaves0, from, PgUp(limit))
      ensures !r.MapBeyond? && asked >= old(asked) && (r.MapNoMemory? <==> !Supplied(starved, old(asked), asked))
    {
      hide Valid, Flat, Inside, Outside, Grown, TablesWithin, SameBody, MappedIn, Supplied;
      SuppliedJoin(starved, asked, asked, asked);
      SameBodyRefl(at, lo, hi);
      var a := from;
      while a * PGSIZE < limit
        invariant Valid() && from <= a <= PgUp(limit) && SameBody(old(at), at, lo, hi)
        invariant asked >= old(asked) && Supplied(starved, old(asked), asked)
        invariant Grown(leaves0, frames0, leaves, frames, PgUp(startva), a, perm + {R, U, V})
        decreases limit - a * PGSIZE
      {
        ghost var at0, asked0 := at, asked;
        r := GrowOne(startva, a, 0, perm, leaves0, frames0);
        SuppliedJoin(starved, old(asked), asked0, asked);
        HeadTables(old(at), at0, at, a, lo, hi);
        if !r.MapOk? {
          if r.MapRemap? {
            MappedAt(leaves0, from, PgUp(limit), a);
          }
          return;
        }
        a := a + 1;
      }
      r := MapOk;
    }

    /** The loop of `uvmalloc` over superpages. */
    method GrowSupers(startva: nat, from: nat, to: nat, perm: set<Flag>, ghost leaves0: map<Pos, Pte>,
                      ghost frames0: map<nat, nat>) returns (r: MapResult)
      requires Valid() && PgUp(startva) <= 512 * from <= 512 * to <= MAX_VPN && startva <= 512 * from * PGSIZE
      requires Grown(leaves0, frames0, leaves, frames, PgUp(startva), 512 * from, perm + {R, U, V})
      modifies this
      ensures Valid()
      ensures r.MapOk? ==> Grown(leaves0, frames0, leaves, frames, PgUp(startva), 512 * to, perm + {R, U, V})
      ensures r.MapOk? ==> BodyFree(old(at), from, to)
      ensures r.MapNoMemory? ==> leaves == leaves0 && frames == frames0
      ensures r.MapRemap? ==> MappedIn(leaves0, 512 * from, 512 * to) || !BodyFree(old(at), from, to)
      ensures !r.MapBeyond? && asked >= old(asked) && (r.MapNoMemory? <==> !Supplied(starved, old(asked), asked))
    {
      hide Valid, Flat, Inside, Outside, Grown, TablesWithin, SameBody, MappedIn, BodyFree, Supplied;
      SuppliedJoin(starved, asked, asked, asked);
      SameBodyRefl(at, from, to);
      NoBody(at, from);
      var b := from;
      while b < to
        invariant Valid() && from <= b <= to && SameBody(old(at), at, from, to) && BodyFree(old(at), from, b)
        invariant asked >= old(asked) && Supplied(starved, old(asked), asked)
        invariant Grown(leaves0, frames0, leaves, frames, PgUp(startva), 512 * b, perm + {R, U, V})
      {
        ghost var at0, asked0 := at, asked;
        r := GrowOne(startva, 512 * b, 1, perm, leaves0, frames0);
        SuppliedJoin(starved, old(asked), asked0, asked);
        BodyTables(old(at), at0, at, b, from, to);
        if !r.MapOk? {
          if r.MapRemap? {
            if (0, b) in at0 {
              BodyTaken(old(at), at0, from, to, b);
            } else {
              MappedAt(leaves0, 512 * from, 512 * to, 512 * b);
            }
          }
          return;
        }
        NoTable(leaves0, frames0, PgUp(startva), b, perm + {R, U, V});
        BodyStep(old(at), at, from, to, b);
        b := b + 1;
      }
      r := MapOk;
    }

    /** A superpage that was just mapped has no table of common pages. */
    lemma NoTable(leaves0: map<Pos, Pte>, frames0: map<nat, nat>, s: nat, b: nat, flags: set<Flag>)
      requires Valid() && Grown(leaves0, frames0, leaves, frames, s, 512 * b + 512, flags) && s <= 512 * b
      requires (1, b) in leaves
      ensures (0, b) !in at
    {
      hide TablesOk, Grown;
    }

    /**
     `uvmalloc`: all or nothing. On success every page of the rounded range is mapped by exactly one new leaf,
     onto blocks that are new and pairwise disjoint; without memory the leaves and the blocks are as before. It stops
     the kernel only, and succeeds never, when something stands in the way: a page of the range that is mapped, or a
     table of common pages, left from earlier, where a superpage is to go.
     */
    method Uvmalloc(startva: nat, endva: nat, perm: set<Flag>) returns (r: nat, how: MapResult)
      requires Valid() && endva <= MAX_VPN * PGSIZE
      modifies this
      ensures Valid() && (r == if endva < startva then startva else if how.MapOk? then endva else 0)
      ensures how.MapOk? && startva <= endva ==>
                && Grown(old(leaves), old(frames), leaves, frames, PgUp(startva), PgUp(endva), perm + {R, U, V})
                && Vacant(old(at), old(leaves), startva, endva)
      ensures how.MapNoMemory? || endva < startva ==> leaves == old(leaves) && frames == old(frames)
      ensures how.MapRemap? ==> !Vacant(old(at), old(leaves), startva, endva)
      ensures !how.MapBeyond? && asked >= old(asked) && (how.MapNoMemory? <==> !Supplied(starved, old(asked), asked))
    {
      hide Valid, Flat, Inside, Outside, Grown, TablesWithin, BodyFree, SameBody, MappedIn, Vacant, Supplied;
      SuppliedJoin(starved, asked, asked, asked);
      r, how := 0, MapOk;
      if endva < startva {
        return startva, MapOk;
      }
      ghost var leaves0, frames0, at0 := leaves, frames, at;
      var body, tail := SuperUp(startva), endva / SUPERPGSIZE;
      var superAligned := body * SUPERPGSIZE;
      var min := if endva <= superAligned then endva else superAligned;
      GrownStart(leaves, frames, PgUp(startva), perm + {R, U, V});
      how := GrowPages(startva, PgUp(startva), min, perm, leaves0, frames0, body, tail);
      ghost var at1, asked1 := at, asked;
      if !how.MapOk? {
        VacantOr(at0, leaves0, startva, endva, PgUp(startva), PgUp(min));
        return 0, how;
      }
      if endva <= superAligned {
        NoBody(at0, body);
        Finished(leaves0, frames0, at0, startva, endva, perm);
        return endva, MapOk;
      }
      assert PgUp(min) == 512 * body;
      how := GrowSupers(startva, body, tail, perm, leaves0, frames0);
      SameFree(at0, at1, body, tail);
      ghost var asked2 := asked;
      SuppliedJoin(starved, old(asked), asked1, asked2);
      if !how.MapOk? {
        VacantOr(at0, leaves0, startva, endva, 512 * body, 512 * tail);
        return 0, how;
      }
      how := GrowPages(startva, 512 * tail, endva, perm, leaves0, frames0, 0, 0);
      SuppliedJoin(starved, old(asked), asked2, asked);
      if !how.MapOk? {
        VacantOr(at0, leaves0, startva, endva, 512 * tail, PgUp(endva));
        return 0, how;
      }
      Finished(leaves0, frames0, at0, startva, endva, perm);
      r := endva;
    }

    /** What was grown was vacant before. */
    lemma Finished(leaves0: map<Pos, Pte>, frames0: map<nat, nat>, at0: map<Pos, nat>, startva: nat, endva: nat, perm: set<Flag>)
      requires Valid() && Grown(leaves0, frames0, leaves, frames, PgUp(startva), PgUp(endva), perm + {R, U, V})
      requires BodyFree(at0, SuperUp(startva), endva / SUPERPGSIZE) || endva / SUPERPGSIZE <= SuperUp(startva)
      ensures Vacant(at0, leaves0, startva, endva)
    {
      hide Valid, Grown;
      LeafFacts();
      OldOutside(leaves0, frames0, leaves, frames, PgUp(startva), PgUp(endva), perm + {R, U, V});
    }

    /** The failure path of `uvmalloc`: `uvmdealloc` takes back exactly what was mapped. */
    method Undo(startva: nat, cur: nat, ghost leaves0: map<Pos, Pte>, ghost frames0: map<nat, nat>, ghost flags: set<Flag>)
      requires Valid() && startva <= cur * PGSIZE && PgUp(startva) <= cur <= MAX_VPN
      requires Grown(leaves0, frames0, leaves, frames, PgUp(startva), cur, flags)
      modifies `tables, `leaves, `frames
      ensures Valid() && leaves == leaves0 && frames == frames0
    {
      hide Valid, Inside, Outside, Owned, Remaining, Held, Flat, Grown;
      LeafFacts();
      if PgUp(startva) < cur {
        OldOutside(leaves0, frames0, leaves, frames, PgUp(startva), cur, flags);
        UndoBefore(leaves0, frames0, leaves, frames, PgUp(startva), cur, cur, flags);
        UndoAfter(leaves0, frames0, leaves, frames, PgUp(startva), cur, cur, flags);
      } else {
        GrownEmpty(leaves0, frames0, leaves, frames, cur, flags);
      }
      var _, ok := Uvmdealloc(cur * PGSIZE, startva);
      assert ok;
    }
  }

  /** An empty space in which one page was mapped and unmapped: its table is still there. */
  method MapAndUnmap() returns (space: Space)
    ensures fresh(space) && space.Valid() && space.leaves == map[] && (0, 1) in space.at
    ensures space.starved == {}
  {
    hide Inv, Flat, FlatRange, TablesWithin;
    space := new Space(0, {});
    var r, done := space.MapPages(SUPERPGSIZE, PGSIZE, 0, {R, U}, 0);
    assert WithRange(map[], 0, 512, 512, 0, {R, U} + {V}) == map[];
    EmptyFlat(512);
    assert done == 513;
    space.LeafTable(512);
    var ok := space.Unmap(512, 1, false, true);
    assert space.leaves == map[];
  }

  lemma EmptyFlat(v: nat)
    ensures Flat(map[], v) == Unmapped
  {
  }

  /** There `uvmalloc` of a superpage stops the kernel, though nothing is mapped and there is memory. */
  method LeftoverTableStops() returns (space: Space, how: MapResult, ghost before: map<Pos, Pte>)
    ensures fresh(space) && how == MapRemap && before == map[]
  {
    space := MapAndUnmap();
    before := space.leaves;
    assert SuperUp(SUPERPGSIZE) == 1;
    var _, h := space.Uvmalloc(SUPERPGSIZE, 2 * SUPERPGSIZE, {});
    how := h;
  }

  /** New leaves leave no room for old ones: what was grown was not mapped before. */
  lemma OldOutside(leaves0: map<Pos, Pte>, frames0: map<nat, nat>, leaves: map<Pos, Pte>, frames: map<nat, nat>,
                   s: nat, cur: nat, flags: set<Flag>)
    requires Grown(leaves0, frames0, leaves, frames, s, cur, flags) && NoOverlap(leaves) && Levels(leaves)
    ensures s < cur ==> forall k: Pos :: k in leaves0 ==> k.0 <= 1 && Outside(k, s, cur)
    ensures forall v: nat :: s <= v < cur ==> Flat(leaves0, v) == Unmapped
  {
    hide NewLeaves, NewFrames;
    forall v: nat | s <= v < cur
      ensures (0, v) !in leaves0 && (1, v / 512) !in leaves0
    {
      assert NewAt(leaves0, leaves, v);
    }
    if s < cur {
      forall k: Pos | k in leaves0
        ensures k.0 <= 1 && Outside(k, s, cur)
      {
        assert k in leaves;
        OutsideIf(k, s, cur);
      }
    }
  }

  /** A leaf that maps no page of a range lies outside it. */
  lemma OutsideIf(k: Pos, s: nat, cur: nat)
    requires k.0 <= 1 && s < cur
    requires forall v: nat :: s <= v < cur ==> k != (0, v) && k != (1, v / 512)
    ensures Outside(k, s, cur)
  {
    var v: nat := if k.0 == 0 then k.1 else if s <= 512 * k.1 then 512 * k.1 else s;
    assert s <= v < cur ==> k != (0, v) && k != (1, v / 512);
  }

  lemma GrownEmpty(leaves0: map<Pos, Pte>, frames0: map<nat, nat>, leaves: map<Pos, Pte>, frames: map<nat, nat>,
                   s: nat, flags: set<Flag>)
    requires Grown(leaves0, frames0, leaves, frames, s, s, flags)
    ensures leaves == leaves0 && frames == frames0
  {
    forall k: Pos | k in leaves
      ensures k in leaves0
    {
      assert !Inside(k, s, s);
    }
  }

  /** A page the growth has not reached translates as before. */
  lemma AheadSame(leaves0: map<Pos, Pte>, frames0: map<nat, nat>, leaves: map<Pos, Pte>, frames: map<nat, nat>,
                  s: nat, cur: nat, flags: set<Flag>)
    requires Grown(leaves0, frames0, leaves, frames, s, cur, flags) && NoOverlap(leaves) && Levels(leaves) && s <= cur
    ensures Flat(leaves, cur) == Flat(leaves0, cur)
  {
    hide Grown, Flat;
    if s == cur {
      GrownEmpty(leaves0, frames0, leaves, frames, s, flags);
    } else {
      OldOutside(leaves0, frames0, leaves, frames, s, cur, flags);
      GrownFlat(leaves0, frames0, leaves, frames, s, cur, flags, cur);
    }
  }

  lemma SuperMapped(leaves: map<Pos, Pte>, cur: nat)
    ensures (1, cur / 512) in leaves ==> Flat(leaves, cur) != Unmapped
  {
  }

  /** The in-superpage offset of `walkaddr` counts whole pages. */
  lemma SuperOffset(va: nat)
    ensures va / PGSIZE * PGSIZE - va / SUPERPGSIZE * SUPERPGSIZE == va / PGSIZE % 512 * PGSIZE
    ensures va / SUPERPGSIZE == va / PGSIZE / 512
  {
  }

  lemma TablesSame(at: map<Pos, nat>, low: nat, first: nat, last: nat)
    ensures TablesWithin(at, at, low, first, last)
  {
  }

  lemma UnitAddress(cur: nat, low: nat)
    requires low <= 1 && cur % Unit(low) == 0
    ensures UnitOf(cur * PGSIZE, low) == cur / Unit(low) == UnitOf(cur * PGSIZE + Unit(low) * PGSIZE - 1, low)
    ensures low == 1 ==> cur * PGSIZE % SUPERPGSIZE == 0
    ensures cur / Unit(low) * Unit(low) == cur
  {
  }

  lemma UndoBefore(leaves0: map<Pos, Pte>, frames0: map<nat, nat>, leaves: map<Pos, Pte>, frames: map<nat, nat>,
                   s: nat, cur: nat, hi: nat, flags: set<Flag>)
    requires Grown(leaves0, frames0, leaves, frames, s, cur, flags) && s <= cur <= hi
    requires forall k: Pos :: k in leaves0 ==> Outside(k, s, hi)
    ensures forall k: Pos :: k in leaves ==> Inside(k, s, cur) || Outside(k, s, cur)
    ensures Owned(leaves, frames, s, cur)
    ensures forall v: nat :: s <= v < cur ==> Flat(leaves, v) != Unmapped
  {
    forall k: Pos | k in leaves0
      ensures Outside(k, s, cur) && !Inside(k, s, cur)
    {
    }
    forall v: nat | s <= v < cur
      ensures Flat(leaves, v) != Unmapped
    {
      assert NewAt(leaves0, leaves, v);
    }
  }

  lemma UndoAfter(leaves0: map<Pos, Pte>, frames0: map<nat, nat>, leaves: map<Pos, Pte>, frames: map<nat, nat>,
                  s: nat, cur: nat, hi: nat, flags: set<Flag>)
    requires Grown(leaves0, frames0, leaves, frames, s, cur, flags) && s <= cur <= hi
    requires forall k: Pos :: k in leaves0 ==> Outside(k, s, hi)
    ensures Remaining(leaves, s, cur) == leaves0 && frames - Held(leaves, s, cur) == frames0
    ensures s == cur ==> leaves == leaves0 && frames == frames0
  {
    forall k: Pos | k in leaves0
      ensures !Inside(k, s, cur)
    {
    }
    assert Remaining(leaves, s, cur) == leaves0;
    forall b | b in frames
      ensures b in Held(leaves, s, cur) <==> b !in frames0
    {
      if b !in frames0 {
        var k: Pos :| k in leaves && k !in leaves0 && leaves[k].pfn == b;
        assert Inside(k, s, cur);
      }
    }
    assert frames - Held(leaves, s, cur) == frames0;
    if s == cur {
      assert forall k: Pos :: k in leaves ==> !Inside(k, s, cur);
    }
  }

  lemma GrownStep(leaves0: map<Pos, Pte>, frames0: map<nat, nat>, leaves: map<Pos, Pte>, frames: map<nat, nat>,
                  s: nat, cur: nat, flags: set<Flag>, low: nat, base: nat)
    requires Grown(leaves0, frames0, leaves, frames, s, cur, flags) && s <= cur && low <= 1 && cur % Unit(low) == 0
    requires base !in frames && (low, cur / Unit(low)) !in leaves
    ensures Grown(leaves0, frames0, leaves[(low, cur / Unit(low)) := Pte(base, flags)], frames[base := Unit(low)],
                  s, cur + Unit(low), flags)
  {
    hide NewLeaves, NewFrames;
    var x: Pos := (low, cur / Unit(low));
    var leaves' := leaves[x := Pte(base, flags)];
    assert x !in leaves0;
    NewLeavesStep(leaves0, frames0, leaves, frames, s, cur, flags, low, base);
    NewFramesStep(leaves0, frames0, leaves, frames, x, Pte(base, flags), Unit(low));
    forall v: nat | s <= v < cur + Unit(low)
      ensures NewAt(leaves0, leaves', v)
    {
      if v < cur {
        assert NewAt(leaves0, leaves, v);
      }
    }
  }

  lemma NewLeavesStep(leaves0: map<Pos, Pte>, frames0: map<nat, nat>, leaves: map<Pos, Pte>, frames: map<nat, nat>,
                      s: nat, cur: nat, flags: set<Flag>, low: nat, base: nat)
    requires NewLeaves(leaves0, frames0, leaves, frames, s, cur, flags) && NewFrames(leaves0, frames0, leaves, frames)
    requires s <= cur && low <= 1 && cur % Unit(low) == 0
    requires base !in frames && (low, cur / Unit(low)) !in leaves
    ensures NewLeaves(leaves0, frames0, leaves[(low, cur / Unit(low)) := Pte(base, flags)], frames[base := Unit(low)],
                      s, cur + Unit(low), flags)
  {
    var x: Pos := (low, cur / Unit(low));
    assert base !in frames0 && Inside(x, s, cur + Unit(low));
    forall k: Pos | k in leaves && k !in leaves0
      ensures Inside(k, s, cur + Unit(low))
    {
      assert Inside(k, s, cur);
    }
  }

  lemma NewFramesStep(leaves0: map<Pos, Pte>, frames0: map<nat, nat>, leaves: map<Pos, Pte>, frames: map<nat, nat>,
                      x: Pos, pte: Pte, n: nat)
    requires NewFrames(leaves0, frames0, leaves, frames) && x !in leaves && x !in leaves0 && pte.pfn !in frames
    ensures NewFrames(leaves0, frames0, leaves[x := pte], frames[pte.pfn := n])
  {
    var leaves' := leaves[x := pte];
    forall b | b in frames[pte.pfn := n] && b !in frames0
      ensures exists k: Pos :: k in leaves' && k !in leaves0 && leaves'[k].pfn == b
    {
      if b == pte.pfn {
        assert leaves'[x].pfn == b;
      } else {
        var k: Pos :| k in leaves && k !in leaves0 && leaves[k].pfn == b;
        assert leaves'[k].pfn == b;
      }
    }
  }

  function PgUp(a: nat): nat
  {
    (a + PGSIZE - 1) / PGSIZE
  }

  /** SUPERPG_ROUNDUP, in superpages. */
  function SuperUp(a: nat): nat
  {
    (a + SUPERPGSIZE - 1) / SUPERPGSIZE
  }

  lemma GrownStart(leaves: map<Pos, Pte>, frames: map<nat, nat>, s: nat, flags: set<Flag>)
    ensures Grown(leaves, frames, leaves, frames, s, s, flags)
  {
  }

  /** The new leaf that maps page `v`. */
  ghost function NewLeaf(leaves0: map<Pos, Pte>, leaves: map<Pos, Pte>, v: nat): Pos
  {
    if (1, v / 512) in leaves && (1, v / 512) !in leaves0 then (1, v / 512) else (0, v)
  }

  /** In the flat view, a grown range maps each page into a new block, and nothing else changes. */
  lemma GrownFlat(leaves0: map<Pos, Pte>, frames0: map<nat, nat>, leaves: map<Pos, Pte>, frames: map<nat, nat>,
                  s: nat, e: nat, flags: set<Flag>, v: nat)
    requires Grown(leaves0, frames0, leaves, frames, s, e, flags) && NoOverlap(leaves)
    requires forall k: Pos :: k in leaves0 ==> k.0 <= 1 && Outside(k, s, e)
    ensures s <= v < e ==>
              var k := NewLeaf(leaves0, leaves, v);
              && k in leaves && leaves[k].pfn in frames && leaves[k].pfn !in frames0
              && Flat(leaves, v) == Mapped(leaves[k].pfn + (if k.0 == 1 then v % 512 else 0), flags)
              && frames[leaves[k].pfn] == Unit(k.0)
    ensures !(s <= v < e) ==> Flat(leaves, v) == Flat(leaves0, v)
  {
    hide NewFrames;
    if s <= v < e {
      assert NewAt(leaves0, leaves, v);
      assert (1, v / 512) !in leaves0;
    } else {
      assert (1, v / 512) in leaves ==> (1, v / 512) in leaves0;
      assert (0, v) in leaves ==> (0, v) in leaves0;
    }
  }

  /** Two pages of a grown range never share a frame. */
  lemma GrownInjective(leaves0: map<Pos, Pte>, frames0: map<nat, nat>, leaves: map<Pos, Pte>, frames: map<nat, nat>,
                       s: nat, e: nat, flags: set<Flag>, v: nat, w: nat)
    requires Grown(leaves0, frames0, leaves, frames, s, e, flags) && NoOverlap(leaves) && Disjoint(frames)
    requires forall k: Pos :: k in leaves0 ==> k.0 <= 1 && Outside(k, s, e)
    requires s <= v < e && s <= w < e && v != w
    ensures Flat(leaves, v).Mapped? && Flat(leaves, w).Mapped? && Flat(leaves, v).pfn != Flat(leaves, w).pfn
  {
    hide NewFrames, Flat, NewAt;
    GrownFlat(leaves0, frames0, leaves, frames, s, e, flags, v);
    GrownFlat(leaves0, frames0, leaves, frames, s, e, flags, w);
    var j, k := NewLeaf(leaves0, leaves, v), NewLeaf(leaves0, leaves, w);
    if j != k {
      assert leaves[j].pfn != leaves[k].pfn;
      assert leaves[j].pfn + frames[leaves[j].pfn] <= leaves[k].pfn || leaves[k].pfn + frames[leaves[k].pfn] <= leaves[j].pfn;
    }
  }

  /** No table of common pages stands where `[lo, hi)` wants superpages. */
  ghost predicate BodyFree(at: map<Pos, nat>, lo: nat, hi: nat)
  {
    forall q: nat :: lo <= q < hi ==> (0, q) !in at
  }

  /** The same tables of common pages stand in `[lo, hi)`. */
  ghost predicate SameBody(at0: map<Pos, nat>, at: map<Pos, nat>, lo: nat, hi: nat)
  {
    forall q: nat :: lo <= q < hi ==> ((0, q) in at <==> (0, q) in at0)
  }

  /** Some page of `[lo, hi)` is mapped. */
  ghost predicate MappedIn(leaves: map<Pos, Pte>, lo: nat, hi: nat)
  {
    exists v: nat :: lo <= v < hi && Flat(leaves, v) != Unmapped
  }

  /** Nothing stands in the way of `uvmalloc`. */
  ghost predicate Vacant(at: map<Pos, nat>, leaves: map<Pos, Pte>, startva: nat, endva: nat)
  {
    && (forall v: nat :: PgUp(startva) <= v < PgUp(endva) ==> Flat(leaves, v) == Unmapped)
    && BodyFree(at, SuperUp(startva), endva / SUPERPGSIZE)
  }

  lemma VacantOr(at: map<Pos, nat>, leaves: map<Pos, Pte>, startva: nat, endva: nat, lo: nat, hi: nat)
    requires PgUp(startva) <= lo && hi <= PgUp(endva)
    ensures MappedIn(leaves, lo, hi) ==> !Vacant(at, leaves, startva, endva)
    ensures !BodyFree(at, SuperUp(startva), endva / SUPERPGSIZE) ==> !Vacant(at, leaves, startva, endva)
  {
  }

  lemma MappedAt(leaves: map<Pos, Pte>, lo: nat, hi: nat, v: nat)
    requires lo <= v < hi && Flat(leaves, v) != Unmapped
    ensures MappedIn(leaves, lo, hi)
  {
  }

  lemma NoBody(at: map<Pos, nat>, lo: nat)
    ensures BodyFree(at, lo, lo)
  {
  }

  lemma SameBodyRefl(at: map<Pos, nat>, lo: nat, hi: nat)
    ensures SameBody(at, at, lo, hi)
  {
  }

  lemma SameFree(at0: map<Pos, nat>, at: map<Pos, nat>, lo: nat, hi: nat)
    requires SameBody(at0, at, lo, hi)
    ensures BodyFree(at0, lo, hi) <==> BodyFree(at, lo, hi)
  {
  }

  lemma BodyTaken(at0: map<Pos, nat>, at: map<Pos, nat>, lo: nat, hi: nat, b: nat)
    requires SameBody(at0, at, lo, hi) && lo <= b < hi && (0, b) in at
    ensures !BodyFree(at0, lo, hi)
  {
  }

  lemma BodyStep(at0: map<Pos, nat>, at: map<Pos, nat>, lo: nat, hi: nat, b: nat)
    requires SameBody(at0, at, lo, hi) && BodyFree(at0, lo, b) && lo <= b < hi && (0, b) !in at
    ensures BodyFree(at0, lo, b + 1)
  {
  }

  /** The tables made for the head pages lie below the superpage body. */
  lemma HeadTables(at0: map<Pos, nat>, at1: map<Pos, nat>, at: map<Pos, nat>, a: nat, lo: nat, hi: nat)
    requires SameBody(at0, at1, lo, hi) && TablesWithin(at1, at, 0, a, a) && (lo < hi ==> a * PGSIZE < lo * SUPERPGSIZE)
    ensures SameBody(at0, at, lo, hi)
  {
    if lo < hi {
      assert a / 512 < lo;
    }
  }

  lemma BodyTables(at0: map<Pos, nat>, at1: map<Pos, nat>, at: map<Pos, nat>, b: nat, lo: nat, hi: nat)
    requires SameBody(at0, at1, lo, hi) && TablesWithin(at1, at, 1, b, b)
    ensures SameBody(at0, at, lo, hi)
  {
  }

  /**
   `leaves` and `frames` are the old ones plus leaves that cover exactly the pages `[s, cur)`, each mapping a
   block of its own that is new.
   */
  ghost predicate Grown(leaves0: map<Pos, Pte>, frames0: map<nat, nat>, leaves: map<Pos, Pte>, frames: map<nat, nat>,
                        s: nat, cur: nat, flags: set<Flag>)
  {
    && (forall k: Pos :: k in leaves0 ==> k in leaves && leaves[k] == leaves0[k])
    && NewLeaves(leaves0, frames0, leaves, frames, s, cur, flags)
    && (forall v: nat :: s <= v < cur ==> NewAt(leaves0, leaves, v))
    && NewFrames(leaves0, frames0, leaves, frames)
  }

  ghost predicate NewLeaves(leaves0: map<Pos, Pte>, frames0: map<nat, nat>, leaves: map<Pos, Pte>, frames: map<nat, nat>,
                            s: nat, cur: nat, flags: set<Flag>)
  {
    && (forall k: Pos :: k in leaves && k !in leaves0 ==>
          && k.0 <= 1 && Inside(k, s, cur) && leaves[k].flags == flags
          && leaves[k].pfn !in frames0 && leaves[k].pfn in frames && frames[leaves[k].pfn] == Unit(k.0))
    && (forall j: Pos, k: Pos :: j in leaves && k in leaves && j !in leaves0 && k !in leaves0 && j != k ==>
          leaves[j].pfn != leaves[k].pfn)
  }

  ghost predicate NewFrames(leaves0: map<Pos, Pte>, frames0: map<nat, nat>, leaves: map<Pos, Pte>, frames: map<nat, nat>)
  {
    && (forall b :: b in frames0 ==> b in frames && frames[b] == frames0[b])
    && (forall b :: b in frames && b !in frames0 ==> exists k: Pos :: k in leaves && k !in leaves0 && leaves[k].pfn == b)
  }

  /** Page `v` is mapped by a new leaf. */
  ghost predicate NewAt(leaves0: map<Pos, Pte>, leaves: map<Pos, Pte>, v: nat)
  {
    ((0, v) in leaves && (0, v) !in leaves0) || ((1, v / 512) in leaves && (1, v / 512) !in leaves0)
  }

  /** Leaf `k` maps pages of `[lo, hi)` only. */
  ghost predicate Inside(k: Pos, lo: nat, hi: nat)
  {
    if k.0 == 0 then lo <= k.1 < hi else lo <= 512 * k.1 && 512 * k.1 + 512 <= hi
  }

  ghost predicate Outside(k: Pos, lo: nat, hi: nat)
  {
    if k.0 == 0 then k.1 < lo || hi <= k.1 else 512 * k.1 + 512 <= lo || hi <= 512 * k.1
  }

  ghost function Remaining(leaves: map<Pos, Pte>, lo: nat, hi: nat): map<Pos, Pte>
  {
    map k | k in leaves && !Inside(k, lo, hi) :: leaves[k]
  }

  /** First frames of the leaves inside a range. */
  ghost function Held(leaves: map<Pos, Pte>, lo: nat, hi: nat): set<nat>
  {
    set k | k in leaves && Inside(k, lo, hi) :: leaves[k].pfn
  }

  /** The leaves inside a range map blocks of their own. */
  ghost predicate Owned(leaves: map<Pos, Pte>, frames: map<nat, nat>, lo: nat, hi: nat)
  {
    && (forall k :: k in leaves && Inside(k, lo, hi) ==> leaves[k].pfn in frames)
    && (forall j, k :: j in leaves && k in leaves && j != k && Inside(j, lo, hi) && Inside(k, lo, hi) ==>
          leaves[j].pfn != leaves[k].pfn)
  }

  /** The range is unmapped up to page `a`. */
  ghost predicate Unmapping(leaves0: map<Pos, Pte>, leaves: map<Pos, Pte>, lo: nat, a: nat, hi: nat)
  {
    && leaves == Remaining(leaves0, lo, a)
    && (forall k: Pos :: k in leaves ==> k.0 <= 1 && (Inside(k, a, hi) || Outside(k, lo, hi)))
  }

  ghost predicate Levels(leaves: map<Pos, Pte>)
  {
    forall k: Pos :: k in leaves ==> k.0 <= 1
  }

  /** No page leaf lies under a superpage. */
  ghost predicate NoOverlap(leaves: map<Pos, Pte>)
  {
    forall x: nat :: (0, x) in leaves ==> (1, x / 512) !in leaves
  }

  lemma UnmapStart(leaves: map<Pos, Pte>, lo: nat, hi: nat)
    requires Levels(leaves) && forall k: Pos :: k in leaves ==> Inside(k, lo, hi) || Outside(k, lo, hi)
    ensures Unmapping(leaves, leaves, lo, lo, hi) && Held(leaves, lo, lo) == {}
  {
  }

  lemma StillOwned(leaves0: map<Pos, Pte>, leaves: map<Pos, Pte>, frames0: map<nat, nat>, frames: map<nat, nat>,
                   lo: nat, a: nat, hi: nat)
    requires Owned(leaves0, frames0, lo, hi) && Unmapping(leaves0, leaves, lo, a, hi) && lo <= a < hi
    requires frames == frames0 - Held(leaves0, lo, a)
    ensures forall k: Pos :: k in leaves && Sh(a, k.0) == k.1 ==> leaves[k].pfn in frames
  {
    forall k: Pos | k in leaves && Sh(a, k.0) == k.1
      ensures leaves[k].pfn in frames
    {
      ShUnit(a, k.0);
      assert Inside(k, a, hi) && Inside(k, lo, hi) && !Inside(k, lo, a);
      if leaves[k].pfn in Held(leaves0, lo, a) {
        var j :| j in leaves0 && Inside(j, lo, a) && leaves0[j].pfn == leaves0[k].pfn;
        assert Inside(j, lo, hi);
      }
    }
  }

  lemma ShUnit(a: nat, l: nat)
    ensures l == 0 ==> Sh(a, l) == a
    ensures l == 1 ==> Sh(a, l) == a / 512
  {
    assert Sh(a, 1) == Sh(a, 0) / 512;
  }

  lemma UnmapMiss(leaves0: map<Pos, Pte>, leaves: map<Pos, Pte>, lo: nat, a: nat, hi: nat)
    requires Unmapping(leaves0, leaves, lo, a, hi) && lo <= a < hi && Flat(leaves, a) == Unmapped && Levels(leaves0)
    ensures Unmapping(leaves0, leaves, lo, a + 1, hi) && Held(leaves0, lo, a + 1) == Held(leaves0, lo, a)
    ensures Flat(leaves0, a) == Unmapped
  {
    forall k: Pos | k in leaves0 && Inside(k, lo, a + 1)
      ensures Inside(k, lo, a)
    {
      assert k in leaves || Inside(k, lo, a);
    }
    assert (1, a / 512) !in leaves && (0, a) !in leaves;
    forall k: Pos | k in leaves
      ensures Inside(k, a + 1, hi) || Outside(k, lo, hi)
    {
      assert Inside(k, a, hi) || Outside(k, lo, hi);
    }
    assert Remaining(leaves0, lo, a + 1) == Remaining(leaves0, lo, a);
  }

  lemma HitRange(leaves0: map<Pos, Pte>, leaves: map<Pos, Pte>, lo: nat, a: nat, hi: nat, k: Pos)
    requires Unmapping(leaves0, leaves, lo, a, hi) && lo <= a < hi && k in leaves && k.1 == Sh(a, k.0)
    ensures k.0 <= 1 && a == k.1 * Unit(k.0) && a + Unit(k.0) <= hi
    ensures k in leaves0 && leaves[k] == leaves0[k] && Inside(k, lo, a + Unit(k.0)) && !Inside(k, lo, a)
  {
    ShUnit(a, k.0);
    assert Inside(k, a, hi) || Outside(k, lo, hi);
  }

  /** Every page of `[lo, hi)` is mapped. */
  ghost predicate AllMapped(leaves: map<Pos, Pte>, lo: nat, hi: nat)
  {
    forall v: nat :: lo <= v < hi ==> Flat(leaves, v) != Unmapped
  }

  lemma NoneMapped(leaves: map<Pos, Pte>, lo: nat)
    ensures AllMapped(leaves, lo, lo)
  {
  }

  lemma SomeUnmapped(leaves: map<Pos, Pte>, lo: nat, hi: nat, a: nat)
    requires lo <= a < hi && Flat(leaves, a) == Unmapped
    ensures !AllMapped(leaves, lo, hi)
  {
  }

  /** All pages of a leaf are mapped. */
  lemma HitMapped(leaves: map<Pos, Pte>, lo: nat, a: nat, k: Pos)
    requires AllMapped(leaves, lo, a) && k in leaves && k.0 <= 1 && a == k.1 * Unit(k.0)
    ensures AllMapped(leaves, lo, a + Unit(k.0))
  {
  }

  lemma HitOther(leaves0: map<Pos, Pte>, leaves: map<Pos, Pte>, lo: nat, a: nat, hi: nat, k: Pos, j: Pos)
    requires Unmapping(leaves0, leaves, lo, a, hi) && lo <= a < hi && NoOverlap(leaves)
    requires k in leaves && k.1 == Sh(a, k.0) && k.0 <= 1 && a == k.1 * Unit(k.0)
    requires j in leaves0 && j != k
    ensures Inside(j, lo, a + Unit(k.0)) <==> Inside(j, lo, a)
    ensures j in leaves ==> Inside(j, a + Unit(k.0), hi) || Outside(j, lo, hi)
  {
    if j in leaves {
      assert Inside(j, a, hi) || Outside(j, lo, hi);
    } else {
      assert Inside(j, lo, a);
    }
  }

  lemma UnmapHit(leaves0: map<Pos, Pte>, leaves: map<Pos, Pte>, lo: nat, a: nat, hi: nat, k: Pos)
    requires Unmapping(leaves0, leaves, lo, a, hi) && lo <= a < hi && Levels(leaves0) && NoOverlap(leaves)
    requires k in leaves && k.0 <= 1 && k.1 == Sh(a, k.0)
    ensures a + Unit(k.0) <= hi && k in leaves0 && leaves[k] == leaves0[k]
    ensures Unmapping(leaves0, leaves - {k}, lo, a + Unit(k.0), hi)
    ensures Held(leaves0, lo, a + Unit(k.0)) == Held(leaves0, lo, a) + {leaves0[k].pfn}
  {
    hide Inside, Outside, NoOverlap, Sh;
    HitRange(leaves0, leaves, lo, a, hi, k);
    var b := a + Unit(k.0);
    forall j: Pos | j in leaves0 && j != k
      ensures Inside(j, lo, b) <==> Inside(j, lo, a)
      ensures j in leaves ==> Inside(j, b, hi) || Outside(j, lo, hi)
    {
      HitOther(leaves0, leaves, lo, a, hi, k, j);
    }
    assert leaves - {k} == Remaining(leaves0, lo, b);
  }

  lemma UnmapEnd(leaves0: map<Pos, Pte>, leaves: map<Pos, Pte>, lo: nat, hi: nat)
    requires Unmapping(leaves0, leaves, lo, hi, hi)
    ensures forall v: nat :: Flat(leaves, v) == if lo <= v < hi then Unmapped else Flat(leaves0, v)
  {
  }

  datatype MapResult = MapOk | MapNoMemory | MapRemap | MapBeyond

  /** Pages covered by one leaf of level `low`. */
  function Unit(low: nat): nat
  {
    if low == 0 then 1 else 512
  }

  /** The flat view once leaf `(low, x)` maps `pte`. */
  ghost function FlatWith(leaves: map<Pos, Pte>, low: nat, x: nat, pte: Pte, v: nat): Mapping
  {
    if Sh(v, low) == x then Mapped(pte.pfn + (if low == 1 then v % 512 else 0), pte.flags) else Flat(leaves, v)
  }

  /** The page or superpage number of an address. */
  function UnitOf(va: nat, low: nat): nat
  {
    if low == 0 then va / PGSIZE else va / SUPERPGSIZE
  }

  function FrameAt(pfn: nat, i: nat, low: nat): nat
  {
    if low == 0 then pfn + i else pfn + 512 * i
  }

  /** Leaves for the units `[first, done)`, mapped to consecutive frames from `pfn` on. */
  ghost function WithRange(leaves: map<Pos, Pte>, low: nat, first: nat, done: nat, pfn: nat, flags: set<Flag>): map<Pos, Pte>
    decreases done
  {
    if done <= first then leaves
    else WithRange(leaves, low, first, done - 1, pfn, flags)[(low, done - 1) := Pte(FrameAt(pfn, done - 1 - first, low), flags)]
  }

  /** The flat view has exactly the units `[first, done)` added, frame by frame. */
  ghost predicate FlatRange(leaves: map<Pos, Pte>, leaves0: map<Pos, Pte>, low: nat, first: nat, done: nat,
                            pfn: nat, flags: set<Flag>)
  {
    forall v: nat :: Flat(leaves, v) ==
      if first <= Sh(v, low) < done
      then Mapped(FrameAt(pfn, Sh(v, low) - first, low) + (if low == 1 then v % 512 else 0), flags)
      else Flat(leaves0, v)
  }

  /** Page tables of level 0 appear only for the units `[first, last]`, and only when pages are mapped. */
  ghost predicate TablesWithin(at0: map<Pos, nat>, at: map<Pos, nat>, low: nat, first: nat, last: nat)
  {
    && (forall k: Pos :: k in at0 ==> k in at)
    && (forall k: Pos :: k in at && k !in at0 && k.0 == 0 ==> low == 0 && first / 512 <= k.1 <= last / 512)
  }

  lemma TablesGrow(at0: map<Pos, nat>, at1: map<Pos, nat>, at: map<Pos, nat>, low: nat, first: nat, x: nat, last: nat)
    requires TablesWithin(at0, at1, low, first, last) && first <= x <= last && low <= 1
    requires forall k: Pos :: k in at && k !in at1 ==> low <= k.0 <= 1 && k.1 == Sh(x * Unit(low), k.0 + 1)
    requires forall k: Pos :: k in at1 ==> k in at
    ensures TablesWithin(at0, at, low, first, last)
  {
    ShUnit(x, 1);
  }

  /** The flat view has unit `x` added. */
  ghost predicate FlatPlus(leaves: map<Pos, Pte>, before: map<Pos, Pte>, low: nat, x: nat, pte: Pte)
  {
    forall v: nat :: Flat(leaves, v) == FlatWith(before, low, x, pte, v)
  }

  /** Exactly the units `[first, done)` have been added, as leaves and in the flat view, none of them there before. */
  ghost predicate RangeDone(leaves: map<Pos, Pte>, leaves0: map<Pos, Pte>, low: nat, first: nat, done: nat,
                            pfn: nat, flags: set<Flag>)
  {
    && leaves == WithRange(leaves0, low, first, done, pfn, flags)
    && (forall k: Pos :: k in leaves0 ==> k in leaves)
    && (forall y: nat :: first <= y < done ==> (low, y) !in leaves0)
    && FlatRange(leaves, leaves0, low, first, done, pfn, flags)
  }

  lemma RangeStart(leaves: map<Pos, Pte>, low: nat, first: nat, pfn: nat, flags: set<Flag>)
    ensures RangeDone(leaves, leaves, low, first, first, pfn, flags)
  {
  }

  lemma RangeStep(leaves: map<Pos, Pte>, before: map<Pos, Pte>, leaves0: map<Pos, Pte>, low: nat, first: nat, x: nat,
                  pfn: nat, flags: set<Flag>)
    requires RangeDone(before, leaves0, low, first, x, pfn, flags) && first <= x
    requires var pte := Pte(FrameAt(pfn, x - first, low), flags);
             (low, x) !in before && leaves == before[(low, x) := pte] && FlatPlus(leaves, before, low, x, pte)
    ensures RangeDone(leaves, leaves0, low, first, x + 1, pfn, flags)
  {
    hide Flat, Sh, FrameAt;
  }

  lemma UnitShift(x: nat, low: nat)
    requires low <= 1
    ensures Sh(x * Unit(low), low) == x
  {
    assert Sh(x * Unit(low), 1) == Sh(x * Unit(low), 0) / 512;
  }

  lemma FlatNone(tables: map<nat, seq<Pte>>, at: map<Pos, nat>, pos: map<nat, Pos>, leaves: map<Pos, Pte>, v: nat)
    requires Inv(tables, at, pos, leaves) && (0, v / 512) !in at && (1, v / 512) !in leaves
    ensures Flat(leaves, v) == Unmapped
  {
    hide TablesOk, Placed;
  }

  lemma ShTop(v: nat)
    requires v < MAX_VPN
    ensures Sh(v, 3) == 0 && Sh(v, 1) == v / 512 && Sh(v, 0) == v
  {
    assert Sh(v, 1) == Sh(v, 0) / 512;
    assert Sh(v, 2) == Sh(v, 1) / 512;
    assert Sh(v, 3) == Sh(v, 2) / 512;
  }

  lemma ShStep(v: nat, l: nat)
    ensures Sh(v, l + 1) == Sh(v, l) / 512
  {
  }

  lemma PlacedRoot(tables: map<nat, seq<Pte>>, at: map<Pos, nat>, pos: map<nat, Pos>, leaves: map<Pos, Pte>)
    requires Inv(tables, at, pos, leaves)
    ensures (2, 0) in at && pos.Keys <= tables.Keys
  {
  }

  /** What an entry tells: a leaf (at level 1 or 0), a pointer to the next table, or nothing there. */
  lemma EntryCases(tables: map<nat, seq<Pte>>, at: map<Pos, nat>, pos: map<nat, Pos>, leaves: map<Pos, Pte>, l: nat, r: nat)
    requires Inv(tables, at, pos, leaves)
    ensures var e := Entry(at, leaves, l, r);
            && (IsLeaf(e) <==> (l, r) in leaves)
            && ((l, r) in leaves ==> e == leaves[(l, r)] && IsValid(e) && l <= 1 && (l, r / 512) in at)
            && ((l, r) in leaves && l == 1 ==> (0, r) !in at)
            && ((l, r) !in leaves && IsValid(e) ==> l >= 1 && (l - 1, r) in at && e.pfn == at[(l - 1, r)])
            && ((l, r) !in leaves && !IsValid(e) ==> e == ZERO && (l >= 1 ==> (l - 1, r) !in at))
  {
    hide TablesOk;
  }
}
