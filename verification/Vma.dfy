/**
 The memory areas of a process (src/mm/vma.c) and mprotect (src/mm/mmap.c): a global table of slots, and per process
 a list of the slots in use. Addresses and sizes are 64-bit words that wrap around.
 */
module Vma {
  import opened Common

  const NVMA := 3000
  const WORD := 0x1_0000_0000_0000_0000

  /** `struct vma`; `file` is 0 for an area without one. */
  datatype Area = Area(kind: nat, start: nat, size: nat, perm: nat, used: bool, offset: nat, file: nat)

  /** What an address means to the process: permission, kind of area, file, and the place in that file. */
  datatype Attr = Attr(perm: nat, kind: nat, file: nat, fileOffset: nat)

  function Add(x: nat, y: nat): nat
  {
    (x + y) % WORD
  }

  function Sub(x: nat, y: nat): nat
    requires y <= WORD
  {
    (x + WORD - y) % WORD
  }

  lemma NoWrap(x: nat, y: nat)
    requires x < WORD && y < WORD
    ensures x + y < WORD ==> Add(x, y) == x + y
    ensures x >= y ==> Sub(x, y) == x - y
    ensures x < y ==> Sub(x, y) == x + WORD - y
    ensures Add(x, y) < WORD && Sub(x, y) < WORD
  {
  }

  predicate Covers(v: Area, a: nat)
  {
    v.start <= a < v.start + v.size
  }

  function AttrOf(v: Area, a: nat): Attr
    requires Covers(v, a)
  {
    Attr(v.perm, v.kind, v.file, Add(v.offset, a - v.start))
  }

  /** The first area of the list that covers the address. */
  function Lookup(list: seq<nat>, table: seq<Area>, a: nat): (r: Option<nat>)
    ensures r.Some? ==> r.value in list && r.value < |table| && Covers(table[r.value], a)
    ensures r.None? ==> forall i :: i in list && i < |table| ==> !Covers(table[i], a)
  {
    if list == [] then None
    else if list[0] < |table| && Covers(table[list[0]], a) then Some(list[0])
    else Lookup(list[1..], table, a)
  }

  /** What the address means, if anything. */
  function AttrAt(list: seq<nat>, table: seq<Area>, a: nat): Option<Attr>
  {
    var r := Lookup(list, table, a);
    if r.Some? then Some(AttrOf(table[r.value], a)) else None
  }

  /** The listed slots are in use, each listed once, and no area runs past the end of the address space. */
  ghost predicate Listed(list: seq<nat>, table: seq<Area>)
  {
    && (forall i :: i in list ==> i < |table| && table[i].used && table[i].start + table[i].size < WORD && table[i].offset < WORD)
    && (forall i, j :: 0 <= i < j < |list| ==> list[i] != list[j])
  }

  /** No address is in two areas. */
  ghost predicate Disjoint(list: seq<nat>, table: seq<Area>)
  {
    forall i, j, a :: i in list && j in list && i < |table| && j < |table| && Covers(table[i], a) && Covers(table[j], a) ==> i == j
  }

  ghost predicate SpaceOk(list: seq<nat>, table: seq<Area>)
  {
    |table| == NVMA && Listed(list, table) && Disjoint(list, table) && forall i :: 0 <= i < |table| ==> table[i].offset < WORD
  }

  /** With disjoint areas, whichever covers the address is the one that is found. */
  lemma Unique(list: seq<nat>, table: seq<Area>, i: nat, a: nat)
    requires SpaceOk(list, table) && i in list && Covers(table[i], a)
    ensures Lookup(list, table, a) == Some(i)
  {
    var r := Lookup(list, table, a);
    assert r.Some?;
  }

  // ---------------------------------------------------------------- check_vma_intersect

  /** The test of `check_vma_intersect` against one area: does the first or the last byte of `v` lie in it? */
  predicate Touches(v: Area, pos: Area)
  {
    Covers(pos, v.start) || Covers(pos, Sub(Add(v.start, v.size), 1))
  }

  /** For areas that hold at least a byte, the test misses an overlap exactly when `v` sticks out on both sides. */
  lemma TouchesExactly(v: Area, pos: Area)
    requires v.size > 0 && v.start + v.size < WORD && pos.size > 0
    ensures (exists a :: Covers(v, a) && Covers(pos, a)) && !Touches(v, pos) <==>
            v.start < pos.start && pos.start + pos.size < v.start + v.size
  {
    if exists a :: Covers(v, a) && Covers(pos, a) {
      var a :| Covers(v, a) && Covers(pos, a);
    }
    if v.start < pos.start && pos.start + pos.size < v.start + v.size {
      assert Covers(v, pos.start) && Covers(pos, pos.start);
    }
  }

  /** Area `v` sticks out of `pos` on both sides. */
  predicate Swallows(v: Area, pos: Area)
  {
    pos.size > 0 && v.start < pos.start && pos.start + pos.size < v.start + v.size
  }

  /** A new area that passes the test keeps the areas disjoint exactly when it swallows none of them. */
  lemma AddDisjoint(list: seq<nat>, table: seq<Area>, n: nat, x: Area)
    requires SpaceOk(list, table) && n < |table| && n !in list && x.size > 0 && x.start + x.size < WORD
    requires forall i :: i in list ==> i < |table| && !Touches(x, table[i])
    ensures Disjoint([n] + list, table[n := x]) <==> forall i :: i in list && i < |table| ==> !Swallows(x, table[i])
  {
    hide Touches, Swallows;
    var table' := table[n := x];
    forall i | i in list
      ensures i < |table| && (Swallows(x, table[i]) <==> exists a :: Covers(x, a) && Covers(table[i], a))
    {
      OverlapExactly(x, table[i]);
    }
    if forall i :: i in list && i < |table| ==> !Swallows(x, table[i]) {
      forall i, j, a | i in [n] + list && j in [n] + list && i < |table| && j < |table| && Covers(table'[i], a) && Covers(table'[j], a)
        ensures i == j
      {
      }
    } else {
      var i :| i in list && i < |table| && Swallows(x, table[i]);
      var a :| Covers(x, a) && Covers(table[i], a);
      assert i in [n] + list && n in [n] + list && Covers(table'[i], a) && Covers(table'[n], a);
    }
  }

  lemma OverlapExactly(x: Area, pos: Area)
    requires x.size > 0 && x.start + x.size < WORD && !Touches(x, pos)
    ensures Swallows(x, pos) <==> exists a :: Covers(x, a) && Covers(pos, a)
  {
    if pos.size > 0 {
      TouchesExactly(x, pos);
    }
  }

  // ---------------------------------------------------------------- splitting an area

  /** The part of an area below an address in it. */
  function Lower(v: Area, addr: nat): Area
    requires v.start <= addr
  {
    v.(size := addr - v.start)
  }

  /** The part from the address on; its file offset moves along. */
  function Upper(v: Area, addr: nat): Area
    requires v.start <= addr <= v.start + v.size
  {
    v.(start := addr, size := v.start + v.size - addr, offset := Add(v.offset, addr - v.start))
  }

  lemma OffsetMoves(offset: nat, d: nat, e: nat)
    requires offset < WORD && d < WORD && e < WORD
    ensures Add(Add(offset, d), e) == Add(offset, d + e)
  {
  }

  /** The two parts mean what the whole meant. */
  lemma Halves(v: Area, addr: nat, a: nat)
    requires v.start <= addr <= v.start + v.size < WORD && v.offset < WORD
    ensures Covers(v, a) <==> Covers(Lower(v, addr), a) || Covers(Upper(v, addr), a)
    ensures !(Covers(Lower(v, addr), a) && Covers(Upper(v, addr), a))
    ensures Covers(Lower(v, addr), a) ==> AttrOf(Lower(v, addr), a) == AttrOf(v, a)
    ensures Covers(Upper(v, addr), a) ==> AttrOf(Upper(v, addr), a) == AttrOf(v, a)
  {
    if Covers(Upper(v, addr), a) {
      OffsetMoves(v.offset, addr - v.start, a - addr);
    }
  }

  /** The table after area `v` has been cut at `addr` into slots `v` and `n`. */
  function SplitTable(table: seq<Area>, v: nat, n: nat, addr: nat, below: bool): seq<Area>
    requires v < |table| && n < |table| && table[v].start <= addr <= table[v].start + table[v].size
  {
    var lo, hi := Lower(table[v], addr), Upper(table[v], addr);
    if below then table[v := hi][n := lo] else table[v := lo][n := hi]
  }

  /** Slot `v` was cut somewhere inside, the other piece is in slot `n`. */
  ghost predicate Cut(list: seq<nat>, table: seq<Area>, v: nat, n: nat, addr: nat)
  {
    SpaceOk(list, table) && v in list && n < |table| && n !in list && table[v].start <= addr <= table[v].start + table[v].size
  }

  lemma SplitListed(list: seq<nat>, table: seq<Area>, v: nat, n: nat, addr: nat, below: bool)
    requires Cut(list, table, v, n, addr)
    ensures Listed([n] + list, SplitTable(table, v, n, addr, below))
  {
    NoWrap(table[v].offset, addr - table[v].start);
  }

  /** Whoever covers an address after the cut covered it before, or is a piece of who did. */
  lemma SplitCovers(list: seq<nat>, table: seq<Area>, v: nat, n: nat, addr: nat, below: bool, i: nat, a: nat)
    requires Cut(list, table, v, n, addr) && i in [n] + list
    ensures i < |table|
    ensures Covers(SplitTable(table, v, n, addr, below)[i], a) ==>
              if i == n || i == v then Covers(table[v], a) else Covers(table[i], a)
  {
    Halves(table[v], addr, a);
  }

  lemma SplitDisjoint(list: seq<nat>, table: seq<Area>, v: nat, n: nat, addr: nat, below: bool)
    requires Cut(list, table, v, n, addr)
    ensures Disjoint([n] + list, SplitTable(table, v, n, addr, below))
  {
    var table' := SplitTable(table, v, n, addr, below);
    forall i, j, a | i in [n] + list && j in [n] + list && i < |table'| && j < |table'| && Covers(table'[i], a) && Covers(table'[j], a)
      ensures i == j
    {
      SplitCovers(list, table, v, n, addr, below, i, a);
      SplitCovers(list, table, v, n, addr, below, j, a);
      Halves(table[v], addr, a);
    }
  }

  /** Cutting an area changes no address's meaning. */
  lemma SplitMeaning(list: seq<nat>, table: seq<Area>, v: nat, n: nat, addr: nat, below: bool, a: nat)
    requires Cut(list, table, v, n, addr)
    ensures AttrAt([n] + list, SplitTable(table, v, n, addr, below), a) == AttrAt(list, table, a)
  {
    hide Lookup, Disjoint;
    var table' := SplitTable(table, v, n, addr, below);
    SplitListed(list, table, v, n, addr, below);
    SplitDisjoint(list, table, v, n, addr, below);
    Halves(table[v], addr, a);
    var r := Lookup(list, table, a);
    if Covers(table[v], a) {
      Unique(list, table, v, a);
      if Covers(table'[v], a) {
        Unique([n] + list, table', v, a);
      } else {
        Unique([n] + list, table', n, a);
      }
    } else if r.Some? {
      assert table'[r.value] == table[r.value];
      Unique([n] + list, table', r.value, a);
    } else {
      var r' := Lookup([n] + list, table', a);
      if r'.Some? {
        SplitCovers(list, table, v, n, addr, below, r'.value, a);
        assert false;
      }
    }
  }

  /** The new piece touches no listed area, so the overlap assertion holds. */
  lemma SplitApart(list: seq<nat>, table: seq<Area>, v: nat, n: nat, addr: nat, below: bool, i: nat)
    requires Cut(list, table, v, n, addr) && i in list
    requires if below then table[v].start < addr else addr < table[v].start + table[v].size
    ensures i < |table| && !Touches(SplitTable(table, v, n, addr, below)[n], SplitTable(table, v, n, addr, below)[i])
  {
    var table' := SplitTable(table, v, n, addr, below);
    var x := table'[n];
    NoWrap(x.start, x.size);
    NoWrap(x.start + x.size, 1);
    SplitDisjoint(list, table, v, n, addr, below);
    assert Covers(x, x.start) && Covers(x, x.start + x.size - 1);
  }

  datatype Outcome = Done | Failed | Stopped

  class Space {
    const slots: array<Area>
    var list: seq<nat>

    ghost predicate Valid()
      reads this, slots
    {
      SpaceOk(list, slots[..])
    }

    ghost function Meaning(a: nat): Option<Attr>
      reads this, slots
    {
      AttrAt(list, slots[..], a)
    }

    /** `vmas_init`, and a process without areas. */
    constructor ()
      ensures Valid() && fresh(slots) && list == [] && forall j :: 0 <= j < NVMA ==> !slots[j].used
    {
      slots := new Area[NVMA](_ => Area(0, 0, 0, 0, false, 0, 0));
      list := [];
    }

    /** `alloc_vma`: the first unused slot, or -1. */
    method Alloc() returns (i: int)
      requires slots.Length == NVMA
      modifies slots
      ensures i < 0 ==> slots[..] == old(slots[..]) && forall j :: 0 <= j < NVMA ==> slots[j].used
      ensures i >= 0 ==> i < NVMA && !old(slots[i].used) && slots[..] == old(slots[..])[i := old(slots[i]).(used := true)]
    {
      i := 0;
      while i < NVMA
        invariant 0 <= i <= NVMA && slots[..] == old(slots[..])
        invariant forall j :: 0 <= j < i ==> slots[j].used
      {
        if !slots[i].used {
          slots[i] := slots[i].(used := true);
          return;
        }
        i := i + 1;
      }
      i := -1;
    }

    /** `check_vma_intersect`. */
    method Intersects(v: Area) returns (b: bool)
      requires forall k :: 0 <= k < |list| ==> list[k] < slots.Length
      ensures b <==> exists i :: i in list && Touches(v, slots[i])
    {
      var k := 0;
      while k < |list|
        invariant k <= |list| && forall j :: 0 <= j < k ==> !Touches(v, slots[list[j]])
      {
        if Touches(v, slots[list[k]]) {
          return true;
        }
        k := k + 1;
      }
      return false;
    }

    /** `find_vma_for_va`. */
    method Find(a: nat) returns (r: Option<nat>)
      requires forall k :: 0 <= k < |list| ==> list[k] < slots.Length
      ensures r == Lookup(list, slots[..], a)
    {
      var k := 0;
      assert list[0..] == list;
      while k < |list|
        invariant k <= |list| && Lookup(list, slots[..], a) == Lookup(list[k..], slots[..], a)
      {
        assert list[k..][1..] == list[k + 1..];
        if Covers(slots[list[k]], a) {
          return Some(list[k]);
        }
        k := k + 1;
      }
      return None;
    }

    /**
     `vma_map_range`: a new area at the front of the list. An unaligned address or an overlap the test sees stops the
     kernel; an overlap it does not see goes in.
     */
    method MapRange(va: nat, len: nat, perm: nat, kind: nat) returns (r: Outcome, n: nat)
      requires Valid() && va < WORD && len < WORD
      modifies `list, slots
      ensures r.Failed? <==> forall j :: 0 <= j < NVMA ==> old(slots[j]).used
      ensures r.Failed? ==> slots[..] == old(slots[..]) && list == old(list)
      ensures !r.Failed? ==>
                && n < NVMA && n !in old(list) && slots[..] == old(slots[..])[n := slots[n]]
                && var x := NewArea(old(slots[..])[n], va, len, perm, kind);
                   && (r.Stopped? <==> va % PGSIZE != 0 || exists i :: i in old(list) && Touches(x, old(slots[..])[i]))
                   && (r.Stopped? ==> list == old(list))
                   && (r.Done? ==> slots[n] == x && list == [n] + old(list))
      ensures r.Done? && AreaSize(len) > 0 && va + AreaSize(len) < WORD ==>
                && (Disjoint(list, slots[..]) <==> forall i :: i in old(list) && i < NVMA ==> !Swallows(slots[n], old(slots[..])[i]))
                && (Disjoint(list, slots[..]) ==> Valid())
    {
      hide Disjoint, Touches, Swallows;
      ListedFacts(list, slots[..]);
      ghost var table := slots[..];
      var i := Alloc();
      if i < 0 {
        return Failed, 0;
      }
      n := i;
      assert n !in list;
      if va % PGSIZE != 0 {
        return Stopped, n;
      }
      slots[i] := NewArea(slots[i], va, len, perm, kind);
      ghost var x := slots[i];
      assert slots[..] == table[n := x];
      var b := Intersects(slots[i]);
      if b {
        return Stopped, n;
      }
      if x.size > 0 && va + x.size < WORD {
        AddDisjoint(list, table, n, x);
      }
      list := [i] + list;
      r := Done;
    }

    /**
     `split_vma`. Cut inside the area, it keeps every address's meaning and the overlap assertion holds; a cut beyond
     the area's end never succeeds, because the assertion stops it.
     */
    method Split(v: nat, addr: nat, below: bool) returns (r: Outcome, ghost n: nat)
      requires Valid() && v in list && addr < WORD
      modifies `list, slots
      ensures r.Failed? <==> Unused(old(slots[..])) == {}
      ensures r.Failed? ==> slots[..] == old(slots[..]) && list == old(list)
      ensures !r.Failed? ==> |Unused(slots[..])| == |Unused(old(slots[..]))| - 1
      ensures CutInside(old(slots[v]), addr, below) ==> !r.Stopped?
      ensures CutInside(old(slots[v]), addr, below) && r.Done? ==>
                && Cut(old(list), old(slots[..]), v, n, addr) && list == [n] + old(list)
                && slots[..] == SplitTable(old(slots[..]), v, n, addr, below)
      ensures !below && old(slots[v].size) > 0 && addr > old(slots[v].start + slots[v].size) ==> !r.Done?
    {
      hide Disjoint, Unused, Touches, Listed, Add, Sub;
      n := 0;
      ListedFacts(list, slots[..]);
      ghost var table := slots[..];
      var x := slots[v];
      var i := Alloc();
      if i < 0 {
        assert slots[..] == table;
        AllUsed(table);
        return Failed, 0;
      }
      n := i;
      NoWrap(x.start, x.size);
      NoWrap(x.start + x.size, addr);
      NoWrap(addr, x.start);
      var size1, size2 := Sub(Add(x.start, x.size), addr), Sub(addr, x.start);
      if below {
        slots[i] := x.(size := size2);
        slots[v] := x.(start := addr, size := size1, offset := Add(x.offset, size2));
      } else {
        slots[i] := x.(start := addr, size := size1, offset := Add(x.offset, size2));
        slots[v] := x.(size := size2);
      }
      assert slots[..] == table[v := slots[v]][n := slots[n]];
      SlotTaken(table, slots[..], v, n);
      if CutInside(x, addr, below) {
        assert slots[..] == SplitTable(table, v, n, addr, below);
        NothingTouched(list, table, v, n, addr, below);
      } else if !below && x.size > 0 && addr > x.start + x.size {
        PastTheEnd(x, addr);
        assert Touches(slots[i], slots[v]);
      }
      var b := Intersects(slots[i]);
      if b {
        return Stopped, n;
      }
      list := [i] + list;
      r := Done;
    }

    /**
     `sys_mprotect`. If it succeeds the permission of exactly the rounded range changes and nothing else; if it
     returns -1 no address's meaning changes. It returns -1 exactly when the range wraps around, the permission is
     invalid, no area covers the start or a cut finds no slot; otherwise it succeeds for a range inside one area, and stops
     the kernel for one that runs past it.
     */
    method Mprotect(start: nat, len0: nat, prot: int) returns (r: Outcome)
      requires Valid() && start < WORD && len0 < WORD
      modifies `list, slots
      ensures r.Failed? ==> Valid() && forall a: nat :: Meaning(a) == old(Meaning(a))
      ensures r.Done? ==> Valid() && forall a: nat ::
                Meaning(a) == Protected(old(Meaning(a)), len0 != 0 && start <= a < Add(start, RoundUp(len0)), prot)
      ensures r.Failed? <==> len0 != 0 && Refused(old(list), old(slots[..]), start, Add(start, RoundUp(len0)), prot)
      ensures !r.Failed? ==>
                (r.Done? <==> len0 == 0 || WithinArea(old(list), old(slots[..]), start, Add(start, RoundUp(len0))))
    {
      hide Disjoint, Lookup, AttrAt, Unused;
      ghost var list0, table0 := list, slots[..];
      if len0 == 0 {
        return Done;
      }
      var len := RoundUp(len0);
      var end := Add(start, len);
      if end < start || !(0 <= prot < 8) {
        return Failed;
      }
      ListedFacts(list, slots[..]);
      var found := Find(start);
      if found.None? {
        return Failed;
      }
      var v := found.value;
      ghost var n;
      NoSlots(table0);
      if start != slots[v].start {
        r, n := Split(v, start, true);
        if !r.Done? {
          return;
        }
        AllMeaning(list0, table0, v, n, start, true);
      }
      assert |Unused(slots[..])| == |Unused(table0)| - (if start != table0[v].start then 1 else 0);
      NoSlots(slots[..]);
      ListedFacts(list, slots[..]);
      ghost var list1, table1 := list, slots[..];
      if end != slots[v].start + slots[v].size {
        r, n := Split(v, end, false);
        if !r.Done? {
          return;
        }
        AllMeaning(list1, table1, v, n, end, false);
      }
      ListedFacts(list, slots[..]);
      ghost var list2, table2 := list, slots[..];
      assert slots[v].start == start && slots[v].start + slots[v].size == end;
      slots[v] := slots[v].(perm := prot);
      ProtectMeaning(list2, table2, v, prot);
      assert slots[..] == table2[v := table2[v].(perm := prot)];
      r := Done;
    }
  }

  /** An area of one page, and one of three pages around it: the second goes in, and the two overlap. */
  method OverlapGoesIn() returns (space: Space, r: Outcome)
    ensures fresh(space) && r == Done && !Disjoint(space.list, space.slots[..])
  {
    hide Disjoint, Listed;
    space := new Space();
    assert !space.slots[0].used && AreaSize(PGSIZE) == PGSIZE && AreaSize(3 * PGSIZE) == 3 * PGSIZE;
    var first, n := space.MapRange(PGSIZE, PGSIZE, 3, 0);
    assert first == Done && space.list == [n] && space.Valid();
    ghost var inner := space.slots[..];
    assert !inner[if n == 0 then 1 else 0].used;
    var m;
    r, m := space.MapRange(0, 3 * PGSIZE, 3, 0);
    assert Swallows(space.slots[m], inner[n]) && n in [n];
  }

  /** Two adjacent areas of a page each: mprotect of both pages stops the kernel. */
  method ProtectAcross() returns (r: Outcome)
    ensures r == Stopped
  {
    hide Disjoint, Listed, Lookup;
    var space := new Space();
    assert !space.slots[0].used && AreaSize(PGSIZE) == PGSIZE;
    var first, n := space.MapRange(0, PGSIZE, 3, 0);
    assert first == Done && space.list == [n] && space.Valid();
    ghost var lower := space.slots[..];
    assert !lower[if n == 0 then 1 else 0].used;
    var second, m := space.MapRange(PGSIZE, PGSIZE, 3, 0);
    assert second == Done && space.list == [m, n] && space.Valid();
    assert RoundUp(2 * PGSIZE) == 2 * PGSIZE && Add(0, 2 * PGSIZE) == 2 * PGSIZE;
    ghost var third := if n != 0 && m != 0 then 0 else if n != 1 && m != 1 then 1 else 2;
    assert third in Unused(space.slots[..]);
    NoSlots(space.slots[..]);
    assert Covers(space.slots[n], 0);
    Unique(space.list, space.slots[..], n, 0);
    r := space.Mprotect(0, 2 * PGSIZE, 1);
  }

  /** `PGROUNDUP` on 64-bit words. */
  function RoundUp(len: nat): nat
  {
    (len + PGSIZE - 1) / PGSIZE * PGSIZE % WORD
  }

  /** The size `vma_map_range` gives an area: whole pages, and at least one. */
  function AreaSize(len: nat): nat
  {
    RoundUp(if len < PGSIZE then PGSIZE else len)
  }

  /** The area `vma_map_range` makes of an unused slot; it sets neither file nor offset. */
  function NewArea(slot: Area, va: nat, len: nat, perm: nat, kind: nat): Area
  {
    slot.(used := true, start := va, size := AreaSize(len), perm := perm, kind := kind)
  }

  function Protected(was: Option<Attr>, inside: bool, prot: int): Option<Attr>
  {
    if inside && was.Some? && prot >= 0 then Some(was.value.(perm := prot)) else was
  }

  /** The range starts in an area and does not run past its end. */
  predicate WithinArea(list: seq<nat>, table: seq<Area>, start: nat, end: nat)
  {
    var r := Lookup(list, table, start);
    r.Some? && end <= table[r.value].start + table[r.value].size
  }

  /** The slots in use by nobody. */
  ghost function Unused(table: seq<Area>): set<nat>
  {
    set i | 0 <= i < |table| && !table[i].used
  }

  lemma NoSlots(table: seq<Area>)
    ensures Unused(table) == {} <==> |Unused(table)| == 0
  {
  }

  lemma AllUsed(table: seq<Area>)
    requires forall i :: 0 <= i < |table| ==> table[i].used
    ensures Unused(table) == {}
  {
  }

  /** Slot `n` has been taken for a piece of the area in slot `v`. */
  lemma SlotTaken(table: seq<Area>, after: seq<Area>, v: nat, n: nat)
    requires v < |table| && n < |table| && table[v].used && !table[n].used && |after| == |table|
    requires after == table[v := after[v]][n := after[n]] && after[v].used && after[n].used
    ensures n in Unused(table) && Unused(after) == Unused(table) - {n} && |Unused(after)| == |Unused(table)| - 1
  {
  }

  /** How often an area has to be cut for the range to be one of its own. */
  function Cuts(v: Area, start: nat, end: nat): nat
  {
    (if start != v.start then 1 else 0) + if end != v.start + v.size then 1 else 0
  }

  /** Why mprotect of a range returns -1. */
  ghost predicate Refused(list: seq<nat>, table: seq<Area>, start: nat, end: nat, prot: int)
  {
    var r := Lookup(list, table, start);
    end < start || !(0 <= prot < 8) || r.None? || |Unused(table)| < Cuts(table[r.value], start, end)
  }

  predicate CutInside(x: Area, addr: nat, below: bool)
  {
    if below then x.start < addr <= x.start + x.size else x.start <= addr < x.start + x.size
  }

  lemma ListedFacts(list: seq<nat>, table: seq<Area>)
    requires SpaceOk(list, table)
    ensures forall k :: 0 <= k < |list| ==> list[k] < |table| && table[list[k]].used
    ensures forall i :: i in list ==> i < |table| && table[i].used && table[i].start + table[i].size < WORD && table[i].offset < WORD
  {
    forall k | 0 <= k < |list|
      ensures list[k] < |table| && table[list[k]].used
    {
      assert list[k] in list;
    }
  }

  lemma NothingTouched(list: seq<nat>, table: seq<Area>, v: nat, n: nat, addr: nat, below: bool)
    requires Cut(list, table, v, n, addr) && CutInside(table[v], addr, below)
    ensures forall i :: i in list ==> i < |table| && !Touches(SplitTable(table, v, n, addr, below)[n], SplitTable(table, v, n, addr, below)[i])
  {
    forall i | i in list
      ensures i < |table| && !Touches(SplitTable(table, v, n, addr, below)[n], SplitTable(table, v, n, addr, below)[i])
    {
      SplitApart(list, table, v, n, addr, below, i);
    }
  }

  /** The piece cut beyond the end wraps around, and its last byte lies in the area it was cut from. */
  lemma PastTheEnd(x: Area, addr: nat)
    requires x.size > 0 && x.start + x.size < addr < WORD
    ensures var size1, size2 := Sub(Add(x.start, x.size), addr), Sub(addr, x.start);
            Touches(x.(start := addr, size := size1, offset := Add(x.offset, size2)), x.(size := size2))
  {
    var e := x.start + x.size;
    NoWrap(x.start, x.size);
    NoWrap(e, addr);
    NoWrap(addr, x.start);
    assert addr + Sub(e, addr) == WORD + e;
    assert Add(addr, Sub(e, addr)) == e;
    NoWrap(e, 1);
  }

  lemma AllMeaning(list: seq<nat>, table: seq<Area>, v: nat, n: nat, addr: nat, below: bool)
    requires Cut(list, table, v, n, addr)
    ensures SpaceOk([n] + list, SplitTable(table, v, n, addr, below))
    ensures forall a: nat :: AttrAt([n] + list, SplitTable(table, v, n, addr, below), a) == AttrAt(list, table, a)
  {
    hide AttrAt, Disjoint;
    SplitListed(list, table, v, n, addr, below);
    SplitDisjoint(list, table, v, n, addr, below);
    forall a: nat
      ensures AttrAt([n] + list, SplitTable(table, v, n, addr, below), a) == AttrAt(list, table, a)
    {
      SplitMeaning(list, table, v, n, addr, below, a);
    }
  }

  /** A new permission on one area is a new permission on exactly its addresses. */
  lemma ProtectMeaning(list: seq<nat>, table: seq<Area>, v: nat, prot: nat)
    requires SpaceOk(list, table) && v in list
    ensures var table' := table[v := table[v].(perm := prot)];
            && SpaceOk(list, table')
            && forall a: nat :: AttrAt(list, table', a) == Protected(AttrAt(list, table, a), Covers(table[v], a), prot)
  {
    hide Lookup;
    var table' := table[v := table[v].(perm := prot)];
    assert SpaceOk(list, table') by {
      assert forall i: nat, a: nat :: i < |table| ==> (Covers(table'[i], a) <==> Covers(table[i], a));
    }
    forall a: nat
      ensures AttrAt(list, table', a) == Protected(AttrAt(list, table, a), Covers(table[v], a), prot)
    {
      var r, r' := Lookup(list, table, a), Lookup(list, table', a);
      if r.Some? {
        assert Covers(table'[r.value], a);
        Unique(list, table', r.value, a);
        if Covers(table[v], a) {
          Unique(list, table, v, a);
        }
      } else {
        assert r'.None?;
      }
    }
  }
}
