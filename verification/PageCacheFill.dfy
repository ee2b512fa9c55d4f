/**
 Filling the page cache of a file and moving its pages to and from the disk in batches (src/fs/mpage.c), on top of
 the radix tree. A page is named by its physical address; the disk transfer of a run of pages is one abstract call.
 */
module PageCacheFill {
  import opened Common
  import opened RadixIndex
  import opened RadixStore
  import opened RadixState
  import opened RadixTree

  /** A page on a page list: `Page_item`. */
  datatype Item = Item(pa: nat, index: nat)

  /** One call of `fat32_rw_pages`: `cnt` pages from `pa` and from `index` on. */
  datatype Call = Call(pa: nat, index: nat, cnt: nat)

  // ---------------------------------------------------------------- batches

  /** `PAGE_ADJACENT`. */
  predicate Adjacent(x: Item, y: Item)
  {
    x.index + 1 == y.index && x.pa + PGSIZE == y.pa
  }

  /** The pages a call moves, in order. */
  ghost function Pages(c: Call): (s: seq<Item>)
    ensures |s| == c.cnt && forall k :: 0 <= k < c.cnt ==> s[k] == Item(c.pa + k * PGSIZE, c.index + k)
  {
    seq(c.cnt, k requires 0 <= k => Item(c.pa + k * PGSIZE, c.index + k))
  }

  /** The last of them. */
  function LastPage(c: Call): Item
    requires c.cnt > 0
  {
    Item(c.pa + (c.cnt - 1) * PGSIZE, c.index + c.cnt - 1)
  }

  ghost function AllPages(calls: seq<Call>): seq<Item>
  {
    if calls == [] then [] else AllPages(calls[..|calls| - 1]) + Pages(calls[|calls| - 1])
  }

  /** The last page of a call and the first of the next are not adjacent: the runs are as long as they can be. */
  ghost predicate Maximal(calls: seq<Call>)
  {
    && (forall i :: 0 <= i < |calls| ==> calls[i].cnt > 0)
    && (forall i, j :: 0 <= i && j == i + 1 && j < |calls| ==>
          !Adjacent(LastPage(calls[i]), Item(calls[j].pa, calls[j].index)))
  }

  /** The inner loop: the end of the run that starts at `head`. */
  method RunEnd(list: seq<Item>, head: nat) returns (last: nat)
    requires head < |list|
    ensures head <= last < |list| && (last + 1 < |list| ==> !Adjacent(list[last], list[last + 1]))
    ensures list[head..last + 1] == Pages(Call(list[head].pa, list[head].index, last + 1 - head))
    ensures list[last] == LastPage(Call(list[head].pa, list[head].index, last + 1 - head))
  {
    last := head;
    while last + 1 < |list| && Adjacent(list[last], list[last + 1])
      invariant head <= last < |list|
      invariant forall k :: head <= k <= last ==> list[k] == Item(list[head].pa + (k - head) * PGSIZE, list[head].index + (k - head))
    {
      last := last + 1;
    }
  }

  lemma AllPagesStep(calls: seq<Call>, c: Call)
    ensures AllPages(calls + [c]) == AllPages(calls) + Pages(c)
  {
    assert (calls + [c])[..|calls|] == calls;
  }

  lemma MaximalStep(calls: seq<Call>, c: Call)
    requires Maximal(calls) && c.cnt > 0
    requires calls != [] ==> !Adjacent(LastPage(calls[|calls| - 1]), Item(c.pa, c.index))
    ensures Maximal(calls + [c])
  {
    hide LastPage, Adjacent;
  }

  /** `fat32_rw_pages_batch`: every page of the list is moved exactly once, in maximal runs. */
  method Batch(list: seq<Item>) returns (calls: seq<Call>)
    ensures AllPages(calls) == list && Maximal(calls)
  {
    hide AllPages, Pages, Adjacent, LastPage;
    calls := [];
    assert AllPages([]) == list[..0] by {
      NoPages();
    }
    var out := 0;
    while out < |list|
      invariant out <= |list| && AllPages(calls) == list[..out] && Maximal(calls)
      invariant calls == [] <==> out == 0
      invariant 0 < out < |list| ==> !Adjacent(list[out - 1], list[out])
      invariant calls != [] ==> LastPage(calls[|calls| - 1]) == list[out - 1]
    {
      var last := RunEnd(list, out);
      var c := Call(list[out].pa, list[out].index, last + 1 - out);
      assert list[..last + 1] == list[..out] + list[out..last + 1];
      assert list[out] == Item(c.pa, c.index);
      AllPagesStep(calls, c);
      MaximalStep(calls, c);
      calls := calls + [c];
      out := last + 1;
    }
    assert list[..out] == list;
  }

  lemma NoPages()
    ensures AllPages([]) == []
  {
  }

  // ---------------------------------------------------------------- reading pages

  /** The indices of [lo, hi) that are not in `keys`, in increasing order. */
  ghost function Missing(keys: set<nat>, lo: nat, hi: nat): seq<nat>
    decreases hi
  {
    if lo >= hi then []
    else Missing(keys, lo, hi - 1) + (if hi - 1 in keys then [] else [hi - 1])
  }

  /** Exactly the absent indices, each once, in order. */
  lemma {:induction false} MissingMeaning(keys: set<nat>, lo: nat, hi: nat)
    ensures forall x :: x in Missing(keys, lo, hi) <==> lo <= x < hi && x !in keys
    ensures forall i, j :: 0 <= i < j < |Missing(keys, lo, hi)| ==> Missing(keys, lo, hi)[i] < Missing(keys, lo, hi)[j]
    decreases hi
  {
    if lo < hi {
      MissingMeaning(keys, lo, hi - 1);
      var s := Missing(keys, lo, hi - 1);
      forall i | 0 <= i < |s|
        ensures s[i] < hi - 1
      {
        assert s[i] in s;
      }
    }
  }

  ghost function Indices(list: seq<Item>): (s: seq<nat>)
    ensures |s| == |list| && forall k :: 0 <= k < |list| ==> s[k] == list[k].index
  {
    seq(|list|, k requires 0 <= k < |list| => list[k].index)
  }

  /** The cache after the pages of a list have been added one after the other. */
  ghost function Added(items: map<nat, Word>, list: seq<Item>): map<nat, Word>
  {
    if list == [] then items
    else Added(items, list[..|list| - 1])[list[|list| - 1].index := list[|list| - 1].pa]
  }

  /** Cached pages stay, and every listed page is found where its item says. */
  lemma {:induction false} AddedMeaning(items: map<nat, Word>, list: seq<Item>)
    requires forall i, j :: 0 <= i < j < |list| ==> list[i].index < list[j].index
    requires forall i :: 0 <= i < |list| ==> list[i].index !in items
    ensures forall x :: x in Added(items, list) <==> x in items || x in Indices(list)
    ensures forall x :: x in items ==> Added(items, list)[x] == items[x]
    ensures forall k :: 0 <= k < |list| ==> list[k].index in Added(items, list) && Added(items, list)[list[k].index] == list[k].pa
  {
    if list != [] {
      var rest := list[..|list| - 1];
      AddedMeaning(items, rest);
      assert Indices(list) == Indices(rest) + [list[|list| - 1].index];
    }
  }

  /** Consecutive listed indices have consecutive addresses. */
  ghost predicate Contiguous(list: seq<Item>)
  {
    forall i, j :: 0 <= i && j == i + 1 && j < |list| && list[i].index + 1 == list[j].index ==> list[i].pa + PGSIZE == list[j].pa
  }

  /** How `mpage_readpages` ends; the last two stop the kernel. */
  datatype Fill = Filled | FirstCached | NoMemory

  /** How `mpage_writepage` ends; the last two stop the kernel. */
  datatype WriteBack = Written | NothingDirty | NoItems

  const DIRTY := 0

  class AddressSpace {
    const tree: Tree
    var nrpages: nat
    var freePage: nat
    /** The calls of the allocator that find no memory, and how many calls there were. */
    const starved: set<nat>
    var asked: nat

    ghost predicate Valid()
      reads this, tree
    {
      tree.Valid() && nrpages == |tree.items| && freePage > 0
    }

    constructor (starved: set<nat>)
      ensures Valid() && tree.items == map[] && fresh(tree) && this.starved == starved && asked == 0
    {
      tree := new Tree();
      nrpages, freePage := 0, 1;
      this.starved, asked := starved, 0;
    }

    /** `find_get_page_atomic`. */
    method Find(index: nat) returns (found: bool)
      requires Valid()
      ensures found <==> index in tree.items
    {
      hide RadixState.Struct, RadixState.TagInv, RadixState.Minimal;
      var r := tree.Lookup(index);
      if index in tree.items {
        ItemNotNull(tree.Value(), index);
      }
      return r != 0;
    }

    /** `add_to_page_cache_atomic`; where the index is taken the kernel panics. */
    method Add(pa: nat, index: nat) returns (ok: bool)
      requires Valid() && index < INDEX_LIMIT && pa > 0 && pa % PGSIZE == 0
      modifies `nrpages, tree
      ensures Valid() && tree.tagged == old(tree.tagged) && (ok <==> index !in old(tree.items))
      ensures tree.items == if ok then old(tree.items)[index := pa] else old(tree.items)
    {
      hide RadixTree.Tree.Valid, GoodWord;
      PageIsWord(pa);
      ghost var was := tree.items;
      var error := tree.Insert(index, pa);
      ok := error == 0;
      if ok {
        nrpages := nrpages + 1;
        OneMoreKey(was, index, pa);
      }
    }

    /** `kzalloc` of a run of pages, contiguous and aligned; whether there is memory is not ours to say. */
    method Kzalloc(n: nat) returns (ok: bool, pa: nat)
      requires Valid()
      modifies `freePage, `asked
      ensures Valid() && pa > 0 && pa % PGSIZE == 0
      ensures asked == old(asked) + 1 && (ok <==> Supplied(starved, old(asked), asked))
    {
      hide RadixTree.Tree.Valid;
      pa := freePage * PGSIZE;
      asked := asked + 1;
      ok := asked - 1 !in starved;
      if ok {
        freePage := freePage + n;
      }
    }

    /** The two-pointer scan: the end of the run of absent pages that starts at `start`. */
    method GapEnd(index: nat, start: nat, cnt: nat) returns (end: nat)
      requires Valid() && start < cnt && index + start !in tree.items
      ensures start < end <= cnt && (forall x :: index + start <= x < index + end ==> x !in tree.items)
      ensures end < cnt ==> index + end in tree.items
    {
      hide RadixTree.Tree.Valid;
      end := start + 1;
      while end < cnt
        invariant start < end <= cnt && forall x :: index + start <= x < index + end ==> x !in tree.items
      {
        var found := Find(index + end);
        if found {
          break;
        }
        end := end + 1;
      }
    }

    /** The inner loop of `mpage_readpages`: a run of absent pages is allocated, cached and listed, unless it is a lone page. */
    method FillGap(index: nat, start: nat, end: nat, lone: bool, list0: seq<Item>) returns (ok: bool, pa: nat, list: seq<Item>)
      requires Valid() && start < end && index + end <= INDEX_LIMIT
      requires forall x :: index + start <= x < index + end ==> x !in tree.items
      modifies this, tree
      ensures Valid() && pa > 0 && tree.tagged == old(tree.tagged)
      ensures ok ==> list == list0 + Pages(Call(pa, index + start, end - start))
      ensures ok ==> tree.items == Added(old(tree.items), Pages(Call(pa, index + start, end - start)))
      ensures asked >= old(asked) && (ok <==> Supplied(starved, old(asked), asked))
    {
      hide RadixTree.Tree.Valid, Added, Supplied;
      list := list0;
      ok, pa := Kzalloc(end - start);
      if !ok {
        return;
      }
      AddedNone(tree.items);
      ghost var run := Pages(Call(pa, index + start, end - start));
      var z := start;
      assert run[..0] == [];
      while z < end
        invariant start <= z <= end && Valid() && tree.tagged == old(tree.tagged)
        invariant list == list0 + run[..z - start]
        invariant tree.items == Added(old(tree.items), run[..z - start])
        invariant forall x :: index + z <= x < index + end ==> x !in tree.items
        invariant asked >= old(asked) && Supplied(starved, old(asked), asked)
      {
        ghost var k := z - start;
        AddedOne(old(tree.items), run, k);
        var added := Add(pa + (z - start) * PGSIZE, index + z);
        if !lone {
          SuppliedJoin(starved, old(asked), asked, asked + 1);
          ok := NewItem();
          if !ok {
            return;
          }
        }
        list := list + [Item(pa + (z - start) * PGSIZE, index + z)];
        assert list == list0 + (run[..k] + [run[k]]);
        z := z + 1;
      }
      assert run[..end - start] == run;
      ok := true;
    }

    /** `kzalloc` of a `Page_item`. */
    method NewItem() returns (ok: bool)
      modifies `asked
      ensures asked == old(asked) + 1 && (ok <==> Supplied(starved, old(asked), asked))
    {
      asked := asked + 1;
      ok := asked - 1 !in starved;
    }

    /**
     `mpage_readpages`. It stops the kernel exactly when the first page is cached already or memory runs out; otherwise
     every page of the range ends up cached, and `added` are the pages that were missing. They are read in batches if
     asked for; a single page that is not to be read is cached without being listed.
     */
    method ReadPages(index: nat, cnt: nat, fromDisk: bool) returns (r: Fill, firstPa: nat, calls: seq<Call>, ghost added: seq<Item>)
      requires Valid() && cnt > 0 && index + cnt <= INDEX_LIMIT
      modifies this, tree
      ensures Valid() && tree.tagged == old(tree.tagged)
      ensures r.FirstCached? <==> index in old(tree.items)
      ensures r.NoMemory? <==> !Supplied(starved, old(asked), asked)
      ensures r.FirstCached? ==> tree.items == old(tree.items) && asked == old(asked)
      ensures r.Filled? ==> Indices(added) == Missing(old(tree.items.Keys), index, index + cnt) && Contiguous(added)
      ensures r.Filled? ==> tree.items == Added(old(tree.items), added) && added != [] && firstPa == added[0].pa
      ensures r.Filled? ==> if fromDisk then AllPages(calls) == added && Maximal(calls) else calls == []
    {
      hide RadixTree.Tree.Valid, Added, Missing, Contiguous, AllPages, Maximal, Supplied;
      ghost var items0 := tree.items;
      ghost var K := items0.Keys;
      firstPa, calls, added := 0, [], [];
      ScanStart(items0, index);
      SuppliedJoin(starved, asked, asked, asked);
      var lone := cnt == 1 && !fromDisk;
      var list: seq<Item> := [];
      var start := 0;
      while start < cnt
        invariant start <= cnt + 1 && Valid() && tree.tagged == old(tree.tagged) && added == list
        invariant start == 0 ==> list == [] && firstPa == 0 && asked == old(asked)
        invariant start > 0 ==> list != [] && index !in K && firstPa == list[0].pa && firstPa > 0
        invariant Scanned(items0, tree.items, list, index, if start < cnt then start else cnt)
        invariant list != [] ==> list[|list| - 1].index + 1 < index + start
        invariant asked >= old(asked) && Supplied(starved, old(asked), asked)
        decreases cnt + 1 - start
      {
        ScanSame(items0, tree.items, list, index, start, cnt);
        var found := Find(index + start);
        if !found {
          var end := GapEnd(index, start, cnt);
          ghost var items1, asked1 := tree.items, asked;
          var ok, pa, more := FillGap(index, start, end, lone, list);
          SuppliedJoin(starved, old(asked), asked1, asked);
          if !ok {
            return NoMemory, 0, [], [];
          }
          ScanGap(items0, items1, list, index, start, end, cnt, pa);
          assert Pages(Call(pa, index + start, end - start))[0].pa == pa;
          if firstPa == 0 {
            firstPa := pa;
          }
          list, added := more, more;
          if lone {
            return Filled, firstPa, [], added;
          }
          start := end + 1;
        } else {
          if start == 0 {
            return FirstCached, 0, [], [];
          }
          ScanSkip(items0, tree.items, list, index, start);
          start := start + 1;
        }
      }
      r := Filled;
      if fromDisk {
        calls := Batch(list);
      }
    }

    /**
     `mpage_writepage`: each dirty page is written exactly once, in increasing order and in maximal batches. Its
     assertion fails exactly when there are cached pages and none is dirty, and it panics exactly when there is no
     memory for the list.
     */
    method WritePages() returns (r: WriteBack, calls: seq<Call>)
      requires Valid()
      modifies `asked
      ensures |tree.tagged| == MAX_TAGS && (r.NothingDirty? <==> tree.items != map[] && tree.tagged[DIRTY] == {})
      ensures asked >= old(asked) && (r.NoItems? <==> !Supplied(starved, old(asked), asked))
      ensures r.Written? ==> Maximal(calls) && Indices(AllPages(calls)) == Listing(tree.tagged[DIRTY], 0, INDEX_LIMIT)
      ensures r.Written? ==> forall p :: p in AllPages(calls) ==> p.index in tree.items && p.pa == tree.items[p.index]
    {
      hide RadixState.Struct, TagsSplit, AllPages, Maximal, Listing, Supplied;
      RootCases(tree.Value());
      SuppliedJoin(starved, asked, asked, asked);
      ghost var S := tree.tagged[DIRTY];
      if tree.height == 0 && tree.rnode == 0 {
        ListingEmpty(S, 0, INDEX_LIMIT);
        calls := Batch([]);
        assert AllPages(calls) == [];
        return Written, calls;
      }
      var found, _ := tree.GangLookup(0, UNLIMITED, DIRTY);
      DirtyFound(S);
      var ok, list := ListPages(found);
      if !ok {
        return NoItems, [];
      }
      if |found| == 0 {
        return NothingDirty, [];
      }
      if tree.height == 0 {
        assert S == {0};
        OnlyZero(S);
        assert |found| == 1;
      }
      calls := Batch(list);
      r := Written;
      assert Indices(list) == Listing(S, 0, INDEX_LIMIT);
    }

    /** `page_list_add`, once for each page found. */
    method ListPages(found: seq<(nat, Word)>) returns (ok: bool, list: seq<Item>)
      modifies `asked
      ensures asked >= old(asked) && (ok <==> Supplied(starved, old(asked), asked)) && (found == [] ==> ok)
      ensures ok ==> |list| == |found| && forall k :: 0 <= k < |found| ==> list[k] == Item(found[k].1, found[k].0)
    {
      hide Supplied;
      SuppliedJoin(starved, asked, asked, asked);
      ok, list := true, [];
      while |list| < |found|
        invariant |list| <= |found| && asked >= old(asked) && ok && Supplied(starved, old(asked), asked)
        invariant forall k :: 0 <= k < |list| ==> list[k] == Item(found[k].1, found[k].0)
      {
        SuppliedJoin(starved, old(asked), asked, asked + 1);
        ok := NewItem();
        if !ok {
          return;
        }
        list := list + [Item(found[|list|].1, found[|list|].0)];
      }
    }

    /** The listing is empty iff the set is, and an empty tree has height zero. */
    lemma DirtyFound(S: set<nat>)
      requires tree.Valid() && S <= tree.items.Keys
      ensures Listing(S, 0, INDEX_LIMIT) == [] <==> S == {}
      ensures tree.items == map[] ==> tree.height == 0 && tree.rnode == 0
    {
      hide RadixState.Skeleton, Present, TagsSplit, Listing;
      RootCases(tree.Value());
      AllBelowLimit(tree.Value());
      ListingMembers(S, 0, INDEX_LIMIT);
      if S != {} {
        var x :| x in S;
        assert x in Listing(S, 0, INDEX_LIMIT);
      } else {
        ListingEmpty(S, 0, INDEX_LIMIT);
      }
    }
  }

  /** What that order means: every index of the set is written at exactly one place, and they increase. */
  lemma WrittenOnce(list: seq<Item>, S: set<nat>)
    requires Indices(list) == Listing(S, 0, INDEX_LIMIT) && forall x :: x in S ==> x < INDEX_LIMIT
    ensures forall i, j :: 0 <= i < j < |list| ==> list[i].index < list[j].index
    ensures forall k :: 0 <= k < |list| ==> list[k].index in S
    ensures forall x :: x in S ==> exists k :: 0 <= k < |list| && list[k].index == x
  {
    hide Listing;
    var s := Listing(S, 0, INDEX_LIMIT);
    ListingMembers(S, 0, INDEX_LIMIT);
    ListingIncreasing(S, 0, INDEX_LIMIT);
    forall i, j | 0 <= i < j < |list|
      ensures list[i].index < list[j].index
    {
      assert Indices(list)[i] == s[i] && Indices(list)[j] == s[j];
    }
    forall k | 0 <= k < |list|
      ensures list[k].index in S
    {
      assert Indices(list)[k] == s[k] && s[k] in s;
    }
    forall x | x in S
      ensures exists k :: 0 <= k < |list| && list[k].index == x
    {
      assert x in s;
      var k :| 0 <= k < |s| && s[k] == x;
      assert Indices(list)[k] == list[k].index;
    }
  }

  /** The state of the fill after the first `done` pages of the range. */
  ghost predicate Scanned(items0: map<nat, Word>, items: map<nat, Word>, list: seq<Item>, index: nat, done: nat)
  {
    && Indices(list) == Missing(items0.Keys, index, index + done) && Contiguous(list)
    && items == Added(items0, list)
  }

  lemma ScanStart(items0: map<nat, Word>, index: nat)
    ensures Scanned(items0, items0, [], index, 0)
  {
  }

  lemma IncreasingList(keys: set<nat>, list: seq<Item>, lo: nat, hi: nat)
    requires Indices(list) == Missing(keys, lo, hi)
    ensures forall i, j :: 0 <= i < j < |list| ==> list[i].index < list[j].index
    ensures forall i :: 0 <= i < |list| ==> list[i].index !in keys && lo <= list[i].index < hi
  {
    MissingMeaning(keys, lo, hi);
    forall i | 0 <= i < |list|
      ensures list[i].index !in keys && lo <= list[i].index < hi
    {
      assert Indices(list)[i] in Missing(keys, lo, hi);
    }
    forall i, j | 0 <= i < j < |list|
      ensures list[i].index < list[j].index
    {
      assert Indices(list)[i] < Indices(list)[j];
    }
  }

  /** What lies ahead of the scan is as it was. */
  lemma ScanSame(items0: map<nat, Word>, items: map<nat, Word>, list: seq<Item>, index: nat, done: nat, cnt: nat)
    requires Scanned(items0, items, list, index, done)
    ensures forall x :: index + done <= x ==> (x in items <==> x in items0)
  {
    IncreasingList(items0.Keys, list, index, index + done);
    AddedMeaning(items0, list);
    MissingMeaning(items0.Keys, index, index + done);
  }

  lemma {:induction false} MissingGap(keys: set<nat>, lo: nat, mid: nat, hi: nat, pa: nat)
    requires lo <= mid <= hi && forall x :: mid <= x < hi ==> x !in keys
    ensures Missing(keys, lo, hi) == Missing(keys, lo, mid) + Indices(Pages(Call(pa, mid, hi - mid)))
    decreases hi
  {
    if mid < hi {
      MissingGap(keys, lo, mid, hi - 1, pa);
      assert Indices(Pages(Call(pa, mid, hi - mid))) == Indices(Pages(Call(pa, mid, hi - 1 - mid))) + [hi - 1];
    } else {
      assert Indices(Pages(Call(pa, mid, 0))) == [];
    }
  }

  lemma {:induction false} AddedConcat(items: map<nat, Word>, a: seq<Item>, b: seq<Item>)
    ensures Added(Added(items, a), b) == Added(items, a + b)
  {
    if b == [] {
      assert a + b == a;
    } else {
      AddedConcat(items, a, b[..|b| - 1]);
      assert (a + b)[..|a + b| - 1] == a + b[..|b| - 1];
    }
  }

  lemma ScanGap(items0: map<nat, Word>, items: map<nat, Word>, list: seq<Item>, index: nat, start: nat, end: nat, cnt: nat, pa: nat)
    requires Scanned(items0, items, list, index, start) && start < end <= cnt
    requires list != [] ==> list[|list| - 1].index + 1 < index + start
    requires forall x :: index + start <= x < index + end ==> x !in items
    requires end < cnt ==> index + end in items
    ensures var run := Pages(Call(pa, index + start, end - start));
            Scanned(items0, Added(items, run), list + run, index, if end + 1 < cnt then end + 1 else cnt)
  {
    hide Added, Missing, Contiguous;
    var run := Pages(Call(pa, index + start, end - start));
    ScanSame(items0, items, list, index, start, cnt);
    MissingGap(items0.Keys, index, index + start, index + end, pa);
    AddedConcat(items0, list, run);
    assert Indices(list + run) == Indices(list) + Indices(run);
    MissingOneMore(items0.Keys, index, index + end);
    RunContiguous(Call(pa, index + start, end - start));
    ContiguousJoin(list, run);
  }

  lemma MissingOneMore(keys: set<nat>, lo: nat, hi: nat)
    requires lo <= hi
    ensures hi in keys ==> Missing(keys, lo, hi + 1) == Missing(keys, lo, hi)
  {
  }

  lemma RunContiguous(c: Call)
    ensures Contiguous(Pages(c))
  {
  }

  lemma ContiguousJoin(list: seq<Item>, run: seq<Item>)
    requires Contiguous(list) && Contiguous(run)
    requires list != [] && run != [] ==> list[|list| - 1].index + 1 != run[0].index
    ensures Contiguous(list + run)
  {
  }

  lemma ScanSkip(items0: map<nat, Word>, items: map<nat, Word>, list: seq<Item>, index: nat, start: nat)
    requires Scanned(items0, items, list, index, start) && index + start in items
    ensures Scanned(items0, items, list, index, start + 1)
  {
    ScanSame(items0, items, list, index, start, start + 1);
  }

  lemma PageIsWord(pa: nat)
    requires pa > 0 && pa % PGSIZE == 0
    ensures GoodWord(pa)
  {
    var k := pa / PGSIZE;
    assert pa == 2 * (2048 * k);
  }

  lemma OneMoreKey(m: map<nat, Word>, index: nat, pa: Word)
    requires index !in m
    ensures |m[index := pa]| == |m| + 1
  {
    assert m[index := pa].Keys == m.Keys + {index};
  }

  lemma AddedNone(items: map<nat, Word>)
    ensures Added(items, []) == items
  {
  }

  lemma AddedOne(items: map<nat, Word>, run: seq<Item>, k: nat)
    requires k < |run|
    ensures run[..k + 1] == run[..k] + [run[k]]
    ensures Added(items, run[..k + 1]) == Added(items, run[..k])[run[k].index := run[k].pa]
  {
    assert run[..k + 1][..k] == run[..k];
  }

  /** After the fill every page of the range is cached, nothing that was cached changed, and nothing else appeared. */
  lemma RangeIsCached(items0: map<nat, Word>, added: seq<Item>, index: nat, cnt: nat)
    requires Indices(added) == Missing(items0.Keys, index, index + cnt)
    ensures forall x :: x in Added(items0, added) <==> x in items0 || index <= x < index + cnt
    ensures forall x :: x in items0 ==> Added(items0, added)[x] == items0[x]
    ensures forall k :: 0 <= k < |added| ==> added[k].index in Added(items0, added) && Added(items0, added)[added[k].index] == added[k].pa
  {
    IncreasingList(items0.Keys, added, index, index + cnt);
    AddedMeaning(items0, added);
    MissingMeaning(items0.Keys, index, index + cnt);
  }
}
