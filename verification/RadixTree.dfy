/**
 The page-cache radix tree of src/lib/radix-tree.c, as an object updated in place.

 The abstract value is the map `items` from indices to items and, for each of the two
 tags, the set `tagged[t]` of indices that carry it.
 */
module RadixTree {
  import opened RadixIndex
  import opened RadixStore
  import opened RadixState

  /** `max_items` meaning no limit: the largest 64-bit value. */
  const UNLIMITED: nat := 0xFFFF_FFFF_FFFF_FFFF

  class Tree {
    var height: nat
    var rnode: Word
    var rootTags: seq<bool>
    var nodes: map<Word, Node>
    var nextFree: Word
    ghost var link: map<Pos, Word>
    ghost var pos: map<Word, Pos>
    ghost var items: map<nat, Word>
    ghost var tagged: seq<set<nat>>

    ghost function Value(): State
      reads `height, `rnode, `nodes, `link, `pos, `items
    {
      State(height, rnode, nodes, link, pos, items)
    }

    ghost predicate FreshSupply()
      reads `nodes, `nextFree
    {
      GoodWord(nextFree) && forall a :: a in nodes ==> a < nextFree
    }

    /** Everything but minimality of the height. */
    ghost predicate Inv()
      reads this
    {
      && FreshSupply() && Struct(Value())
      && |rootTags| == MAX_TAGS && |tagged| == MAX_TAGS
      && TagInv(Value(), 0, rootTags[0], tagged[0])
      && TagInv(Value(), 1, rootTags[1], tagged[1])
    }

    ghost predicate Valid()
      reads this
    {
      Inv() && Minimal(items.Keys, height)
    }

    constructor ()
      ensures Valid() && items == map[] && tagged == [{}, {}]
    {
      height, rnode, rootTags, nodes, nextFree := 0, 0, [false, false], map[], 2;
      link, pos, items, tagged := map[], map[], map[], [{}, {}];
    }

    /** `radix_tree_lookup_node`: the item stored at `index`, or NULL. */
    method Lookup(index: nat) returns (r: Word)
      requires Struct(Value())
      ensures r == if index in items then items[index] else 0
    {
      hide Skeleton, Present;
      RootCases(Value());
      LeafWord(Value(), index);
      var node := rnode;
      if node % 2 == 0 {
        return if index > 0 then 0 else node;
      }
      node := node - 1;
      ShrOfZero(height);
      Descend(Value(), 0, height);
      var h: nat := nodes[node].height;
      MaxIndexShift(index, h);
      if index > MaxIndex(h) {
        TooLarge(Value(), index);
        return 0;
      }
      while h > 0
        invariant h <= height && (h, Shr(index, h)) in link && node == link[(h, Shr(index, h))]
      {
        Descend(Value(), index, h);
        node := nodes[node].slots[Shr(index, h - 1) % 64];
        if node == 0 {
          PathBroken(Value(), index, h - 1);
          return 0;
        }
        h := h - 1;
      }
      return node;
    }

    /** A fresh node; `kzalloc` failing panics, so allocation always succeeds here. */
    method AllocNode(n: Node) returns (a: Word)
      requires FreshSupply()
      modifies this`nodes, this`nextFree
      ensures a !in old(nodes) && GoodWord(a) && nodes == old(nodes)[a := n]
      ensures FreshSupply()
    {
      a := nextFree;
      nodes := nodes[a := n];
      nextFree := nextFree + 2;
    }

    /** One round of `radix_tree_extend`: a new root above the old one. */
    method PushRoot()
      requires Inv() && rnode != 0 && height < MAX_HEIGHT
      modifies this
      ensures Inv() && items == old(items) && tagged == old(tagged)
      ensures height == old(height) + 1 && rnode != 0
    {
      hide Placed, Present, NodeOk, TagOk, ItemsOk;
      ghost var s := Value();
      var a := AllocNode(NewRoot(height, rnode - rnode % 2, rootTags));
      link, pos := link[(height + 1, 0) := a], pos[a := (height + 1, 0)];
      rnode := a + 1;
      height := height + 1;
      assert Value() == Pushed(s, rootTags, a);
      PushedStruct(s, rootTags, a);
      PushedTags(s, rootTags, a, 0, tagged[0]);
      PushedTags(s, rootTags, a, 1, tagged[1]);
    }

    /** `radix_tree_extend`: make the tree high enough for `index`; the contents stay. */
    method Extend(index: nat)
      requires Inv() && Shr(index, height) > 0 && index < INDEX_LIMIT
      modifies this
      ensures Inv() && items == old(items) && tagged == old(tagged)
      ensures height > 0 && Shr(index, height) == 0 && Shr(index, height - 1) > 0
    {
      hide TagsSplit, Placed, Present, NodesOk, ItemsOk;
      ShiftAdjoint(index, 1, MAX_HEIGHT);
      if height == MAX_HEIGHT {
        assert false;
      }
      var h: nat := height + 1;
      MaxIndexShift(index, h);
      while index > MaxIndex(h)
        invariant height < h <= MAX_HEIGHT && Shr(index, h - 1) > 0
        invariant index > MaxIndex(h) <==> Shr(index, h) > 0
        decreases MAX_HEIGHT - h
        modifies {}
      {
        h := h + 1;
        MaxIndexShift(index, h);
      }
      if rnode == 0 {
        TallerEmpty(Value(), h);
        height := h;
        return;
      }
      while height < h
        invariant Inv() && rnode != 0 && height <= h && items == old(items) && tagged == old(tagged)
        decreases h - height
      {
        PushRoot();
      }
    }

    /** Nodes, tags and supply in the middle of an insertion, the path of `index` built down to level `h`. */
    ghost predicate Building(index: nat, h: nat)
      reads this
    {
      && FreshSupply() && Growing(Value(), index, h)
      && |rootTags| == MAX_TAGS && |tagged| == MAX_TAGS
      && TagInv(Value(), 0, rootTags[0], tagged[0])
      && TagInv(Value(), 1, rootTags[1], tagged[1])
    }

    /** The last node and slot visited above level `h`; there is none at the root. */
    ghost predicate Visited(index: nat, h: nat, node: Word, offset: nat)
      reads `height, `link
    {
      && (node == 0 <==> h == height)
      && (h < height ==> (h + 1, Shr(index, h + 1)) in link && node == link[(h + 1, Shr(index, h + 1))])
      && (h < height ==> offset == Shr(index, h) % 64)
    }

    /** `radix_tree_insert`: refused iff the index is taken; otherwise exactly one binding is added. */
    method Insert(index: nat, item: Word) returns (r: int)
      requires Valid() && GoodWord(item) && index < INDEX_LIMIT
      modifies this
      ensures Valid() && tagged == old(tagged)
      ensures r == if index in old(items) then -1 else 0
      ensures r == -1 ==> Value() == old(Value()) && rootTags == old(rootTags)
      ensures r == 0 ==> items == old(items)[index := item]
    {
      hide Skeleton, Present, PresentDownTo, TagInv, Below, FreshSupply, Visited;
      MaxIndexShift(index, height);
      if index > MaxIndex(height) {
        TooLarge(Value(), index);
        Extend(index);
      }
      MinimalGrow(items.Keys, index, height);
      ghost var K := items.Keys;
      GrowStart(Value(), index);
      var slot, node, offset := BuildPath(index);
      LinkFacts(Value());
      if slot != 0 {
        GrowTaken(Value(), index);
        return -1;
      }
      PutItem(index, item, node, offset);
      assert items.Keys == K + {index};
      return 0;
    }

    /** The descent of `radix_tree_insert`, adding the nodes that are missing. */
    method BuildPath(index: nat) returns (slot: Word, node: Word, offset: nat)
      requires Building(index, height)
      modifies this`nodes, this`nextFree, this`rnode, this`link, this`pos
      ensures Building(index, 0) && Visited(index, 0, node, offset)
      ensures slot == WordAt(link, (0, index))
      ensures index in items ==> Value() == old(Value())
    {
      hide Skeleton, Present, PresentDownTo, TagInv, Below, FreshSupply;
      RootSlot(Value());
      slot := rnode - rnode % 2;
      var h: nat := height;
      node, offset := 0, 0;
      while h > 0
        invariant h <= height && Building(index, h) && Visited(index, h, node, offset)
        invariant slot == WordAt(link, (h, Shr(index, h)))
        invariant index in items ==> Value() == old(Value())
      {
        LinkFacts(Value());
        if slot == 0 {
          slot := AddNode(index, h, node, offset);
        } else {
          GrowSkip(Value(), index, h);
        }
        Descend(Value(), index, h);
        offset := Shr(index, h - 1) % 64;
        node := slot;
        slot := nodes[node].slots[offset];
        h := h - 1;
      }
    }

    /** The end of `radix_tree_insert`: the item goes into the free slot found, which carries no tag. */
    method PutItem(index: nat, item: Word, node: Word, offset: nat)
      requires Building(index, 0) && Visited(index, 0, node, offset) && GoodWord(item) && (0, index) !in link
      modifies this`nodes, this`rnode, this`link, this`items
      ensures Inv() && index !in old(items) && items == old(items)[index := item]
    {
      hide Skeleton, Present, PresentDownTo, TagInv, Below;
      ghost var s := Value();
      ghost var k: Pos := (0, index);
      GrowLinkable(s, index, 0, item);
      GrowItem(s, index, item);
      FreeUntagged(s, index, 0, rootTags[0], tagged[0]);
      FreeUntagged(s, index, 1, rootTags[1], tagged[1]);
      if node != 0 {
        ParentCounts(s, k);
        nodes := nodes[node := SetSlot(nodes[node], offset, item, nodes[node].count + 1)];
        assert offset !in nodes[node].tags[0] && offset !in nodes[node].tags[1];
      } else {
        rnode := item;
        assert !rootTags[0] && !rootTags[1];
      }
      link, items := link[k := item], items[index := item];
      assert Value() == Linked(s, k, item);
      LinkedTags(s, k, item, 0, rootTags[0], tagged[0]);
      LinkedTags(s, k, item, 1, rootTags[1], tagged[1]);
    }

    /** The branch of `radix_tree_insert` that adds a child node on the path of `index`. */
    method AddNode(ghost index: nat, h: nat, node: Word, offset: nat) returns (a: Word)
      requires Building(index, h) && h >= 1 && (h, Shr(index, h)) !in link && Visited(index, h, node, offset)
      modifies this`nodes, this`nextFree, this`rnode, this`link, this`pos
      ensures Building(index, h - 1) && index !in items
      ensures a != 0 && (h, Shr(index, h)) in link && a == link[(h, Shr(index, h))]
    {
      hide Skeleton, Present, PresentDownTo, TagInv, Below, EmptyNode;
      ghost var s := Value();
      ghost var k: Pos := (h, Shr(index, h));
      a := AllocNode(EmptyNode(h));
      GrowLinkable(s, index, h, a);
      GrowNode(s, index, h, a);
      if node != 0 {
        ParentCounts(s, k);
        UpdatesCommute(s.nodes, a, EmptyNode(h), node, SetSlot(nodes[node], offset, a, nodes[node].count + 1));
        nodes := nodes[node := SetSlot(nodes[node], offset, a, nodes[node].count + 1)];
      } else {
        rnode := a + 1;
      }
      link, pos := link[k := a], pos[a := k];
      assert Value() == Linked(s, k, a);
      LinkedTags(s, k, a, 0, rootTags[0], tagged[0]);
      LinkedTags(s, k, a, 1, rootTags[1], tagged[1]);
    }

    /** `radix_tree_tag_get`: whether the item at `index` carries tag `t`. */
    method TagGet(index: nat, t: nat) returns (r: bool)
      requires Inv() && t < MAX_TAGS
      ensures r <==> index in tagged[t]
    {
      hide Skeleton, Present, TagsSplit, TagOk;
      if !rootTags[t] {
        return false;
      }
      RootCases(Value());
      var node := rnode;
      if node == 0 {
        return false;
      }
      if node % 2 == 0 {
        return index == 0;
      }
      node := node - 1;
      ShrOfZero(height);
      Descend(Value(), 0, height);
      var h: nat := nodes[node].height;
      MaxIndexShift(index, h);
      if index > MaxIndex(h) {
        TooLarge(Value(), index);
        return false;
      }
      while h > 1
        invariant 1 <= h <= height && (h, Shr(index, h)) in link && node == link[(h, Shr(index, h))]
      {
        Descend(Value(), index, h);
        node := nodes[node].slots[Shr(index, h - 1) % 64];
        h := h - 1;
        if node == 0 {
          PathBroken(Value(), index, h);
          return false;
        }
      }
      Descend(Value(), index, 1);
      PathTag(Value(), 1, index, t, 0, tagged[t], tagged[t]);
      BitMeaning(nodes[node], 1, index, t, tagged[t]);
      return index % 64 in nodes[node].tags[t];
    }

    /** The path of `index` is being retagged: tag `t` is set for `hi` above level `L`, for `lo` from there down. */
    ghost predicate Tagging(t: nat, L: nat, hi: set<nat>, lo: set<nat>)
      requires t < MAX_TAGS
      reads this
    {
      && FreshSupply() && Struct(Value())
      && |rootTags| == MAX_TAGS && |tagged| == MAX_TAGS
      && TagsSplit(nodes, pos, t, L, hi, lo)
      && TagInv(Value(), 1 - t, rootTags[1 - t], tagged[1 - t])
    }

    /** Rewrite the bitmap of tag `t` in the node of level `h` on the path of `index`. */
    method WriteTags(ghost index: nat, ghost h: nat, t: nat, node: Word, bits: set<nat>,
                     ghost S: set<nat>, ghost S': set<nat>, ghost downward: bool)
      requires t < MAX_TAGS && 1 <= h && (h, Shr(index, h)) in link && node == link[(h, Shr(index, h))]
      requires if downward then Tagging(t, h, S', S) else Tagging(t, h - 1, S, S')
      requires S - {index} == S' - {index}
      requires node in nodes && |nodes[node].tags| == MAX_TAGS
      requires TagOk(nodes[node].(tags := nodes[node].tags[t := bits]), (h, Shr(index, h)), t, S')
      modifies this`nodes
      ensures if downward then Tagging(t, h - 1, S', S) else Tagging(t, h, S, S')
      ensures nodes == old(nodes)[node := old(nodes)[node].(tags := old(nodes)[node].tags[t := bits])]
    {
      hide Skeleton, Present, TagOk, TagsSplit;
      ghost var s := Value();
      var n := nodes[node].(tags := nodes[node].tags[t := bits]);
      nodes := nodes[node := n];
      RetagFrame(s, h, index, n, t, 1 - t, tagged[1 - t]);
      PlacedOf(s);
      TagStep(s.nodes, s.link, s.pos, s.height, t, S, S', index, h, n, downward);
    }

    /** One level of the descent of `radix_tree_tag_set`. */
    method SetBit(ghost index: nat, ghost h: nat, t: nat, node: Word, offset: nat, ghost S: set<nat>) returns (slot: Word)
      requires t < MAX_TAGS && 1 <= h <= height && offset == Shr(index, h - 1) % 64
      requires Tagging(t, h, S + {index}, S)
      requires (h, Shr(index, h)) in link && node == link[(h, Shr(index, h))]
      modifies this`nodes
      ensures Tagging(t, h - 1, S + {index}, S) && slot == WordAt(link, (h - 1, Shr(index, h - 1)))
    {
      hide Skeleton, Present, TagOk, TagsSplit, Below, TagInv, FreshSupply;
      Descend(Value(), index, h);
      PathTag(Value(), h, index, t, h, S + {index}, S);
      TagOkSet(nodes[node], h, t, S, index);
      WriteTags(index, h, t, node, nodes[node].tags[t] + {offset}, S, S + {index}, true);
      Descend(Value(), index, h);
      slot := nodes[node].slots[offset];
    }

    /** The nodes carry tag `t` for `S`; the root bit is written last. */
    method Settle(t: nat, ghost S: set<nat>, bit: bool)
      requires t < MAX_TAGS && Tagging(t, 0, S, S) && S <= items.Keys && (bit <==> S != {})
      modifies this`rootTags, this`tagged
      ensures Inv() && tagged == old(tagged)[t := S]
    {
      hide Struct, TagsSplit, FreshSupply;
      rootTags := rootTags[t := bit];
      tagged := tagged[t := S];
    }

    /** The descent of `radix_tree_tag_set`: all bits on the path are set, or the path breaks off. */
    method SetPath(index: nat, t: nat, ghost S: set<nat>) returns (slot: Word, broken: bool)
      requires t < MAX_TAGS && Shr(index, height) == 0 && Tagging(t, height, S + {index}, S)
      modifies this`nodes
      ensures broken ==> index !in items && height > 0
      ensures !broken ==> Tagging(t, 0, S + {index}, S) && slot == WordAt(link, (0, index)) && (height > 0 ==> slot != 0)
      ensures height == 0 ==> nodes == old(nodes)
    {
      hide Skeleton, Present, TagOk, TagsSplit, Below, FreshSupply, TagInv;
      RootSlot(Value());
      LinkFacts(Value());
      slot := rnode - rnode % 2;
      broken := false;
      var h: nat := height;
      while h > 0
        invariant h <= height && Tagging(t, h, S + {index}, S) && slot == WordAt(link, (h, Shr(index, h)))
        invariant h < height ==> slot != 0
        invariant height == 0 ==> nodes == old(nodes)
      {
        if slot == 0 {
          LinkFacts(Value());
          PathBroken(Value(), index, h);
          return 0, true;
        }
        slot := SetBit(index, h, t, slot, Shr(index, h - 1) % 64, S);
        h := h - 1;
        if slot == 0 {
          LinkFacts(Value());
          PathBroken(Value(), index, h);
          return 0, true;
        }
      }
    }

    /**
     `radix_tree_tag_set`. It stops the kernel exactly when the index is not stored, except in an empty tree of height
     zero, where it does nothing.
     */
    method TagSet(index: nat, t: nat) returns (slot: Word, stopped: bool)
      requires Valid() && t < MAX_TAGS
      modifies this
      ensures stopped <==> index !in old(items) && !(old(height) == 0 && index == 0)
      ensures !stopped ==> Valid() && items == old(items) && slot == if index in items then items[index] else 0
      ensures !stopped ==> tagged == if index in items then old(tagged)[t := old(tagged)[t] + {index}] else old(tagged)
    {
      hide Skeleton, Present, TagOk, TagsSplit, Below, FreshSupply, Minimal;
      ghost var S := tagged[t];
      MaxIndexShift(index, height);
      if index > MaxIndex(height) {
        TooLarge(Value(), index);
        return 0, true;
      }
      PlacedOf(Value());
      TagSplitEnds(nodes, link, pos, height, t, S, S + {index});
      slot, stopped := SetPath(index, t, S);
      if stopped {
        return;
      }
      LeafWord(Value(), index);
      LinkFacts(Value());
      if slot == 0 {
        return;
      }
      PlacedOf(Value());
      TagSplitEnds(nodes, link, pos, height, t, S + {index}, S);
      Settle(t, S + {index}, true);
    }

    /** Entry `j` of a path is the node of level `height - j` above `index`, with the slot taken there. */
    ghost predicate PathOk(index: nat, path: seq<(Word, nat)>)
      reads `height, `link
    {
      PathIn(link, height, index, path)
    }

    /** The descent shared by `radix_tree_tag_clear` and `radix_tree_delete`, recording the path taken. */
    method FindPath(index: nat) returns (slot: Word, path: seq<(Word, nat)>)
      requires Struct(Value()) && Shr(index, height) == 0
      ensures slot == if index in items then items[index] else 0
      ensures slot != 0 ==> PathOk(index, path) && |path| == height
      ensures index in items ==> slot != 0
    {
      hide Skeleton, Present, PathIn;
      RootSlot(Value());
      LinkFacts(Value());
      LeafWord(Value(), index);
      slot := rnode - rnode % 2;
      path := [];
      NoPath(link, height, index);
      var h: nat := height;
      while h > 0
        invariant h <= height && PathOk(index, path) && |path| == height - h
        invariant slot == WordAt(link, (h, Shr(index, h)))
      {
        if slot == 0 {
          PathBroken(Value(), index, h);
          return;
        }
        Descend(Value(), index, h);
        var offset := Shr(index, h - 1) % 64;
        PathLonger(link, height, index, path, (slot, offset));
        path := path + [(slot, offset)];
        slot := nodes[slot].slots[offset];
        h := h - 1;
      }
    }

    /** `radix_tree_tag_clear`: drop tag `t` from `index`, whether or not it is stored. */
    method TagClear(index: nat, t: nat) returns (slot: Word)
      requires Inv() && t < MAX_TAGS
      modifies this`nodes, this`rootTags, this`tagged
      ensures Inv()
      ensures slot == if index in items then items[index] else 0
      ensures tagged == old(tagged)[t := old(tagged)[t] - {index}]
    {
      hide Skeleton, Present, TagOk, TagsSplit, Below, Fits;
      ghost var S, S' := tagged[t], tagged[t] - {index};
      MaxIndexShift(index, height);
      if index > MaxIndex(height) {
        TooLarge(Value(), index);
        assert S' == S;
        return 0;
      }
      var path;
      slot, path := FindPath(index);
      if slot == 0 {
        assert S' == S;
        return;
      }
      Unwind(index, t, path);
    }

    /** One round of the unwinding in `radix_tree_tag_clear`, at level `L + 1`; false ends it. */
    method ClearBit(ghost index: nat, ghost L: nat, t: nat, node: Word, offset: nat, ghost S: set<nat>)
      returns (more: bool)
      requires t < MAX_TAGS && (L + 1, Shr(index, L + 1)) in link && node == link[(L + 1, Shr(index, L + 1))]
      requires offset == Shr(index, L) % 64
      requires Tagging(t, L, S, S - {index}) && !Below(S - {index}, L, Shr(index, L))
      modifies this`nodes
      ensures more ==> Tagging(t, L + 1, S, S - {index}) && !Below(S - {index}, L + 1, Shr(index, L + 1))
      ensures !more ==> Tagging(t, 0, S - {index}, S - {index}) && (S == {} <==> S - {index} == {})
    {
      hide Skeleton, Present, TagOk, TagsSplit, Below, TagInv, FreshSupply;
      ghost var S' := S - {index};
      Descend(Value(), index, L + 1);
      PathTag(Value(), L + 1, index, t, L, S, S');
      BitMeaning(nodes[node], L + 1, index, t, S);
      if offset !in nodes[node].tags[t] {
        assert S' == S;
        SplitSame(nodes, pos, t, L, S);
        return false;
      }
      TagOkClear(nodes[node], L + 1, t, S, index);
      WriteTags(index, L + 1, t, node, nodes[node].tags[t] - {offset}, S, S', false);
      PathTag(Value(), L + 1, index, t, L + 1, S, S');
      BitMeaning(nodes[node], L + 1, index, t, S');
      if nodes[node].tags[t] != {} {
        TagsSettle(Value(), t, S, index, L + 1);
        BelowNonempty(S', L + 1, Shr(index, L + 1));
        return false;
      }
      return true;
    }

    /** The unwinding loop of `radix_tree_tag_clear`. */
    method Unwind(index: nat, t: nat, path0: seq<(Word, nat)>)
      requires Inv() && t < MAX_TAGS && index in items
      requires PathOk(index, path0) && |path0| == height
      modifies this`nodes, this`rootTags, this`tagged
      ensures Inv() && tagged == old(tagged)[t := old(tagged)[t] - {index}]
    {
      hide Skeleton, Present, TagOk, TagsSplit, Below, Fits, FreshSupply;
      ghost var S, S' := tagged[t], tagged[t] - {index};
      var path := path0;
      PlacedOf(Value());
      TagSplitEnds(nodes, link, pos, height, t, S, S');
      NothingElse(S, index);
      while path != []
        invariant PathOk(index, path) && tagged == old(tagged) && rootTags == old(rootTags)
        invariant Tagging(t, height - |path|, S, S')
        invariant !Below(S', height - |path|, Shr(index, height - |path|))
        decreases |path|
      {
        var (node, offset) := path[|path| - 1];
        var more := ClearBit(index, height - |path|, t, node, offset, S);
        if !more {
          Settle(t, S', rootTags[t]);
          return;
        }
        path := path[..|path| - 1];
      }
      PathComplete(Value(), index, height);
      LastTagged(Value(), S', index);
      PlacedOf(Value());
      TagSplitEnds(nodes, link, pos, height, t, S', S);
      Settle(t, S', false);
    }

    /** `radix_tree_shrink`: drop root nodes with a single child in slot 0. */
    method Shrink()
      requires Inv() && items != map[]
      modifies this`nodes, this`rnode, this`height, this`link, this`pos
      ensures Valid()
    {
      hide Skeleton, Present, TagInv, Below, Minimal;
      while height > 0
        invariant Inv()
        decreases height
      {
        RootCases(Value());
        RootSlots(Value());
        var to_free := rnode - 1;
        if nodes[to_free].count != 1 || nodes[to_free].slots[0] == 0 {
          ShrinkStops(Value());
          return;
        }
        ghost var s := Value();
        ShrunkStruct(s);
        ShrunkTags(s, 0, rootTags[0], tagged[0]);
        ShrunkTags(s, 1, rootTags[1], tagged[1]);
        var newptr := nodes[to_free].slots[0];
        rnode := if height > 1 then newptr + 1 else newptr;
        link, pos := link - {(height, 0)}, pos - {to_free};
        height := height - 1;
        nodes := nodes - {to_free};
        assert Value() == Shrunk(s);
      }
      MinimalZero(items.Keys);
    }

    /** The path of `index` is erased below level `L`; the node there, if any, is empty and about to be freed. */
    ghost predicate Erasing(index: nat, L: nat, to_free: Word)
      reads this
    {
      && FreshSupply() && |rootTags| == MAX_TAGS && |tagged| == MAX_TAGS
      && TagInv(Value(), 0, rootTags[0], tagged[0]) && TagInv(Value(), 1, rootTags[1], tagged[1])
      && index !in tagged[0] && index !in tagged[1]
      && (L == 0 ==> Struct(Value()) && index in items && to_free == 0)
      && (L > 0 ==> Shrinking(Value(), index, L) && !Below(items.Keys, L, Shr(index, L)))
      && (L > 0 ==> (L, Shr(index, L)) in link && to_free == link[(L, Shr(index, L))])
    }

    /** Clear the slot for level `L` in its parent, and free the node that was there. */
    method DropSlot(ghost index: nat, ghost L: nat, node: Word, offset: nat, to_free: Word)
      requires Erasing(index, L, to_free) && L < height
      requires (L + 1, Shr(index, L + 1)) in link && node == link[(L + 1, Shr(index, L + 1))]
      requires offset == Shr(index, L) % 64
      modifies this`nodes, this`link, this`pos, this`items
      ensures Shrinking(Value(), index, L + 1) && FreshSupply()
      ensures TagInv(Value(), 0, rootTags[0], tagged[0]) && TagInv(Value(), 1, rootTags[1], tagged[1])
      ensures items == old(items) - {index}
      ensures link == old(link) - {(L, Shr(index, L))}
    {
      hide Skeleton, Present, PresentFrom, TagInv, Below;
      ghost var s := Value();
      ghost var k: Pos := (L, Shr(index, L));
      if L == 0 {
        EraseItem(s, index);
      } else {
        EraseNode(s, index, L);
      }
      LinkFacts(s);
      ParentCounts(s, k);
      UnlinkedTags(s, k, 0, rootTags[0], tagged[0]);
      UnlinkedTags(s, k, 1, rootTags[1], tagged[1]);
      nodes := nodes[node := SetSlot(nodes[node], offset, 0, nodes[node].count - 1)];
      if to_free != 0 {
        nodes := nodes - {to_free};
        pos := pos - {to_free};
      } else {
        items := items - {index};
      }
      link := link - {k};
      assert Value() == Unlinked(s, k);
    }

    /** Pruning stops at a node that keeps other children; only a root is worth shrinking. */
    method StopPruning(ghost index: nat, ghost L: nat, node: Word, ghost K: set<nat>)
      requires FreshSupply() && Shrinking(Value(), index, L) && 1 <= L <= height
      requires |rootTags| == MAX_TAGS && |tagged| == MAX_TAGS
      requires TagInv(Value(), 0, rootTags[0], tagged[0]) && TagInv(Value(), 1, rootTags[1], tagged[1])
      requires (L, Shr(index, L)) in link && node == link[(L, Shr(index, L))]
      requires Below(items.Keys, L, Shr(index, L))
      requires Minimal(K, height) && items.Keys == K - {index}
      modifies this`nodes, this`rnode, this`height, this`link, this`pos
      ensures Valid()
    {
      hide Skeleton, Present, PresentFrom, TagInv, Below, FreshSupply, Minimal;
      EraseDone(Value(), index, L);
      BelowNonempty(items.Keys, L, Shr(index, L));
      RootCases(Value());
      if node == rnode - rnode % 2 {
        Shrink();
      } else {
        MinimalAfter(K, items.Keys, index, L, height);
      }
    }

    /** The last node on the path was the root: the tree is empty. */
    method ClearRoot(ghost index: nat, to_free: Word)
      requires Erasing(index, height, to_free) && height > 0
      modifies this
      ensures Valid() && items == old(items) && tagged == old(tagged)
    {
      hide Skeleton, Present, PresentFrom, TagsSplit, Below;
      ghost var s := Value();
      EraseRoot(s, index);
      EmptiedTags(s, 0, rootTags[0], tagged[0]);
      EmptiedTags(s, 1, rootTags[1], tagged[1]);
      rootTags := [false, false];
      link, pos := link - {(height, 0)}, pos - {to_free};
      height := 0;
      rnode := 0;
      nodes := nodes - {to_free};
      assert Value() == Emptied(s);
    }

    /** The pruning loop of `radix_tree_delete`. */
    method Prune(index: nat, path0: seq<(Word, nat)>)
      requires Valid() && index in items && index !in tagged[0] && index !in tagged[1]
      requires PathOk(index, path0) && |path0| == height && height > 0
      modifies this
      ensures Valid() && items == old(items) - {index} && tagged == old(tagged)
    {
      hide Skeleton, Present, PresentFrom, TagInv, Below, FreshSupply, Minimal;
      var path, to_free := path0, 0;
      while path != []
        invariant PathOk(index, path) && Erasing(index, height - |path|, to_free)
        invariant height == old(height) && tagged == old(tagged)
        invariant items == if |path| == height then old(items) else old(items) - {index}
        decreases |path|
      {
        var (node, offset) := path[|path| - 1];
        ghost var L, link0 := height - |path| + 1, link;
        DropSlot(index, L - 1, node, offset, to_free);
        EmptyOnPath(Value(), index, L);
        if nodes[node].count != 0 {
          StopPruning(index, L, node, old(items.Keys));
          return;
        }
        to_free := node;
        PathShorter(link0, height, index, path);
        path := path[..|path| - 1];
      }
      ClearRoot(index, to_free);
    }

    /** The branch of `radix_tree_delete` for a tree of height 0. */
    method DeleteRootItem()
      requires Valid() && height == 0
      modifies this
      ensures Valid() && items == map[] && old(items) - {0} == map[] && tagged == [{}, {}]
      ensures old(tagged)[0] - {0} == {} && old(tagged)[1] - {0} == {}
    {
      hide Skeleton, Present, TagOk;
      EraseOnly(Value());
      assert items.Keys <= {0} by {
        RootCases(Value());
      }
      rootTags := [false, false];
      rnode := 0;
      link, items, tagged := link - {(0, 0)}, map[], [{}, {}];
      EraseOnlyTags(Value());
    }

    /** `radix_tree_delete`: remove one binding, with its tags, and return the item or NULL. */
    method Delete(index: nat) returns (slot: Word)
      requires Valid()
      modifies this
      ensures Valid()
      ensures slot == if index in old(items) then old(items)[index] else 0
      ensures items == old(items) - {index}
      ensures tagged == [old(tagged)[0] - {index}, old(tagged)[1] - {index}]
    {
      hide Skeleton, Present, TagsSplit, Below, FreshSupply, Minimal;
      MaxIndexShift(index, height);
      if index > MaxIndex(height) {
        TooLarge(Value(), index);
        assert tagged[0] - {index} == tagged[0] && tagged[1] - {index} == tagged[1];
        return 0;
      }
      RootCases(Value());
      slot := rnode;
      if height == 0 {
        assert Shr(index, 0) == index;
        DeleteRootItem();
        return;
      }
      var path;
      slot, path := FindPath(index);
      if slot == 0 {
        assert tagged[0] - {index} == tagged[0] && tagged[1] - {index} == tagged[1];
        return;
      }
      var (leaf, offset) := path[|path| - 1];
      for t := 0 to MAX_TAGS
        invariant Inv() && Minimal(items.Keys, height) && height == old(height) && items == old(items) && link == old(link)
        invariant PathOk(index, path)
        invariant tagged[0] == if t > 0 then old(tagged)[0] - {index} else old(tagged)[0]
        invariant tagged[1] == if t > 1 then old(tagged)[1] - {index} else old(tagged)[1]
      {
        Descend(Value(), index, 1);
        LeafBit(Value(), index, t, rootTags[t], tagged[t]);
        if offset in nodes[leaf].tags[t] {
          var _ := TagClear(index, t);
        }
      }
      Prune(index, path);
    }

    /** The indices a scan looks for: all of them, or those that carry the tag. */
    ghost function Wanted(tag: int): set<nat>
      requires tag < MAX_TAGS && |tagged| == MAX_TAGS
      reads `items, `tagged
    {
      if tag < 0 then items.Keys else tagged[tag]
    }

    /** The callbacks made for the indices `xs`, in order, each with its item. */
    ghost predicate Reported(found: seq<(nat, Word)>, xs: seq<nat>)
      reads `items
    {
      && |found| == |xs|
      && forall j: nat :: j < |xs| ==> xs[j] in items && found[j] == (xs[j], items[xs[j]])
    }

    /** What a scan tests at slot `i` of a node. */
    method TestSlot(ghost idx: nat, ghost h: nat, slot: Word, i: nat, tag: int) returns (r: bool)
      requires Inv() && tag < MAX_TAGS && h >= 1
      requires (h, Shr(idx, h)) in link && slot == link[(h, Shr(idx, h))] && i == Shr(idx, h - 1) % 64
      ensures r <==> Below(Wanted(tag), h - 1, Shr(idx, h - 1))
      ensures slot in nodes && |nodes[slot].slots| == MAP_SIZE
      ensures nodes[slot].slots[i] == WordAt(link, (h - 1, Shr(idx, h - 1)))
      ensures r ==> (h - 1, Shr(idx, h - 1)) in link
    {
      hide Skeleton, Below, TagOk, TagsSplit;
      Descend(Value(), idx, h);
      if tag < 0 {
        r := nodes[slot].slots[i] != 0;
        SlotMeaning(Value(), idx, h);
      } else {
        r := i in nodes[slot].tags[tag];
        PathTag(Value(), h, idx, tag, 0, tagged[tag], tagged[tag]);
        BitTest(nodes[slot], h, idx, tag, tagged[tag]);
        BelowMono(tagged[tag], items.Keys, h - 1, Shr(idx, h - 1));
      }
    }

    /** The inner loop of the batch scan: the first slot of a node, from `idx0` on, worth descending into. */
    method NextSlot(idx0: nat, h: nat, slot: Word, tag: int, ghost from: nat) returns (idx: nat, i: nat, done: bool)
      requires Inv() && tag < MAX_TAGS && h >= 1
      requires (h, Shr(idx0, h)) in link && slot == link[(h, Shr(idx0, h))]
      requires from <= idx0 && Listing(Wanted(tag), from, idx0) == []
      ensures idx0 <= idx && Listing(Wanted(tag), from, idx) == []
      ensures done ==> idx0 < idx && idx % 64 == 0
      ensures !done ==> i < MAP_SIZE && i == Shr(idx, h - 1) % 64 && Shr(idx, h) == Shr(idx0, h)
      ensures !done ==> slot in nodes && |nodes[slot].slots| == MAP_SIZE
      ensures !done ==> (h - 1, Shr(idx, h - 1)) in link
      ensures !done ==> nodes[slot].slots[i] == link[(h - 1, Shr(idx, h - 1))]
    {
      hide Skeleton, Present, TagInv, Below, Listing, FreshSupply;
      idx, done := idx0, false;
      i := Shr(idx, h - 1) % 64;
      while true
        invariant i < MAP_SIZE && i == Shr(idx, h - 1) % 64 && Shr(idx, h) == Shr(idx0, h)
        invariant idx0 <= idx && Listing(Wanted(tag), from, idx) == []
        decreases MAP_SIZE - i
      {
        var hit := TestSlot(idx, h, slot, i, tag);
        if hit {
          return;
        }
        SkipBlock(Wanted(tag), from, idx, h - 1);
        NextBlockFacts(idx, h - 1);
        if i == MAP_SIZE - 1 {
          assert Shr(idx, h - 1) == 64 * Shr(idx0, h) + 63;
        }
        idx := NextBlock(idx, h - 1);
        i := i + 1;
        if i == MAP_SIZE {
          done := true;
          EndAligned(Shr(idx0, h), h);
          return;
        }
      }
    }

    /** The bottom level of the batch scan: grab the items of one leaf node. */
    method GrabItems(idx0: nat, slot: Word, limit: nat, tag: int) returns (found: seq<(nat, Word)>, next: nat)
      requires Inv() && tag < MAX_TAGS && height >= 1
      requires (1, Shr(idx0, 1)) in link && slot == link[(1, Shr(idx0, 1))]
      ensures idx0 < next && Reported(found, Listing(Wanted(tag), idx0, next))
      ensures |found| < limit ==> next == NextBlock(idx0, 1)
      ensures limit > 0 ==> |found| <= limit
    {
      hide Skeleton, Present, TagInv, Below, FreshSupply;
      found, next := [], idx0;
      var i := idx0 % 64;
      while i < MAP_SIZE
        invariant i <= MAP_SIZE && idx0 <= next && next == Shr(idx0, 1) * 64 + i
        invariant i == idx0 % 64 ==> next == idx0
        invariant Reported(found, Listing(Wanted(tag), idx0, next))
        invariant limit > 0 ==> |found| < limit
        decreases MAP_SIZE - i
      {
        assert Shr(next, 1) == Shr(idx0, 1);
        var hit := TestSlot(next, 1, slot, i, tag);
        LeafWord(Value(), next);
        BelowLevelZero(Wanted(tag), next);
        ListingStep(Wanted(tag), idx0, next);
        if hit {
          found := found + [(next, nodes[slot].slots[i])];
          next := next + 1;
          if |found| == limit {
            return;
          }
        } else {
          next := next + 1;
        }
        i := i + 1;
      }
    }

    /** `radix_tree_lookup_batch_elements`: descend to one leaf and report from it. */
    method LookupBatch(node: Word, index: nat, limit: nat, tag: int) returns (found: seq<(nat, Word)>, next: nat)
      requires Inv() && tag < MAX_TAGS && height >= 1 && Shr(index, height) == 0
      requires (height, 0) in link && node == link[(height, 0)]
      ensures index < next && Reported(found, Listing(Wanted(tag), index, next))
      ensures limit > 0 ==> |found| <= limit
      ensures |found| < limit ==> next % 64 == 0
    {
      hide Skeleton, Present, TagInv, Below, Listing, FreshSupply;
      found, next := [], index;
      var slot := node;
      var h: nat := height;
      ghost var S := Wanted(tag);
      EmptyListing(S, index);
      while h > if tag >= 0 then 0 else 1
        invariant 1 <= h <= height && index <= next && Listing(S, index, next) == []
        invariant (h, Shr(next, h)) in link && slot == link[(h, Shr(next, h))]
      {
        var i, done;
        next, i, done := NextSlot(next, h, slot, tag, index);
        if done {
          return;
        }
        if tag >= 0 && h == 1 {
          break;
        }
        slot := nodes[slot].slots[i];
        h := h - 1;
      }
      ghost var start := next;
      found, next := GrabItems(next, slot, limit, tag);
      EndAligned(Shr(start, 1), 1);
      ListingConcat(S, index, start, next);
    }

    /**
     `radix_tree_general_gang_lookup_elements`: report the wanted items from `first` on, in increasing order.
     A limited scan stops after one batch: unless it reports all there is, it reports everything up to some leaf's end,
     or as much as it may.
     */
    method GangLookup(first: nat, limit: nat, tag: int) returns (found: seq<(nat, Word)>, ghost end: nat)
      requires Inv() && tag < MAX_TAGS
      ensures Reported(found, Listing(Wanted(tag), first, end))
      ensures limit == UNLIMITED ==> Reported(found, Listing(Wanted(tag), first, INDEX_LIMIT))
      ensures limit > 0 ==> || Reported(found, Listing(Wanted(tag), first, INDEX_LIMIT))
                            || (first < end && (|found| == limit || end % 64 == 0))
      ensures limit > 0 ==> |found| <= limit
    {
      hide Skeleton, Present, TagsSplit, Below, Listing, FreshSupply;
      ghost var S := Wanted(tag);
      RootCases(Value());
      AllBelowLimit(Value());
      found, end := [], first;
      EmptyListing(S, first);
      if (tag >= 0 && !rootTags[tag]) || rnode == 0 {
        ListingEmpty(S, first, INDEX_LIMIT);
        return;
      }
      if rnode % 2 == 0 {
        end := INDEX_LIMIT;
        if first > 0 {
          ListingEmpty(S, first, INDEX_LIMIT);
          return;
        }
        found := [(0, rnode)];
        OnlyZero(S);
        return;
      }
      var node := rnode - 1;
      var maxIndex := MaxIndex(height);
      var cur := first;
      while |found| < limit && cur <= maxIndex
        invariant Reported(found, Listing(S, first, cur)) && first <= cur && end == cur
        invariant limit != UNLIMITED ==> found == [] && cur == first
        invariant limit > 0 ==> |found| <= limit
        decreases maxIndex - cur
      {
        MaxIndexShift(cur, height);
        var batch, next := LookupBatch(node, cur, limit - |found|, tag);
        ListingConcat(S, first, cur, next);
        found, cur, end := found + batch, next, next;
        if limit != UNLIMITED {
          return;
        }
      }
      if limit > 0 && limit != UNLIMITED {
        ListingEmpty(S, first, INDEX_LIMIT);
      }
      if limit == UNLIMITED {
        ListingEnd(S, first, INDEX_LIMIT + cur, INDEX_LIMIT, INDEX_LIMIT);
        if cur <= maxIndex {
          ListingConcat(S, first, cur, INDEX_LIMIT);
        } else {
          ListingEnd(S, first, cur, INDEX_LIMIT, maxIndex + 1);
        }
      }
    }

    /**
     What every node of a well-formed tree says: its count is the number of its non-null slots, a slot is non-null iff
     an item lies below it, and a tag bit is set iff an item below that slot carries the tag.
     */
    lemma NodeMeaning(a: Word, i: nat)
      requires Inv() && a in nodes && i < MAP_SIZE
      ensures a in pos && pos[a].0 >= 1 && |nodes[a].slots| == MAP_SIZE && |nodes[a].tags| == MAX_TAGS
      ensures nodes[a].count == NonNull(nodes[a].slots) > 0
      ensures nodes[a].slots[i] != 0 <==> Below(items.Keys, pos[a].0 - 1, Kid(pos[a].1, i))
      ensures forall t: nat :: t < MAX_TAGS ==> (i in nodes[a].tags[t] <==> Below(tagged[t], pos[a].0 - 1, Kid(pos[a].1, i)))
      ensures forall t: nat :: t < MAX_TAGS ==> (rootTags[t] <==> tagged[t] != {})
    {
      hide Struct, TagInv, Below, NonNull, Kid;
      NodeCounts(Value(), a, i);
      NodeTags(Value(), a, i, 0, rootTags[0], tagged[0]);
      NodeTags(Value(), a, i, 1, rootTags[1], tagged[1]);
    }

    /** Any single request acts on the tree, and is answered, as on a map and two sets. */
    method Serve(req: Request) returns (reply: Reply)
      requires Valid() && Sensible(req)
      modifies this
      ensures |old(tagged)| == MAX_TAGS && reply == Answer(Model(old(items), old(tagged)), req)
      ensures !reply.Stopped? ==>
                Valid() && |tagged| == MAX_TAGS && Model(items, tagged) == Effect(Model(old(items), old(tagged)), req)
    {
      hide Struct, TagInv, Minimal, FreshSupply, Listing;
      match req {
        case Put(index, item) =>
          var r := Insert(index, item);
          reply := Code(r);
        case Take(index) =>
          var item := Delete(index);
          reply := Slot(item);
        case Mark(index, t) =>
          reply := Mark(index, t);
        case Unmark(index, t) =>
          reply := Unmark(index, t);
        case Get(index) =>
          var item := Lookup(index);
          reply := Slot(item);
        case Has(index, t) =>
          var b := TagGet(index, t);
          reply := Bit(b);
        case Scan(first, tag) =>
          reply := Scan(first, tag);
      }
    }

    method Mark(index: nat, t: nat) returns (reply: Reply)
      requires Valid() && t < MAX_TAGS
      modifies this
      ensures reply == Answer(Model(old(items), old(tagged)), Request.Mark(index, t))
      ensures !reply.Stopped? ==>
                Valid() && Model(items, tagged) == Effect(Model(old(items), old(tagged)), Request.Mark(index, t))
    {
      hide Struct, TagInv, FreshSupply;
      EmptyIsLow(Value());
      var slot, stopped := TagSet(index, t);
      reply := if stopped then Stopped else Slot(slot);
    }

    method Unmark(index: nat, t: nat) returns (reply: Reply)
      requires Valid() && t < MAX_TAGS
      modifies this`nodes, this`rootTags, this`tagged
      ensures Valid() && tagged == old(tagged)[t := old(tagged)[t] - {index}]
      ensures reply == Slot(if index in items then items[index] else 0)
    {
      var slot := TagClear(index, t);
      reply := Slot(slot);
    }

    method Scan(first: nat, tag: int) returns (reply: Reply)
      requires Valid() && tag < MAX_TAGS
      ensures |tagged| == MAX_TAGS && reply == Answer(Model(items, tagged), Request.Scan(first, tag))
    {
      hide Struct, TagInv, Minimal, FreshSupply, Listing;
      var found, _ := GangLookup(first, UNLIMITED, tag);
      assert found == Reports(items, Listing(Wanted(tag), first, INDEX_LIMIT));
      reply := Found(found);
    }

    /** A whole run of requests, up to the first that stops the kernel, refines the same run on a map and two sets. */
    method Run(reqs: seq<Request>) returns (replies: seq<Reply>)
      requires Valid() && forall i :: 0 <= i < |reqs| ==> Sensible(reqs[i])
      modifies this
      ensures |replies| <= |reqs|
      ensures forall k :: 0 <= k < |replies| ==> replies[k] == Answer(Effects(Model(old(items), old(tagged)), reqs[..k]), reqs[k])
      ensures forall k :: 0 <= k < |replies| - 1 ==> !replies[k].Stopped?
      ensures replies == [] || !replies[|replies| - 1].Stopped? ==>
                Valid() && |replies| == |reqs| && Model(items, tagged) == Effects(Model(old(items), old(tagged)), reqs)
    {
      hide Inv, Minimal, Effect, Sensible, Answer;
      replies := [];
      assert reqs[..0] == [];
      while |replies| < |reqs|
        invariant |replies| <= |reqs| && Valid()
        invariant Model(items, tagged) == Effects(Model(old(items), old(tagged)), reqs[..|replies|])
        invariant forall k :: 0 <= k < |replies| ==>
                    replies[k] == Answer(Effects(Model(old(items), old(tagged)), reqs[..k]), reqs[k]) && !replies[k].Stopped?
      {
        var k := |replies|;
        assert reqs[..k + 1][..k] == reqs[..k];
        var reply := Serve(reqs[k]);
        replies := replies + [reply];
        if reply.Stopped? {
          return;
        }
      }
      assert reqs[..|replies|] == reqs;
    }
  }

  /** A path entry is the node of level `h` above `index`, with the slot taken there. */
  ghost predicate OnPath(link: map<Pos, Word>, index: nat, h: nat, e: (Word, nat))
  {
    h >= 1 && (h, Shr(index, h)) in link && e.0 == link[(h, Shr(index, h))] && e.1 == Shr(index, h - 1) % 64
  }

  ghost predicate PathIn(link: map<Pos, Word>, height: nat, index: nat, path: seq<(Word, nat)>)
  {
    |path| <= height && forall j: nat :: j < |path| ==> OnPath(link, index, height - j, path[j])
  }

  /** Unlinking what hangs below a path leaves the path above its last node. */
  lemma PathShorter(link: map<Pos, Word>, height: nat, index: nat, path: seq<(Word, nat)>)
    requires PathIn(link, height, index, path) && path != []
    ensures var L := height - |path|; PathIn(link - {(L, Shr(index, L))}, height, index, path[..|path| - 1])
  {
    hide Shr;
    var L, shorter := height - |path|, path[..|path| - 1];
    forall j: nat | j < |shorter|
      ensures OnPath(link - {(L, Shr(index, L))}, index, height - j, shorter[j])
    {
      assert OnPath(link, index, height - j, path[j]);
    }
  }

  lemma NoPath(link: map<Pos, Word>, height: nat, index: nat)
    ensures PathIn(link, height, index, [])
  {
  }

  lemma PathLonger(link: map<Pos, Word>, height: nat, index: nat, path: seq<(Word, nat)>, e: (Word, nat))
    requires PathIn(link, height, index, path) && |path| < height && OnPath(link, index, height - |path|, e)
    ensures PathIn(link, height, index, path + [e])
  {
    hide OnPath;
  }

  /** What the page cache asks of its index. */
  datatype Request =
    | Put(index: nat, item: Word)
    | Take(index: nat)
    | Mark(index: nat, t: nat)
    | Unmark(index: nat, t: nat)
    | Get(index: nat)
    | Has(index: nat, t: nat)
    | Scan(first: nat, tag: int)

  datatype Reply = Code(r: int) | Slot(item: Word) | Bit(b: bool) | Found(items: seq<(nat, Word)>) | Stopped

  /** The abstract value: a map, and the set of indices that carry each tag. */
  datatype Model = Model(items: map<nat, Word>, tagged: seq<set<nat>>)

  ghost predicate Sensible(req: Request)
  {
    match req
    case Put(index, item) => GoodWord(item) && index < INDEX_LIMIT
    case Mark(_, t) => t < MAX_TAGS
    case Unmark(_, t) => t < MAX_TAGS
    case Has(_, t) => t < MAX_TAGS
    case Scan(_, tag) => tag < MAX_TAGS
    case _ => true
  }

  ghost function Effect(m: Model, req: Request): Model
  {
    if |m.tagged| != MAX_TAGS || !Sensible(req) then m
    else match req
      case Put(index, item) => if index in m.items then m else m.(items := m.items[index := item])
      case Take(index) => Model(m.items - {index}, [m.tagged[0] - {index}, m.tagged[1] - {index}])
      case Mark(index, t) => if index in m.items then m.(tagged := m.tagged[t := m.tagged[t] + {index}]) else m
      case Unmark(index, t) => m.(tagged := m.tagged[t := m.tagged[t] - {index}])
      case _ => m
  }

  /** The item at an index, or NULL. */
  function ItemAt(items: map<nat, Word>, index: nat): Word
  {
    if index in items then items[index] else 0
  }

  ghost function Reports(items: map<nat, Word>, xs: seq<nat>): seq<(nat, Word)>
  {
    seq(|xs|, j requires 0 <= j < |xs| => (xs[j], ItemAt(items, xs[j])))
  }

  /** What the request returns. A mark of an absent index stops the kernel, but for index 0 of an empty tree. */
  ghost function Answer(m: Model, req: Request): Reply
  {
    if |m.tagged| != MAX_TAGS || !Sensible(req) then Stopped
    else match req
      case Put(index, _) => Code(if index in m.items then -1 else 0)
      case Take(index) => Slot(ItemAt(m.items, index))
      case Mark(index, _) => if index in m.items || (m.items == map[] && index == 0) then Slot(ItemAt(m.items, index)) else Stopped
      case Unmark(index, _) => Slot(ItemAt(m.items, index))
      case Get(index) => Slot(ItemAt(m.items, index))
      case Has(index, t) => Bit(index in m.tagged[t])
      case Scan(first, tag) =>
        Found(Reports(m.items, Listing(if tag < 0 then m.items.Keys else m.tagged[tag], first, INDEX_LIMIT)))
  }

  ghost function Effects(m: Model, reqs: seq<Request>): Model
  {
    if reqs == [] then m else Effect(Effects(m, reqs[..|reqs| - 1]), reqs[|reqs| - 1])
  }

  /** In a tree of least height, height zero without item 0 means empty. */
  lemma EmptyIsLow(s: State)
    requires Struct(s) && Minimal(s.items.Keys, s.height)
    ensures 0 !in s.items ==> (s.height == 0 <==> s.items == map[])
  {
    hide Struct;
    RootCases(s);
  }

  lemma {:induction false} EndAligned(q: nat, h: nat)
    requires h >= 1
    ensures Shl(q + 1, h) % 64 == 0 && Shl(q + 1, h) == Shl(64 * q + 64, h - 1)
    decreases h
  {
    if h > 1 {
      EndAligned(64 * q + 63, h - 1);
    }
  }
}
