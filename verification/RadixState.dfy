/**
 The value of a radix tree and the steps its operations take, one slot or one tag bit at a time.
 */
module RadixState {
  import opened RadixIndex
  import opened RadixStore

  /** `radix_tree_maxindex` shifts a 32-bit one, so heights stay at or below 5. */
  const MAX_HEIGHT := 5

  /** Indices a tree can hold: 30 bits. */
  const INDEX_LIMIT := Shl(1, MAX_HEIGHT)

  function MaxIndex(h: nat): int
  {
    Shl(1, h) - 1
  }

  lemma MaxIndexShift(x: nat, h: nat)
    ensures x > MaxIndex(h) <==> Shr(x, h) > 0
  {
    ShiftAdjoint(x, 1, h);
  }

  /** The items are the words linked at level 0. */
  ghost predicate ItemsOk(link: map<Pos, Word>, items: map<nat, Word>)
  {
    forall x: nat :: ((0, x) in link <==> x in items) && (x in items ==> link[(0, x)] == items[x])
  }

  /** Every stored index fits the height. */
  ghost predicate Fits(K: set<nat>, H: nat)
  {
    forall x :: x in K ==> Shr(x, H) == 0
  }

  /** The height is the least that fits the largest index. */
  ghost predicate Minimal(K: set<nat>, H: nat)
  {
    H > 0 ==> exists x :: x in K && Shr(x, H - 1) > 0
  }

  lemma BelowLevelZero(S: set<nat>, x: nat)
    ensures Below(S, 0, x) <==> x in S
  {
    if x in S {
      assert Shr(x, 0) == x;
    }
  }

  lemma BelowRoot(S: set<nat>, H: nat, q: nat)
    requires Fits(S, H)
    ensures Below(S, H, q) <==> q == 0 && S != {}
  {
    if q == 0 && S != {} {
      var x :| x in S;
      assert Shr(x, H) == 0;
    }
  }

  lemma ItemsOkNode(link: map<Pos, Word>, items: map<nat, Word>, k: Pos, a: Word)
    requires ItemsOk(link, items) && k.0 >= 1
    ensures ItemsOk(link[k := a], items) && ItemsOk(link - {k}, items)
  {
  }

  /** A root node pushed above a tree of height `H`. */
  function NewRoot(H: nat, old_root: Word, rootTags: seq<bool>): Node
    requires |rootTags| == MAX_TAGS
  {
    Node(H + 1, 1, EmptyNode(H + 1).slots[0 := old_root],
         [if rootTags[0] then {0} else {}, if rootTags[1] then {0} else {}])
  }

  lemma NewRootOk(link: map<Pos, Word>, K: set<nat>, H: nat, rootTags: seq<bool>, a: Word)
    requires Present(link, K, H) && Fits(K, H) && K != {} && |rootTags| == MAX_TAGS
    requires (H, 0) in link && link[(H, 0)] != 0
    ensures NodeOk(NewRoot(H, link[(H, 0)], rootTags), link[(H + 1, 0) := a], (H + 1, 0))
  {
    NonNullZero(EmptyNode(H + 1).slots);
    NonNullUpdate(EmptyNode(H + 1).slots, 0, link[(H, 0)]);
    var k: Pos := (H + 1, 0);
    forall i: nat | i < MAP_SIZE && i != 0
      ensures WordAt(link, KidPos(k, i)) == 0
    {
      BelowRoot(K, H, i);
    }
  }

  lemma NewRootTags(S: set<nat>, H: nat, old_root: Word, rootTags: seq<bool>, t: nat)
    requires Fits(S, H) && |rootTags| == MAX_TAGS && t < MAX_TAGS
    requires rootTags[t] <==> S != {}
    ensures TagOk(NewRoot(H, old_root, rootTags), (H + 1, 0), t, S)
  {
    forall i: nat
      ensures Below(S, H, i) <==> i == 0 && S != {}
    {
      BelowRoot(S, H, i);
    }
  }

  lemma PresentGrows(link: map<Pos, Word>, K: set<nat>, H: nat, a: Word)
    requires Present(link, K, H) && Fits(K, H) && K != {}
    ensures Present(link[(H + 1, 0) := a], K, H + 1) && Fits(K, H + 1)
  {
    assert Fits(K, H + 1);
    forall k: Pos | k.0 == H + 1
      ensures Below(K, k.0, k.1) <==> k.1 == 0
    {
      BelowRoot(K, H + 1, k.1);
    }
  }

  /** The value of a tree: root, node store, ghost layout and abstract map. */
  datatype State = State(height: nat, rnode: Word, nodes: map<Word, Node>,
                         link: map<Pos, Word>, pos: map<Word, Pos>, items: map<nat, Word>)

  /** Nodes, slots, counts and the root word fit the layout. */
  ghost predicate Skeleton(s: State)
  {
    && s.height <= MAX_HEIGHT
    && Placed(s.link, s.pos, s.height)
    && NodesOk(s.nodes, s.link, s.pos)
    && s.nodes.Keys == s.pos.Keys
    && ItemsOk(s.link, s.items)
    && RootOk(s.height, s.rnode, s.link)
    && Fits(s.items.Keys, s.height)
  }

  /** A well-formed tree: moreover, exactly the positions above some item are linked. */
  ghost predicate Struct(s: State)
  {
    Skeleton(s) && Present(s.link, s.items.Keys, s.height)
  }

  /** Tag `t` is kept for `S` in every node and summarised at the root. */
  ghost predicate TagInv(s: State, t: nat, rootTag: bool, S: set<nat>)
  {
    S <= s.items.Keys && (rootTag <==> S != {}) && TagsSplit(s.nodes, s.pos, t, 0, S, S)
  }

  lemma LinkFacts(s: State)
    requires Skeleton(s)
    ensures forall k: Pos :: k in s.link ==> k.0 <= s.height && GoodWord(s.link[k])
    ensures forall k: Pos :: k in s.link && k.0 >= 1 ==> s.link[k] in s.nodes && s.pos[s.link[k]] == k
  {
    hide NodesOk, ItemsOk, Present;
  }

  /** What the root word of a well-formed tree can be. */
  lemma RootCases(s: State)
    requires Struct(s)
    ensures s.rnode == 0 <==> s.items == map[]
    ensures s.rnode % 2 == 1 <==> s.height > 0 && s.items != map[]
    ensures s.height == 0 ==> s.rnode == if 0 in s.items then s.items[0] else 0
    ensures s.height == 0 ==> forall x :: x in s.items ==> x == 0
    ensures s.height > 0 && s.items != map[] ==> (s.height, 0) in s.link && s.link[(s.height, 0)] == s.rnode - 1
  {
    hide NodesOk, ItemsOk;
    LeafWord(s, 0);
    BelowRoot(s.items.Keys, s.height, 0);
    BelowLevelZero(s.items.Keys, 0);
    assert s.items != map[] ==> s.items.Keys != {};
  }

  /** Stripping the low bit of the root word gives the word at the top position. */
  lemma RootSlot(s: State)
    requires Skeleton(s)
    ensures s.rnode - s.rnode % 2 == WordAt(s.link, (s.height, 0))
  {
    hide NodesOk, ItemsOk, Fits;
  }

  /** Following the slot for `index` one level down. */
  lemma Descend(s: State, index: nat, h: nat)
    requires Skeleton(s) && 1 <= h && (h, Shr(index, h)) in s.link
    ensures var a := s.link[(h, Shr(index, h))];
            && h <= s.height && a in s.nodes && s.nodes[a].height == h && |s.nodes[a].slots| == MAP_SIZE
            && |s.nodes[a].tags| == MAX_TAGS
            && s.nodes[a].slots[Shr(index, h - 1) % 64] == WordAt(s.link, (h - 1, Shr(index, h - 1)))
            && ((h - 1, Shr(index, h - 1)) in s.link ==> s.link[(h - 1, Shr(index, h - 1))] != 0)
  {
    hide ItemsOk, Fits;
    KidParent((h, Shr(index, h)), Shr(index, h - 1) % 64, (h - 1, Shr(index, h - 1)));
  }

  /** A break in the path means the index is absent. */
  lemma PathBroken(s: State, index: nat, h: nat)
    requires Struct(s) && h <= s.height && (h, Shr(index, h)) !in s.link
    ensures index !in s.items
  {
    if index in s.items {
      assert Below(s.items.Keys, h, Shr(index, h));
    }
  }

  lemma PlacedOf(s: State)
    requires Skeleton(s)
    ensures Placed(s.link, s.pos, s.height) && s.nodes.Keys == s.pos.Keys
  {
  }

  /** The whole path of a stored index is linked. */
  lemma PathComplete(s: State, index: nat, h: nat)
    requires Struct(s) && index in s.items && h <= s.height
    ensures (h, Shr(index, h)) in s.link && Shr(index, s.height) == 0
  {
    hide Placed, NodesOk, ItemsOk;
    assert Below(s.items.Keys, h, Shr(index, h));
  }

  lemma LeafWord(s: State, index: nat)
    requires Skeleton(s)
    ensures (0, index) in s.link <==> index in s.items
    ensures index in s.items ==> s.link[(0, index)] == s.items[index]
  {
    hide Present, Placed, NodesOk;
  }

  lemma TooLarge(s: State, index: nat)
    requires Struct(s) && Shr(index, s.height) > 0
    ensures index !in s.items
  {
  }

  ghost function Pushed(s: State, rootTags: seq<bool>, a: Word): State
    requires |rootTags| == MAX_TAGS
  {
    var k := (s.height + 1, 0);
    State(s.height + 1, a + 1, s.nodes[a := NewRoot(s.height, s.rnode - s.rnode % 2, rootTags)],
          s.link[k := a], s.pos[a := k], s.items)
  }

  /** A new root above the old one changes nothing below. */
  lemma PushedStruct(s: State, rootTags: seq<bool>, a: Word)
    requires Struct(s) && s.rnode != 0 && s.height < MAX_HEIGHT && |rootTags| == MAX_TAGS
    requires a !in s.nodes && GoodWord(a)
    ensures Struct(Pushed(s, rootTags, a))
  {
    hide NodesOk, NodeOk, Placed, Present, ItemsOk, Fits;
    RootCases(s);
    LinkFacts(s);
    var k: Pos := (s.height + 1, 0);
    PlacedTaller(s.link, s.pos, s.height);
    RelinkRoot(s.nodes, s.link, s.link[k := a], s.pos, s.height, k);
    NewRootOk(s.link, s.items.Keys, s.height, rootTags, a);
    NodesOkAdd(s.nodes, s.link[k := a], s.pos, a, NewRoot(s.height, s.rnode - s.rnode % 2, rootTags), k);
    PlacedAddNode(s.link, s.pos, s.height + 1, k, a);
    PresentGrows(s.link, s.items.Keys, s.height, a);
    ItemsOkNode(s.link, s.items, k, a);
  }

  lemma PushedTags(s: State, rootTags: seq<bool>, a: Word, t: nat, S: set<nat>)
    requires Struct(s) && |rootTags| == MAX_TAGS && t < MAX_TAGS && TagInv(s, t, rootTags[t], S)
    requires a !in s.nodes
    ensures TagInv(Pushed(s, rootTags, a), t, rootTags[t], S)
  {
    hide NodeOk, Present, Below;
    NewRootTags(S, s.height, s.rnode - s.rnode % 2, rootTags, t);
  }

  lemma TallerEmpty(s: State, h: nat)
    requires Struct(s) && s.rnode == 0 && h <= MAX_HEIGHT
    ensures Struct(s.(height := h))
  {
    RootCases(s);
    assert s.items.Keys == {};
  }

  // ---- linking and unlinking one position ----

  /** The store after the slot for `k` in its parent is rewritten; the root has no parent. */
  ghost function Relink(s: State, k: Pos, v: Word): map<Word, Node>
    requires Skeleton(s) && (k.0 < s.height ==> ParentPos(k) in s.link)
  {
    if k.0 >= s.height then s.nodes
    else
      var b := s.link[ParentPos(k)];
      assert NodeOk(s.nodes[b], s.link, ParentPos(k));
      var n := s.nodes[b];
      s.nodes[b := SetSlot(n, k.1 % 64, v, if v != 0 then n.count + 1 else if n.count > 0 then n.count - 1 else 0)]
  }

  ghost function RootWord(s: State, k: Pos, v: Word): Word
  {
    if k.0 < s.height then s.rnode else if s.height == 0 || v == 0 then v else v + 1
  }

  /** An item, or a fresh empty node, put at position `k`. */
  ghost function Linked(s: State, k: Pos, v: Word): State
    requires Skeleton(s) && (k.0 < s.height ==> ParentPos(k) in s.link)
  {
    var nodes := Relink(s, k, v);
    if k.0 == 0 then State(s.height, RootWord(s, k, v), nodes, s.link[k := v], s.pos, s.items[k.1 := v])
    else State(s.height, RootWord(s, k, v), nodes[v := EmptyNode(k.0)], s.link[k := v], s.pos[v := k], s.items)
  }

  /** The word at position `k` removed, and its node freed. */
  ghost function Unlinked(s: State, k: Pos): State
    requires Skeleton(s) && (k.0 < s.height ==> ParentPos(k) in s.link) && k in s.link
  {
    var nodes := Relink(s, k, 0);
    if k.0 == 0 then State(s.height, RootWord(s, k, 0), nodes, s.link - {k}, s.pos, s.items - {k.1})
    else
      State(s.height, RootWord(s, k, 0), nodes - {s.link[k]}, s.link - {k}, s.pos - {s.link[k]}, s.items)
  }

  lemma UpdatesCommute(m: map<Word, Node>, a: Word, x: Node, b: Word, y: Node)
    requires a != b
    ensures m[a := x][b := y] == m[b := y][a := x]
  {
  }

  /** The parent of a linked position counts it. */
  lemma ParentCounts(s: State, k: Pos)
    requires Skeleton(s) && k.0 < s.height && ParentPos(k) in s.link
    ensures var b := s.link[ParentPos(k)];
            && b in s.nodes && b in s.pos && s.pos[b] == ParentPos(k) && NodeOk(s.nodes[b], s.link, ParentPos(k))
            && |s.nodes[b].slots| == MAP_SIZE
            && (k in s.link ==> s.nodes[b].count > 0)
  {
    hide ItemsOk, Fits;
    var n := s.nodes[s.link[ParentPos(k)]];
    KidParent(ParentPos(k), k.1 % 64, k);
    NonNullZero(n.slots);
  }

  lemma RelinkedNodes(s: State, k: Pos, link': map<Pos, Word>)
    requires Skeleton(s) && (k.0 < s.height ==> ParentPos(k) in s.link)
    requires link' - {k} == s.link - {k}
    requires k in s.link <==> k !in link'
    requires k in link' ==> link'[k] != 0
    ensures NodesOk(Relink(s, k, WordAt(link', k)), link', s.pos)
  {
    hide Placed, NodesOk, NodeOk, ItemsOk, Fits;
    LinkFacts(s);
    if k.0 >= s.height {
      RelinkRoot(s.nodes, s.link, link', s.pos, s.height, k);
    } else {
      ParentCounts(s, k);
      var b := s.link[ParentPos(k)];
      var n := s.nodes[b];
      var count := if k in link' then n.count + 1 else n.count - 1;
      NodeUpdate(n, s.link, link', k, count);
      RelinkNodes(s.nodes, s.link, link', s.pos, s.height, k, b, SetSlot(n, k.1 % 64, WordAt(link', k), count));
    }
  }

  /** Position `k` can be linked: it is free, its parent is there and no child is. */
  ghost predicate Linkable(s: State, k: Pos, v: Word)
  {
    && Skeleton(s) && k !in s.link && k.0 <= s.height && Shr(k.1, s.height - k.0) == 0
    && (k.0 < s.height ==> ParentPos(k) in s.link)
    && GoodWord(v)
    && (k.0 >= 1 ==> v !in s.nodes && forall i: nat :: i < MAP_SIZE ==> KidPos(k, i) !in s.link)
  }

  lemma ItemsOkAdd(link: map<Pos, Word>, items: map<nat, Word>, x: nat, v: Word)
    requires ItemsOk(link, items)
    ensures ItemsOk(link[(0, x) := v], items[x := v])
  {
  }

  lemma ItemsOkDrop(link: map<Pos, Word>, items: map<nat, Word>, x: nat)
    requires ItemsOk(link, items)
    ensures ItemsOk(link - {(0, x)}, items - {x})
  {
  }

  lemma PlacedAddItem(link: map<Pos, Word>, pos: map<Word, Pos>, H: nat, x: nat, v: Word)
    requires Placed(link, pos, H) && GoodWord(v)
    ensures Placed(link[(0, x) := v], pos, H) && Placed(link - {(0, x)}, pos, H)
  {
  }

  lemma RootOkRelink(s: State, k: Pos, link': map<Pos, Word>)
    requires RootOk(s.height, s.rnode, s.link) && link' - {k} == s.link - {k}
    requires k.0 <= s.height && (k.0 == s.height ==> k.1 == 0)
    requires k in link' ==> link'[k] != 0
    ensures RootOk(s.height, RootWord(s, k, WordAt(link', k)), link')
  {
    var r: Pos := (s.height, 0);
    if k != r {
      assert r in link' <==> r in link' - {k};
      assert r in s.link <==> r in s.link - {k};
      assert r in link' ==> link'[r] == (link' - {k})[r];
    }
  }

  lemma LinkedItem(s: State, x: nat, v: Word)
    requires Linkable(s, (0, x), v)
    ensures Skeleton(Linked(s, (0, x), v))
  {
    hide Placed, NodesOk, NodeOk, ItemsOk;
    var k: Pos := (0, x);
    var link' := s.link[k := v];
    RelinkedNodes(s, k, link');
    RootOkRelink(s, k, link');
    ItemsOkAdd(s.link, s.items, x, v);
    PlacedAddItem(s.link, s.pos, s.height, x, v);
    RelinkKeys(s, k, v);
  }

  lemma RelinkKeys(s: State, k: Pos, v: Word)
    requires Skeleton(s) && (k.0 < s.height ==> ParentPos(k) in s.link)
    ensures Relink(s, k, v).Keys == s.nodes.Keys
  {
    hide ItemsOk, Fits;
  }

  lemma LinkedNode(s: State, k: Pos, a: Word)
    requires Linkable(s, k, a) && k.0 >= 1
    ensures Skeleton(Linked(s, k, a))
  {
    hide Placed, NodesOk, NodeOk, ItemsOk, Fits;
    var link' := s.link[k := a];
    RelinkedNodes(s, k, link');
    RootOkRelink(s, k, link');
    ItemsOkNode(s.link, s.items, k, a);
    PlacedAddNode(s.link, s.pos, s.height, k, a);
    EmptyNodeOk(s.link, k, a);
    NodesOkAdd(Relink(s, k, a), link', s.pos, a, EmptyNode(k.0), k);
    RelinkKeys(s, k, a);
  }

  lemma UnlinkedItem(s: State, x: nat)
    requires Skeleton(s) && (0, x) in s.link && (0 < s.height ==> ParentPos((0, x)) in s.link)
    ensures Skeleton(Unlinked(s, (0, x)))
  {
    hide Placed, NodesOk, NodeOk, ItemsOk;
    var k: Pos := (0, x);
    var link' := s.link - {k};
    LeafWord(s, x);
    LinkFacts(s);
    RelinkedNodes(s, k, link');
    RootOkRelink(s, k, link');
    ItemsOkDrop(s.link, s.items, x);
    PlacedAddItem(s.link, s.pos, s.height, x, 2);
    RelinkKeys(s, k, 0);
  }

  lemma UnlinkedNode(s: State, k: Pos)
    requires Skeleton(s) && k in s.link && k.0 >= 1 && (k.0 == s.height ==> k.1 == 0)
    requires k.0 < s.height ==> ParentPos(k) in s.link
    ensures Skeleton(Unlinked(s, k))
  {
    hide Placed, NodesOk, NodeOk, ItemsOk, Fits;
    var link' := s.link - {k};
    LinkFacts(s);
    RelinkedNodes(s, k, link');
    RootOkRelink(s, k, link');
    ItemsOkNode(s.link, s.items, k, 0);
    PlacedDropNode(s.link, s.pos, s.height, k);
    NodesOkDrop(Relink(s, k, 0), link', s.pos, s.link[k]);
    RelinkKeys(s, k, 0);
  }

  // ---- insertion: the path of `x` is linked from the root down to level `L` ----

  ghost predicate PresentDownTo(link: map<Pos, Word>, K: set<nat>, H: nat, x: nat, L: nat)
  {
    forall k: Pos :: k in link <==> k.0 <= H && (Below(K, k.0, k.1) || (k.0 > L && k.1 == Shr(x, k.0)))
  }

  ghost predicate Growing(s: State, x: nat, L: nat)
  {
    Skeleton(s) && L <= s.height && Shr(x, s.height) == 0
    && PresentDownTo(s.link, s.items.Keys, s.height, x, L)
  }

  lemma GrowStart(s: State, x: nat)
    requires Struct(s) && Shr(x, s.height) == 0
    ensures Growing(s, x, s.height)
  {
    hide Skeleton;
  }

  /** A node already there lets the descent go on. */
  lemma GrowSkip(s: State, x: nat, h: nat)
    requires Growing(s, x, h) && h >= 1 && (h, Shr(x, h)) in s.link
    ensures Growing(s, x, h - 1)
  {
    hide Skeleton;
  }

  lemma ShrSplit(x: nat, h: nat, m: nat)
    requires h <= m
    ensures Shr(Shr(x, h), m - h) == Shr(x, m)
    decreases m
  {
    if h < m {
      ShrSplit(x, h, m - 1);
    }
  }

  lemma NoKids(link: map<Pos, Word>, K: set<nat>, H: nat, x: nat, h: nat)
    requires PresentDownTo(link, K, H, x, h) && h >= 1 && !Below(K, h, Shr(x, h))
    ensures var k: Pos := (h, Shr(x, h)); forall i: nat :: i < MAP_SIZE ==> KidPos(k, i) !in link
  {
    BelowSplits(K, h - 1, Shr(x, h));
    var k: Pos := (h, Shr(x, h));
    forall i: nat | i < MAP_SIZE
      ensures KidPos(k, i) !in link
    {
      assert !Below(K, h - 1, Kid(k.1, i));
    }
  }

  lemma GrowLinkable(s: State, x: nat, h: nat, a: Word)
    requires Growing(s, x, h) && (h, Shr(x, h)) !in s.link && GoodWord(a)
    requires h >= 1 ==> a !in s.nodes
    ensures Linkable(s, (h, Shr(x, h)), a) && x !in s.items && !Below(s.items.Keys, h, Shr(x, h))
  {
    hide Skeleton;
    ShrSplit(x, h, s.height);
    assert x in s.items ==> Below(s.items.Keys, h, Shr(x, h));
    if h >= 1 {
      NoKids(s.link, s.items.Keys, s.height, x, h);
    }
  }

  /** A fresh node extends the path by one level. */
  lemma GrowNode(s: State, x: nat, h: nat, a: Word)
    requires Growing(s, x, h) && h >= 1 && (h, Shr(x, h)) !in s.link && GoodWord(a) && a !in s.nodes
    ensures Linkable(s, (h, Shr(x, h)), a)
    ensures Growing(Linked(s, (h, Shr(x, h)), a), x, h - 1)
  {
    hide Skeleton, Relink, RootWord;
    GrowLinkable(s, x, h, a);
    LinkedNode(s, (h, Shr(x, h)), a);
  }

  /** The item itself completes the insertion. */
  lemma GrowItem(s: State, x: nat, v: Word)
    requires Growing(s, x, 0) && (0, x) !in s.link && GoodWord(v)
    ensures Linkable(s, (0, x), v)
    ensures Struct(Linked(s, (0, x), v)) && Linked(s, (0, x), v).items == s.items[x := v]
  {
    hide Skeleton, Relink, RootWord, Below;
    GrowLinkable(s, x, 0, v);
    LinkedItem(s, x, v);
    var s' := Linked(s, (0, x), v);
    assert s'.items.Keys == s.items.Keys + {x};
    forall k: Pos
      ensures Below(s'.items.Keys, k.0, k.1) <==> Below(s.items.Keys, k.0, k.1) || k.1 == Shr(x, k.0)
    {
      BelowAdd(s.items.Keys, x, k.0, k.1);
    }
  }

  /** Nothing was linked for an index that was there already. */
  lemma GrowTaken(s: State, x: nat)
    requires Growing(s, x, 0) && (0, x) in s.link
    ensures x in s.items && Struct(s)
  {
    LeafWord(s, x);
    hide Skeleton;
    assert forall k: Pos :: k.1 == Shr(x, k.0) ==> Below(s.items.Keys, k.0, k.1);
  }

  // ---- deletion: the path of `x`, already erased below level `L` ----

  ghost predicate PresentFrom(link: map<Pos, Word>, K: set<nat>, H: nat, x: nat, L: nat)
  {
    forall k: Pos :: k in link <==> k.0 <= H && (Below(K, k.0, k.1) || (k.0 >= L && k.1 == Shr(x, k.0)))
  }

  ghost predicate Shrinking(s: State, x: nat, L: nat)
  {
    Skeleton(s) && L <= s.height + 1 && Shr(x, s.height) == 0 && x !in s.items
    && PresentFrom(s.link, s.items.Keys, s.height, x, L)
  }

  lemma BelowRemoveItem(K: set<nat>, x: nat, k: Pos)
    requires x in K
    ensures Below(K, k.0, k.1) <==> Below(K - {x}, k.0, k.1) || k.1 == Shr(x, k.0)
  {
    BelowAdd(K - {x}, x, k.0, k.1);
    assert K - {x} + {x} == K;
  }

  /** Erasing the item starts the deletion. */
  lemma EraseItem(s: State, x: nat)
    requires Struct(s) && x in s.items
    ensures (0, x) in s.link && (0 < s.height ==> ParentPos((0, x)) in s.link)
    ensures Shrinking(Unlinked(s, (0, x)), x, 1) && Unlinked(s, (0, x)).items == s.items - {x}
  {
    hide Placed, NodesOk, ItemsOk, Relink, RootWord, Below;
    LeafWord(s, x);
    BelowRemoveItem(s.items.Keys, x, (1, Shr(x, 1)));
    UnlinkedItem(s, x);
    var s' := Unlinked(s, (0, x));
    assert s'.items.Keys == s.items.Keys - {x};
    forall k: Pos
      ensures Below(s.items.Keys, k.0, k.1) <==> Below(s'.items.Keys, k.0, k.1) || k.1 == Shr(x, k.0)
    {
      BelowRemoveItem(s.items.Keys, x, k);
    }
    forall k: Pos | k.0 == 0
      ensures Below(s'.items.Keys, k.0, k.1) <==> k.1 in s'.items.Keys
    {
      BelowLevelZero(s'.items.Keys, k.1);
    }
  }

  lemma NodeAt(s: State, k: Pos)
    requires Skeleton(s) && k in s.link && k.0 >= 1
    ensures s.link[k] in s.nodes && NodeOk(s.nodes[s.link[k]], s.link, k)
  {
    hide ItemsOk, RootOk, Fits, NodeOk;
    LinkFacts(s);
  }

  lemma LinksNotNull(s: State)
    requires Skeleton(s)
    ensures forall k: Pos :: k in s.link ==> s.link[k] != 0
  {
    hide Skeleton;
    LinkFacts(s);
  }

  /** A node on the path is empty iff nothing else is stored below it. */
  lemma EmptyOnPath(s: State, x: nat, L: nat)
    requires Shrinking(s, x, L) && 1 <= L <= s.height
    ensures (L, Shr(x, L)) in s.link && s.link[(L, Shr(x, L))] in s.nodes
    ensures s.nodes[s.link[(L, Shr(x, L))]].count == 0 <==> !Below(s.items.Keys, L, Shr(x, L))
  {
    hide Skeleton, Below, NodeOk, GoodWord, Kid;
    LinkFacts(s);
    var k: Pos := (L, Shr(x, L));
    NodeAt(s, k);
    forall i: nat | i < MAP_SIZE
      ensures KidPos(k, i) in s.link <==> Below(s.items.Keys, k.0 - 1, Kid(k.1, i))
    {
    }
    LinksNotNull(s);
    CountMeaning(s.nodes[s.link[k]], s.link, s.items.Keys, k);
  }

  /** An empty node is unlinked from its parent. */
  lemma EraseNode(s: State, x: nat, L: nat)
    requires Shrinking(s, x, L) && 1 <= L <= s.height && !Below(s.items.Keys, L, Shr(x, L))
    ensures (L, Shr(x, L)) in s.link && (L < s.height ==> ParentPos((L, Shr(x, L))) in s.link)
    ensures Shrinking(Unlinked(s, (L, Shr(x, L))), x, L + 1)
    ensures Unlinked(s, (L, Shr(x, L))).items == s.items
  {
    hide Skeleton, Relink, RootWord, Below;
    UnlinkedNode(s, (L, Shr(x, L)));
  }

  /** A node that keeps something ends the deletion. */
  lemma EraseDone(s: State, x: nat, L: nat)
    requires Shrinking(s, x, L) && L <= s.height && Below(s.items.Keys, L, Shr(x, L))
    ensures Struct(s)
  {
    hide Skeleton;
    forall k: Pos | k.0 >= L && k.1 == Shr(x, k.0)
      ensures Below(s.items.Keys, k.0, k.1)
    {
      var y :| y in s.items.Keys && Shr(y, L) == Shr(x, L);
      ShrAgreesAbove(y, x, L, k.0);
    }
  }

  // ---- tags of the nodes across link, unlink and shrink ----

  lemma RelinkTags(s: State, k: Pos, v: Word, t: nat, S: set<nat>)
    requires Skeleton(s) && (k.0 < s.height ==> ParentPos(k) in s.link)
    requires TagsSplit(s.nodes, s.pos, t, 0, S, S)
    ensures TagsSplit(Relink(s, k, v), s.pos, t, 0, S, S)
  {
    hide ItemsOk, Fits, NodeOk;
  }

  lemma EmptyNodeTags(k: Pos, t: nat, K: set<nat>, S: set<nat>)
    requires k.0 >= 1 && t < MAX_TAGS && S <= K && !Below(K, k.0, k.1)
    ensures TagOk(EmptyNode(k.0), k, t, S)
  {
    BelowSplits(K, k.0 - 1, k.1);
    forall i: nat | i < MAP_SIZE
      ensures !Below(S, k.0 - 1, Kid(k.1, i))
    {
      assert !Below(K, k.0 - 1, Kid(k.1, i));
    }
  }

  lemma LinkedTags(s: State, k: Pos, v: Word, t: nat, rootTag: bool, S: set<nat>)
    requires Linkable(s, k, v) && TagInv(s, t, rootTag, S) && t < MAX_TAGS
    requires k.0 >= 1 ==> !Below(s.items.Keys, k.0, k.1)
    ensures TagInv(Linked(s, k, v), t, rootTag, S)
  {
    hide Skeleton, TagOk, Below;
    RelinkTags(s, k, v, t, S);
    if k.0 >= 1 {
      EmptyNodeTags(k, t, s.items.Keys, S);
    }
  }

  lemma UnlinkedTags(s: State, k: Pos, t: nat, rootTag: bool, S: set<nat>)
    requires Skeleton(s) && (k.0 < s.height ==> ParentPos(k) in s.link) && k in s.link
    requires TagInv(s, t, rootTag, S) && (k.0 == 0 ==> k.1 !in S)
    ensures TagInv(Unlinked(s, k), t, rootTag, S)
  {
    hide Skeleton, TagOk, Below;
    RelinkTags(s, k, 0, t, S);
  }

  // ---- shrinking the height ----

  ghost function Shrunk(s: State): State
    requires s.height > 0 && (s.height, 0) in s.link && (s.height - 1, 0) in s.link
  {
    var k := (s.height, 0);
    var a := s.link[(s.height - 1, 0)];
    State(s.height - 1, if s.height > 1 then a + 1 else a,
          s.nodes - {s.link[k]}, s.link - {k}, s.pos - {s.link[k]}, s.items)
  }

  /** The root node: its slots tell which top-level blocks hold items. */
  lemma RootSlots(s: State)
    requires Struct(s) && s.height > 0 && s.items != map[]
    ensures (s.height, 0) in s.link && s.link[(s.height, 0)] in s.nodes
    ensures var n := s.nodes[s.link[(s.height, 0)]];
            && |n.slots| == MAP_SIZE && n.count == NonNull(n.slots)
            && n.slots[0] == WordAt(s.link, (s.height - 1, 0))
            && forall i: nat :: i < MAP_SIZE ==> (n.slots[i] != 0 <==> Below(s.items.Keys, s.height - 1, i))
  {
    hide ItemsOk, Fits, Below;
    RootCases(s);
    LinkFacts(s);
    var k: Pos := (s.height, 0);
    assert NodeOk(s.nodes[s.link[k]], s.link, k);
    forall i: nat | i < MAP_SIZE
      ensures KidPos(k, i) == (s.height - 1, i)
    {
    }
  }

  lemma RootFits(K: set<nat>, L: nat, slots: seq<Word>)
    requires Fits(K, L + 1) && |slots| == MAP_SIZE
    requires forall i: nat :: i < MAP_SIZE ==> (slots[i] != 0 <==> Below(K, L, i))
    requires forall i: nat :: 0 < i < MAP_SIZE ==> slots[i] == 0
    ensures Fits(K, L)
  {
    forall x | x in K
      ensures Shr(x, L) == 0
    {
      assert Shr(x, L + 1) == 0;
      assert Below(K, L, Shr(x, L));
    }
  }

  lemma ShrunkPresent(link: map<Pos, Word>, K: set<nat>, H: nat)
    requires Present(link, K, H) && H > 0 && Fits(K, H)
    ensures Present(link - {(H, 0)}, K, H - 1)
  {
    forall k: Pos | k.0 == H && k in link
      ensures k == (H, 0)
    {
      BelowRoot(K, H, k.1);
    }
  }

  lemma ShrunkPlaced(link: map<Pos, Word>, pos: map<Word, Pos>, H: nat)
    requires Placed(link, pos, H) && H > 0
    requires forall k: Pos :: k in link && k.0 == H ==> k == (H, 0)
    requires (H, 0) in link
    ensures Placed(link - {(H, 0)}, pos - {link[(H, 0)]}, H - 1)
  {
    PlacedDropNode(link, pos, H, (H, 0));
  }

  lemma RootOnly(s: State)
    requires Struct(s)
    ensures forall k: Pos :: k in s.link && k.0 == s.height ==> k == (s.height, 0)
  {
    hide Placed, NodesOk, ItemsOk, Below;
    forall k: Pos | k in s.link && k.0 == s.height
      ensures k == (s.height, 0)
    {
      BelowRoot(s.items.Keys, s.height, k.1);
    }
  }

  /** A root with a single child in slot 0 can be dropped. */
  lemma ShrunkStruct(s: State)
    requires Struct(s) && s.height > 0 && s.items != map[] && (s.height, 0) in s.link
    requires var a := s.link[(s.height, 0)]; a in s.nodes && s.nodes[a].count == 1
    requires var n := s.nodes[s.link[(s.height, 0)]]; |n.slots| == MAP_SIZE && n.slots[0] != 0
    ensures (s.height - 1, 0) in s.link && Struct(Shrunk(s))
  {
    hide Placed, NodesOk, NodeOk, Present, ItemsOk, Fits;
    RootSlots(s);
    NonNullOnlyFirst(s.nodes[s.link[(s.height, 0)]].slots);
    RootFits(s.items.Keys, s.height - 1, s.nodes[s.link[(s.height, 0)]].slots);
    ShrunkPresent(s.link, s.items.Keys, s.height);
    RootOnly(s);
    ShrunkPlaced(s.link, s.pos, s.height);
    RelinkRoot(s.nodes, s.link, s.link - {(s.height, 0)}, s.pos, s.height, (s.height, 0));
    NodesOkDrop(s.nodes, s.link - {(s.height, 0)}, s.pos, s.link[(s.height, 0)]);
    ItemsOkNode(s.link, s.items, (s.height, 0), 0);
  }

  lemma ShrunkTags(s: State, t: nat, rootTag: bool, S: set<nat>)
    requires TagInv(s, t, rootTag, S)
    requires s.height > 0 && (s.height, 0) in s.link && (s.height - 1, 0) in s.link
    ensures TagInv(Shrunk(s), t, rootTag, S)
  {
    hide TagOk;
  }

  /** Otherwise some index needs the height. */
  lemma ShrinkStops(s: State)
    requires Struct(s) && s.height > 0 && s.items != map[] && (s.height, 0) in s.link
    requires s.link[(s.height, 0)] in s.nodes
    requires var n := s.nodes[s.link[(s.height, 0)]]; |n.slots| == MAP_SIZE && (n.count != 1 || n.slots[0] == 0)
    ensures Minimal(s.items.Keys, s.height)
  {
    hide Skeleton, Present;
    RootSlots(s);
    var n := s.nodes[s.link[(s.height, 0)]];
    var x :| x in s.items;
    TopBlock(s, x);
    var i: nat;
    if n.slots[0] == 0 {
      i := Shr(x, s.height - 1);
    } else {
      NonNullOnlyFirst(n.slots);
      i :| 0 < i < MAP_SIZE && n.slots[i] != 0;
    }
    assert Below(s.items.Keys, s.height - 1, i);
  }

  lemma TopBlock(s: State, x: nat)
    requires Skeleton(s) && s.height > 0 && x in s.items
    ensures Shr(x, s.height - 1) < MAP_SIZE && Below(s.items.Keys, s.height - 1, Shr(x, s.height - 1))
  {
    hide Placed, NodesOk, ItemsOk;
    assert Shr(x, s.height) == 0;
  }

  /** A sibling that shares a lower block keeps the height needed. */
  lemma MinimalKept(K: set<nat>, x: nat, L: nat, H: nat)
    requires Minimal(K, H) && L < H && Below(K - {x}, L, Shr(x, L))
    ensures Minimal(K - {x}, H)
  {
    var z :| z in K && Shr(z, H - 1) > 0;
    if z == x {
      var y :| y in K - {x} && Shr(y, L) == Shr(x, L);
      ShrAgreesAbove(y, x, L, H - 1);
      assert y in K - {x} && Shr(y, H - 1) > 0;
    } else {
      assert z in K - {x} && Shr(z, H - 1) > 0;
    }
  }

  lemma MinimalGrow(K: set<nat>, x: nat, H: nat)
    requires Minimal(K, H) || (H > 0 && Shr(x, H - 1) > 0)
    ensures Minimal(K + {x}, H)
  {
    if H > 0 {
      var z := x;
      if Shr(x, H - 1) == 0 {
        z :| z in K && Shr(z, H - 1) > 0;
      }
      assert z in K + {x} && Shr(z, H - 1) > 0;
    }
  }

  /** A free slot is never tagged. */
  lemma FreeUntagged(s: State, x: nat, t: nat, rootTag: bool, S: set<nat>)
    requires Skeleton(s) && TagInv(s, t, rootTag, S) && x !in s.items && Shr(x, s.height) == 0 && t < MAX_TAGS
    ensures s.height == 0 ==> !rootTag
    ensures s.height > 0 && (1, Shr(x, 1)) in s.link ==>
              var a := s.link[(1, Shr(x, 1))];
              a in s.nodes && |s.nodes[a].tags| == MAX_TAGS && x % 64 !in s.nodes[a].tags[t]
  {
    hide ItemsOk, RootOk, Below;
    if s.height == 0 {
      BelowRoot(s.items.Keys, 0, 0);
      BelowLevelZero(s.items.Keys, 0);
    } else if (1, Shr(x, 1)) in s.link {
      LinkFacts(s);
      var a := s.link[(1, Shr(x, 1))];
      assert NodeOk(s.nodes[a], s.link, (1, Shr(x, 1))) && TagOk(s.nodes[a], (1, Shr(x, 1)), t, S);
      assert Shr(x, 0) == x && Kid(Shr(x, 1), x % 64) == x;
      BelowLevelZero(S, x);
    }
  }

  // ---- tagging and untagging along a path ----

  ghost function Retagged(s: State, h: nat, x: nat, n: Node): State
    requires (h, Shr(x, h)) in s.link
  {
    s.(nodes := s.nodes[s.link[(h, Shr(x, h))] := n])
  }

  /** A new bitmap for tag `t` in one node leaves the tree and the other tag alone. */
  lemma RetagFrame(s: State, h: nat, x: nat, n: Node, t: nat, t': nat, S: set<nat>)
    requires Struct(s) && 1 <= h && (h, Shr(x, h)) in s.link && t < MAX_TAGS && t' < MAX_TAGS && t != t'
    requires var m := s.nodes[s.link[(h, Shr(x, h))]];
             |m.tags| == |n.tags| && n == m.(tags := n.tags) && n.tags[t'] == m.tags[t']
    requires TagsSplit(s.nodes, s.pos, t', 0, S, S)
    ensures Struct(Retagged(s, h, x, n))
    ensures TagsSplit(Retagged(s, h, x, n).nodes, s.pos, t', 0, S, S)
  {
    hide NodeOk, ItemsOk, Present, Below;
    LinkFacts(s);
    Descend(s, x, h);
    RetagNodes(s.nodes, s.link, s.pos, s.link[(h, Shr(x, h))], n);
  }

  /** The bitmap of tag `t` in the node of level `h` on the path of `x`. */
  lemma PathTag(s: State, h: nat, x: nat, t: nat, L: nat, hi: set<nat>, lo: set<nat>)
    requires Skeleton(s) && 1 <= h && (h, Shr(x, h)) in s.link && TagsSplit(s.nodes, s.pos, t, L, hi, lo)
    ensures s.link[(h, Shr(x, h))] in s.nodes
    ensures TagOk(s.nodes[s.link[(h, Shr(x, h))]], (h, Shr(x, h)), t, if h > L then hi else lo)
  {
    hide NodesOk, ItemsOk, TagOk;
  }

  /** A clear bit on the path means `x` does not carry the tag; an empty bitmap, that nothing below does. */
  lemma BitMeaning(n: Node, h: nat, x: nat, t: nat, S: set<nat>)
    requires h >= 1 && TagOk(n, (h, Shr(x, h)), t, S)
    ensures x in S ==> Shr(x, h - 1) % 64 in n.tags[t]
    ensures n.tags[t] == {} <==> !Below(S, h, Shr(x, h))
    ensures h == 1 ==> (x in S <==> x % 64 in n.tags[t])
  {
    var q := Shr(x, h);
    BelowSplits(S, h - 1, q);
    assert Kid(q, Shr(x, h - 1) % 64) == Shr(x, h - 1);
    if x in S {
      assert Below(S, h - 1, Shr(x, h - 1));
    }
    if h == 1 {
      BelowLevelZero(S, x);
    }
    if Below(S, h, q) {
      var i: nat :| i < 64 && Below(S, h - 1, Kid(q, i));
      assert i in n.tags[t];
    }
    if n.tags[t] != {} {
      var i :| i in n.tags[t];
      assert Below(S, h - 1, Kid(q, i));
    }
  }

  /** Before the descent no node is retagged yet; after it all are. */
  lemma TagSplitEnds(nodes: map<Word, Node>, link: map<Pos, Word>, pos: map<Word, Pos>, H: nat, t: nat,
                     S: set<nat>, S': set<nat>)
    requires Placed(link, pos, H)
    ensures TagsSplit(nodes, pos, t, 0, S, S) <==> TagsSplit(nodes, pos, t, H, S', S)
    ensures TagsSplit(nodes, pos, t, 0, S, S') <==> TagsSplit(nodes, pos, t, 0, S, S)
  {
    hide TagOk;
  }

  lemma TagOkAbove(n: Node, k: Pos, t: nat, S: set<nat>, x: nat, h: nat)
    requires TagOk(n, k, t, S) && k.0 > h && Below(S - {x}, h, Shr(x, h))
    ensures TagOk(n, k, t, S - {x})
  {
    forall i: nat | i < MAP_SIZE
      ensures Below(S - {x}, k.0 - 1, Kid(k.1, i)) <==> Below(S, k.0 - 1, Kid(k.1, i))
    {
      BelowRemoveAbove(S, x, h, k.0 - 1, Kid(k.1, i));
    }
  }

  /** Once a node on the path keeps the tag without `x`, every node above is right already. */
  lemma TagsSettle(s: State, t: nat, S: set<nat>, x: nat, h: nat)
    requires TagsSplit(s.nodes, s.pos, t, h, S, S - {x}) && Below(S - {x}, h, Shr(x, h))
    ensures TagsSplit(s.nodes, s.pos, t, 0, S - {x}, S - {x})
  {
    hide TagOk, Below;
    forall a | a in s.pos && s.pos[a].0 > h
      ensures TagOk(s.nodes[a], s.pos[a], t, S - {x})
    {
      TagOkAbove(s.nodes[a], s.pos[a], t, S, x, h);
    }
    forall a | a in s.pos
      ensures s.pos[a].0 > 0
    {
      TagLevel(s, t, h, S, S - {x}, a);
    }
  }

  lemma TagLevel(s: State, t: nat, h: nat, hi: set<nat>, lo: set<nat>, a: Word)
    requires TagsSplit(s.nodes, s.pos, t, h, hi, lo) && a in s.pos
    ensures s.pos[a].0 > 0
  {
    assert TagOk(s.nodes[a], s.pos[a], t, if s.pos[a].0 > h then hi else lo);
  }

  lemma SplitSame(nodes: map<Word, Node>, pos: map<Word, Pos>, t: nat, L: nat, S: set<nat>)
    requires TagsSplit(nodes, pos, t, L, S, S)
    ensures TagsSplit(nodes, pos, t, 0, S, S)
  {
    hide TagOk;
  }

  lemma NothingElse(S: set<nat>, x: nat)
    ensures !Below(S - {x}, 0, Shr(x, 0))
  {
    BelowLevelZero(S - {x}, x);
  }

  lemma BelowNonempty(S: set<nat>, k: nat, q: nat)
    requires Below(S, k, q)
    ensures S != {}
  {
  }

  lemma LastTagged(s: State, S: set<nat>, x: nat)
    requires Skeleton(s) && S <= s.items.Keys && Shr(x, s.height) == 0 && !Below(S, s.height, Shr(x, s.height))
    ensures S == {}
  {
    hide Placed, NodesOk, ItemsOk, Below;
    BelowRoot(S, s.height, 0);
  }

  lemma MinimalZero(K: set<nat>)
    ensures Minimal(K, 0)
  {
  }

  /** Once the whole path is erased the tree is well formed. */
  lemma ErasePath(s: State, x: nat)
    requires Shrinking(s, x, s.height + 1)
    ensures Struct(s)
  {
    hide Skeleton;
  }

  ghost function Emptied(s: State): State
    requires (s.height, 0) in s.link
  {
    var k := (s.height, 0);
    State(0, 0, s.nodes - {s.link[k]}, s.link - {k}, s.pos - {s.link[k]}, s.items)
  }

  /** Erasing the last node leaves an empty tree of height 0. */
  lemma EraseRoot(s: State, x: nat)
    requires Shrinking(s, x, s.height) && s.height > 0 && !Below(s.items.Keys, s.height, Shr(x, s.height))
    ensures (s.height, 0) in s.link && Struct(Emptied(s)) && s.items == map[]
  {
    hide Skeleton, Below, PresentFrom;
    EraseNode(s, x, s.height);
    var s' := Unlinked(s, (s.height, 0));
    ErasePath(s', x);
    RootCases(s');
    TallerEmpty(s', 0);
    assert s'.(height := 0) == Emptied(s) by {
      RelinkKeys(s, (s.height, 0), 0);
    }
  }

  lemma EmptiedTags(s: State, t: nat, rootTag: bool, S: set<nat>)
    requires TagInv(s, t, rootTag, S) && (s.height, 0) in s.link && s.items == map[]
    ensures S == {} && !rootTag && TagInv(Emptied(s), t, false, {})
  {
    hide TagOk;
    assert S == {};
  }

  lemma MinimalAfter(K: set<nat>, K': set<nat>, x: nat, L: nat, H: nat)
    requires Minimal(K, H) && L < H && Below(K', L, Shr(x, L)) && K' == K - {x}
    ensures Minimal(K', H)
  {
    MinimalKept(K, x, L, H);
  }

  lemma LeafBit(s: State, x: nat, t: nat, rootTag: bool, S: set<nat>)
    requires Skeleton(s) && TagInv(s, t, rootTag, S) && t < MAX_TAGS && (1, Shr(x, 1)) in s.link
    ensures s.link[(1, Shr(x, 1))] in s.nodes && |s.nodes[s.link[(1, Shr(x, 1))]].tags| == MAX_TAGS
    ensures x % 64 in s.nodes[s.link[(1, Shr(x, 1))]].tags[t] <==> x in S
  {
    hide Placed, NodesOk, TagsSplit, ItemsOk, TagOk;
    Descend(s, x, 1);
    PathTag(s, 1, x, t, 0, S, S);
    BitMeaning(s.nodes[s.link[(1, Shr(x, 1))]], 1, x, t, S);
  }

  /** A tree of height 0 holds at most the item at index 0. */
  lemma EraseOnly(s: State)
    requires Struct(s) && s.height == 0
    ensures Struct(State(0, 0, s.nodes, s.link - {(0, 0)}, s.pos, map[]))
    ensures s.items - {0} == map[]
  {
    hide Placed, NodesOk, ItemsOk, Present;
    RootCases(s);
    LeafWord(s, 0);
    if 0 in s.items {
      EraseItem(s, 0);
      ErasePath(Unlinked(s, (0, 0)), 0);
      assert Unlinked(s, (0, 0)) == State(0, 0, s.nodes, s.link - {(0, 0)}, s.pos, s.items - {0});
    } else {
      assert s.link - {(0, 0)} == s.link;
      assert s == State(0, 0, s.nodes, s.link - {(0, 0)}, s.pos, map[]);
    }
  }

  /** At height 0 there is no node to tag. */
  lemma EraseOnlyTags(s: State)
    requires Skeleton(s) && s.height == 0
    ensures TagInv(s, 0, false, {}) && TagInv(s, 1, false, {})
  {
    hide NodesOk, ItemsOk, TagOk;
  }

  // ---- scanning ----

  lemma SlotMeaning(s: State, x: nat, h: nat)
    requires Struct(s) && 1 <= h <= s.height
    ensures WordAt(s.link, (h - 1, Shr(x, h - 1))) != 0 <==> Below(s.items.Keys, h - 1, Shr(x, h - 1))
  {
    hide NodesOk, ItemsOk, Below;
  }

  lemma BitTest(n: Node, h: nat, x: nat, t: nat, S: set<nat>)
    requires h >= 1 && TagOk(n, (h, Shr(x, h)), t, S)
    ensures Shr(x, h - 1) % 64 in n.tags[t] <==> Below(S, h - 1, Shr(x, h - 1))
  {
    assert Kid(Shr(x, h), Shr(x, h - 1) % 64) == Shr(x, h - 1);
  }

  lemma BelowMono(S: set<nat>, K: set<nat>, k: nat, q: nat)
    requires S <= K
    ensures Below(S, k, q) ==> Below(K, k, q)
  {
  }

  /** The first index after the level-`k` block of `x`, as the scan computes it. */
  function NextBlock(x: nat, k: nat): nat
  {
    Shl(Shr(x, k) + 1, k)
  }

  lemma NextBlockFacts(x: nat, k: nat)
    ensures x < NextBlock(x, k) && Shr(NextBlock(x, k), k) == Shr(x, k) + 1
    ensures Shr(x, k) % 64 != 63 ==> Shr(NextBlock(x, k), k + 1) == Shr(x, k + 1)
  {
    BlockRange(x, Shr(x, k), k);
    ShiftAdjoint(NextBlock(x, k), Shr(x, k) + 1, k);
    ShiftAdjoint(NextBlock(x, k), Shr(x, k) + 2, k);
    ShlIncreases(Shr(x, k) + 1, k);
  }

  lemma {:induction false} ShlIncreases(q: nat, k: nat)
    ensures Shl(q, k) < Shl(q + 1, k)
  {
    ShlMono(q, q + 1, k);
  }

  lemma {:induction false} ShlMono(p: nat, q: nat, k: nat)
    requires p < q
    ensures Shl(p, k) < Shl(q, k)
    decreases k
  {
    if k > 0 {
      ShlMono(64 * p, 64 * q, k - 1);
    }
  }

  /** A block without members can be skipped. */
  lemma SkipBlock(S: set<nat>, from: nat, x: nat, k: nat)
    requires from <= x && Listing(S, from, x) == [] && !Below(S, k, Shr(x, k))
    ensures Listing(S, from, NextBlock(x, k)) == []
  {
    NextBlockFacts(x, k);
    forall y | y in S
      ensures !(x <= y < NextBlock(x, k))
    {
      if x <= y < NextBlock(x, k) {
        BlockRange(x, Shr(x, k), k);
        BlockRange(y, Shr(x, k), k);
      }
    }
    ListingEmpty(S, x, NextBlock(x, k));
    ListingConcat(S, from, x, NextBlock(x, k));
  }

  lemma AllBelowLimit(s: State)
    requires Skeleton(s)
    ensures forall x :: x in s.items ==> x <= MaxIndex(s.height) && x < INDEX_LIMIT
    ensures MaxIndex(s.height) < INDEX_LIMIT == 0x4000_0000
  {
    hide Placed, NodesOk, ItemsOk;
    forall x | x in s.items
      ensures x <= MaxIndex(s.height) && x < INDEX_LIMIT
    {
      MaxIndexShift(x, s.height);
      ShrZeroAbove(x, s.height, MAX_HEIGHT);
      MaxIndexShift(x, MAX_HEIGHT);
    }
    assert Shl(1, 5) == Shl(64, 4) == Shl(4096, 3) == Shl(262144, 2) == Shl(16777216, 1) == Shl(1073741824, 0);
    if s.height < MAX_HEIGHT {
      MaxIndexShift(Shl(1, s.height), s.height);
      ShiftAdjoint(Shl(1, s.height), 2, s.height);
      ShlMono(1, 2, s.height);
      ShrZeroAbove(Shl(1, s.height), s.height + 1, MAX_HEIGHT);
      MaxIndexShift(Shl(1, s.height), MAX_HEIGHT);
    }
  }

  lemma ItemNotNull(s: State, index: nat)
    requires Struct(s) && index in s.items
    ensures s.items[index] != 0
  {
    LeafWord(s, index);
    LinkFacts(s);
  }

  lemma NodePlace(s: State, a: Word)
    requires Skeleton(s) && a in s.nodes
    ensures a in s.pos && s.pos[a].0 >= 1 && s.pos[a] in s.link && s.link[s.pos[a]] == a && s.pos[a].0 <= s.height
  {
    hide NodesOk, ItemsOk, RootOk, Fits;
    LinkFacts(s);
  }

  /** Slots and count of a node, in terms of the items. */
  lemma NodeCounts(s: State, a: Word, i: nat)
    requires Struct(s) && a in s.nodes && i < MAP_SIZE
    ensures a in s.pos && s.pos[a].0 >= 1 && |s.nodes[a].slots| == MAP_SIZE && |s.nodes[a].tags| == MAX_TAGS
    ensures s.nodes[a].count == NonNull(s.nodes[a].slots) > 0
    ensures s.nodes[a].slots[i] != 0 <==> Below(s.items.Keys, s.pos[a].0 - 1, Kid(s.pos[a].1, i))
  {
    hide Skeleton, Below, NonNull, Kid;
    NodePlace(s, a);
    var k := s.pos[a];
    NodeAt(s, k);
    LinksNotNull(s);
    forall j: nat | j < MAP_SIZE
      ensures KidPos(k, j) in s.link <==> Below(s.items.Keys, k.0 - 1, Kid(k.1, j))
    {
    }
    CountMeaning(s.nodes[a], s.link, s.items.Keys, k);
  }

  /** A tag bit of a node, and the root's, in terms of the tagged set. */
  lemma NodeTags(s: State, a: Word, i: nat, t: nat, rootTag: bool, S: set<nat>)
    requires Struct(s) && TagInv(s, t, rootTag, S) && a in s.nodes && i < MAP_SIZE
    ensures a in s.pos && s.pos[a].0 >= 1 && t < |s.nodes[a].tags|
    ensures i in s.nodes[a].tags[t] <==> Below(S, s.pos[a].0 - 1, Kid(s.pos[a].1, i))
    ensures rootTag <==> S != {}
  {
    hide Skeleton, Below, Kid;
    NodePlace(s, a);
    assert TagOk(s.nodes[a], s.pos[a], t, S);
  }
}
