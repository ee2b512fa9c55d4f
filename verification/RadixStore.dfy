/**
 The node store of a radix tree and its well-formedness, on values.

 Nodes live at addresses, as the kernel allocates them. The ghost map `link` places every
 node and every item at a position `(level, prefix)`: an item with index `x` sits at
 `(0, x)`, and a node of height `h` covers the indices `x` with `x >> (6 * h) == prefix`.
 Tree shape is a local condition on positions, so an update in place disturbs one parent only.
 */
module RadixStore {
  import opened RadixIndex

  /** A machine word; 0 is NULL. */
  type Word = nat

  type Pos = (nat, nat)

  datatype Node = Node(height: nat, count: nat, slots: seq<Word>, tags: seq<set<nat>>)

  const MAP_SIZE := 64
  const MAX_TAGS := 2

  function EmptyNode(h: nat): Node
  {
    Node(h, 0, seq(MAP_SIZE, _ => 0), [{}, {}])
  }

  /** The word found where position `k` is referenced. */
  ghost function WordAt(link: map<Pos, Word>, k: Pos): Word
  {
    if k in link then link[k] else 0
  }

  ghost function KidPos(k: Pos, i: nat): Pos
    requires k.0 >= 1
  {
    (k.0 - 1, Kid(k.1, i))
  }

  ghost function ParentPos(k: Pos): Pos
  {
    (k.0 + 1, k.1 / 64)
  }

  /** The node at position `k` refers to exactly its children, and counts them. */
  ghost predicate NodeOk(n: Node, link: map<Pos, Word>, k: Pos)
  {
    && k.0 >= 1 && n.height == k.0
    && |n.slots| == MAP_SIZE && |n.tags| == MAX_TAGS
    && n.count == NonNull(n.slots)
    && forall i: nat :: i < MAP_SIZE ==> n.slots[i] == WordAt(link, KidPos(k, i))
  }

  ghost predicate GoodWord(w: Word)
  {
    w != 0 && w % 2 == 0
  }

  /** Node addresses and node positions determine each other; no linked word is NULL or odd. */
  ghost predicate Placed(link: map<Pos, Word>, pos: map<Word, Pos>, H: nat)
  {
    && (forall a :: a in pos ==> pos[a].0 >= 1 && pos[a] in link && link[pos[a]] == a)
    && (forall k: Pos :: k in link ==> k.0 <= H && GoodWord(link[k]))
    && (forall k: Pos :: k in link && k.0 >= 1 ==> link[k] in pos && pos[link[k]] == k)
  }

  ghost predicate NodesOk(nodes: map<Word, Node>, link: map<Pos, Word>, pos: map<Word, Pos>)
  {
    forall a :: a in pos ==> a in nodes && NodeOk(nodes[a], link, pos[a])
  }

  /** A position is linked iff some index of `K` lies below it. */
  ghost predicate Present(link: map<Pos, Word>, K: set<nat>, H: nat)
  {
    forall k: Pos :: k in link <==> k.0 <= H && Below(K, k.0, k.1)
  }

  /** Nodes above level `L` carry tag `t` for `hi`, the others for `lo`. */
  ghost predicate TagsSplit(nodes: map<Word, Node>, pos: map<Word, Pos>, t: nat, L: nat, hi: set<nat>, lo: set<nat>)
  {
    forall a :: a in pos ==> a in nodes && TagOk(nodes[a], pos[a], t, if pos[a].0 > L then hi else lo)
  }

  /** Slot `i` is tagged iff some member of `S` lies below it. */
  ghost predicate TagOk(n: Node, k: Pos, t: nat, S: set<nat>)
  {
    && k.0 >= 1 && t < |n.tags|
    && forall i: nat :: i in n.tags[t] <==> i < MAP_SIZE && Below(S, k.0 - 1, Kid(k.1, i))
  }

  /** The root word: NULL, the item itself at height 0, or a node address with its low bit set. */
  ghost predicate RootOk(H: nat, rnode: Word, link: map<Pos, Word>)
  {
    rnode == if (H, 0) !in link then 0 else if H == 0 then link[(0, 0)] else link[(H, 0)] + 1
  }

  lemma KidParent(j: Pos, i: nat, k: Pos)
    requires j.0 >= 1 && i < MAP_SIZE
    ensures KidPos(j, i) == k <==> j == ParentPos(k) && i == k.1 % 64
  {
  }

  function SetSlot(n: Node, i: nat, v: Word, count: nat): Node
    requires i < |n.slots|
  {
    n.(slots := n.slots[i := v], count := count)
  }

  /** Relinking position `k` leaves every node but its parent as it has to be. */
  lemma NodeFrame(n: Node, link: map<Pos, Word>, link': map<Pos, Word>, j: Pos, k: Pos)
    requires NodeOk(n, link, j) && j != ParentPos(k)
    requires link' - {k} == link - {k}
    ensures NodeOk(n, link', j)
  {
    forall i: nat | i < MAP_SIZE
      ensures n.slots[i] == WordAt(link', KidPos(j, i))
    {
      KidParent(j, i, k);
      assert KidPos(j, i) in link' <==> KidPos(j, i) in link' - {k};
      assert KidPos(j, i) in link <==> KidPos(j, i) in link - {k};
      assert KidPos(j, i) in link' ==> link'[KidPos(j, i)] == (link' - {k})[KidPos(j, i)];
    }
  }

  /** Relinking position `k` is matched by rewriting one slot of its parent. */
  lemma NodeUpdate(n: Node, link: map<Pos, Word>, link': map<Pos, Word>, k: Pos, count: nat)
    requires NodeOk(n, link, ParentPos(k))
    requires link' - {k} == link - {k}
    requires WordAt(link, k) == 0 <==> WordAt(link', k) != 0
    requires count == if WordAt(link', k) != 0 then n.count + 1 else n.count - 1
    ensures NodeOk(SetSlot(n, k.1 % 64, WordAt(link', k), count), link', ParentPos(k))
  {
    var j := ParentPos(k);
    KidParent(j, k.1 % 64, k);
    NonNullUpdate(n.slots, k.1 % 64, WordAt(link', k));
    forall i: nat | i < MAP_SIZE && i != k.1 % 64
      ensures n.slots[i] == WordAt(link', KidPos(j, i))
    {
      KidParent(j, i, k);
      assert KidPos(j, i) in link' <==> KidPos(j, i) in link' - {k};
      assert KidPos(j, i) in link <==> KidPos(j, i) in link - {k};
      assert KidPos(j, i) in link' ==> link'[KidPos(j, i)] == (link' - {k})[KidPos(j, i)];
    }
  }

  /** The rest of the store is untouched when the parent node of `k`, at address `b`, is rewritten. */
  lemma RelinkNodes(nodes: map<Word, Node>, link: map<Pos, Word>, link': map<Pos, Word>, pos: map<Word, Pos>,
                    H: nat, k: Pos, b: Word, n: Node)
    requires Placed(link, pos, H) && NodesOk(nodes, link, pos)
    requires b in pos && pos[b] == ParentPos(k) && NodeOk(n, link', ParentPos(k))
    requires link' - {k} == link - {k}
    ensures NodesOk(nodes[b := n], link', pos)
  {
    forall a | a in pos && a != b
      ensures NodeOk(nodes[a], link', pos[a])
    {
      NodeFrame(nodes[a], link, link', pos[a], k);
    }
  }

  /** At the root there is no parent to rewrite. */
  lemma RelinkRoot(nodes: map<Word, Node>, link: map<Pos, Word>, link': map<Pos, Word>, pos: map<Word, Pos>,
                   H: nat, k: Pos)
    requires Placed(link, pos, H) && NodesOk(nodes, link, pos) && k.0 >= H
    requires link' - {k} == link - {k}
    ensures NodesOk(nodes, link', pos)
  {
    forall a | a in pos
      ensures NodeOk(nodes[a], link', pos[a])
    {
      NodeFrame(nodes[a], link, link', pos[a], k);
    }
  }

  lemma EmptyNodeOk(link: map<Pos, Word>, k: Pos, a: Word)
    requires k.0 >= 1
    requires forall i: nat :: i < MAP_SIZE ==> KidPos(k, i) !in link
    ensures NodeOk(EmptyNode(k.0), link[k := a], k)
  {
    NonNullZero(EmptyNode(k.0).slots);
  }

  lemma PlacedAddNode(link: map<Pos, Word>, pos: map<Word, Pos>, H: nat, k: Pos, a: Word)
    requires Placed(link, pos, H) && k !in link && a !in pos && GoodWord(a) && 1 <= k.0 <= H
    ensures Placed(link[k := a], pos[a := k], H)
  {
  }

  lemma PlacedTaller(link: map<Pos, Word>, pos: map<Word, Pos>, H: nat)
    requires Placed(link, pos, H)
    ensures Placed(link, pos, H + 1)
  {
  }

  lemma NodesOkAdd(nodes: map<Word, Node>, link: map<Pos, Word>, pos: map<Word, Pos>, a: Word, n: Node, k: Pos)
    requires NodesOk(nodes, link, pos) && NodeOk(n, link, k) && a !in pos
    ensures NodesOk(nodes[a := n], link, pos[a := k])
  {
    hide NodeOk;
  }

  lemma NodesOkDrop(nodes: map<Word, Node>, link: map<Pos, Word>, pos: map<Word, Pos>, a: Word)
    requires NodesOk(nodes, link, pos)
    ensures NodesOk(nodes - {a}, link, pos - {a})
  {
    hide NodeOk;
  }

  lemma PlacedDropNode(link: map<Pos, Word>, pos: map<Word, Pos>, H: nat, k: Pos)
    requires Placed(link, pos, H) && k in link && k.0 >= 1
    ensures Placed(link - {k}, pos - {link[k]}, H)
  {
  }

  /** A node's count tells whether anything is stored below its position. */
  lemma CountMeaning(n: Node, link: map<Pos, Word>, K: set<nat>, k: Pos)
    requires NodeOk(n, link, k)
    requires forall j: Pos :: j in link ==> link[j] != 0
    requires forall i: nat :: i < MAP_SIZE ==> (KidPos(k, i) in link <==> Below(K, k.0 - 1, Kid(k.1, i)))
    ensures n.count == 0 <==> !Below(K, k.0, k.1)
  {
    NonNullZero(n.slots);
    BelowSplits(K, k.0 - 1, k.1);
  }

  function SetTag(n: Node, t: nat, i: nat): Node
    requires t < |n.tags|
  {
    n.(tags := n.tags[t := n.tags[t] + {i}])
  }

  function ClearTag(n: Node, t: nat, i: nat): Node
    requires t < |n.tags|
  {
    n.(tags := n.tags[t := n.tags[t] - {i}])
  }

  /** A changed tag bitmap keeps the shape. */
  lemma RetagNodes(nodes: map<Word, Node>, link: map<Pos, Word>, pos: map<Word, Pos>, a: Word, n: Node)
    requires NodesOk(nodes, link, pos) && a in pos
    requires |n.tags| == MAX_TAGS && n == nodes[a].(tags := n.tags)
    ensures NodesOk(nodes[a := n], link, pos)
  {
    assert NodeOk(n, link, pos[a]);
  }

  /** Tagging `x` turns the node on its path from `S` to `S + {x}`. */
  lemma TagOkSet(n: Node, h: nat, t: nat, S: set<nat>, x: nat)
    requires h >= 1 && TagOk(n, (h, Shr(x, h)), t, S)
    ensures TagOk(SetTag(n, t, Shr(x, h - 1) % 64), (h, Shr(x, h)), t, S + {x})
  {
    forall i: nat | i < MAP_SIZE
      ensures Below(S + {x}, h - 1, Kid(Shr(x, h), i)) <==> i in n.tags[t] || i == Shr(x, h - 1) % 64
    {
      BelowAdd(S, x, h - 1, Kid(Shr(x, h), i));
    }
  }

  /** Untagging `x` turns the node on its path from `S` to `S - {x}`, once nothing else lies below the slot. */
  lemma TagOkClear(n: Node, h: nat, t: nat, S: set<nat>, x: nat)
    requires h >= 1 && TagOk(n, (h, Shr(x, h)), t, S)
    requires !Below(S - {x}, h - 1, Shr(x, h - 1))
    ensures TagOk(ClearTag(n, t, Shr(x, h - 1) % 64), (h, Shr(x, h)), t, S - {x})
  {
    forall i: nat | i < MAP_SIZE
      ensures Below(S - {x}, h - 1, Kid(Shr(x, h), i)) <==> i in n.tags[t] && i != Shr(x, h - 1) % 64
    {
      if i != Shr(x, h - 1) % 64 {
        BelowRemoveOffPath(S, x, h - 1, Kid(Shr(x, h), i));
      }
    }
  }

  /** Off the path of `x`, a node is tagged alike for two sets that differ in `x` only. */
  lemma TagOkOffPath(n: Node, k: Pos, t: nat, S: set<nat>, S': set<nat>, x: nat)
    requires TagOk(n, k, t, S) && k.1 != Shr(x, k.0)
    requires S - {x} == S' - {x}
    ensures TagOk(n, k, t, S')
  {
    forall i: nat | i < MAP_SIZE
      ensures Below(S', k.0 - 1, Kid(k.1, i)) <==> Below(S, k.0 - 1, Kid(k.1, i))
    {
      BelowRemoveOffPath(S, x, k.0 - 1, Kid(k.1, i));
      BelowRemoveOffPath(S', x, k.0 - 1, Kid(k.1, i));
    }
  }

  /** One level of a tag update along the path of `x`: level `h` turns from `S` to `S'`. */
  lemma TagStep(nodes: map<Word, Node>, link: map<Pos, Word>, pos: map<Word, Pos>, H: nat, t: nat,
                S: set<nat>, S': set<nat>, x: nat, h: nat, n: Node, downward: bool)
    requires Placed(link, pos, H) && 1 <= h && (h, Shr(x, h)) in link
    requires S - {x} == S' - {x}
    requires if downward then TagsSplit(nodes, pos, t, h, S', S) else TagsSplit(nodes, pos, t, h - 1, S, S')
    requires TagOk(n, (h, Shr(x, h)), t, S')
    ensures var nodes' := nodes[link[(h, Shr(x, h))] := n];
            if downward then TagsSplit(nodes', pos, t, h - 1, S', S) else TagsSplit(nodes', pos, t, h, S, S')
  {
    forall a | a in pos && pos[a].0 == h && a != link[(h, Shr(x, h))]
      ensures TagOk(nodes[a], pos[a], t, S')
    {
      TagOkOffPath(nodes[a], pos[a], t, S, S', x);
    }
  }
}
