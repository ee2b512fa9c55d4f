/**
 The family tree of processes (src/proc/pcb_life.c): a parent points to its first child, and the children of one
 parent form a circular doubly linked list through their own list nodes (include/lib/list.h), without a list head.
 */
module SiblingRing {
  import opened Common

  type Pid = nat

  ghost function Succ(s: seq<Pid>, i: nat): Pid
    requires i < |s|
  {
    if i + 1 < |s| then s[i + 1] else s[0]
  }

  ghost function Pred(s: seq<Pid>, i: nat): Pid
    requires i < |s|
  {
    if i > 0 then s[i - 1] else s[|s| - 1]
  }

  /** The list nodes of `s` form one ring, in this order. */
  ghost predicate Links(s: seq<Pid>, next: map<Pid, Pid>, prev: map<Pid, Pid>)
  {
    forall i :: 0 <= i < |s| ==> s[i] in next && s[i] in prev && next[s[i]] == Succ(s, i) && prev[s[i]] == Pred(s, i)
  }

  /** `list_add_tail` before the first child puts the new child last. */
  lemma AppendLinks(s: seq<Pid>, next: map<Pid, Pid>, prev: map<Pid, Pid>, c: Pid)
    requires Links(s, next, prev) && Distinct(s) && s != [] && c !in s
    ensures s[0] in prev && prev[s[0]] == s[|s| - 1]
    ensures Links(s + [c], next[c := s[0]][s[|s| - 1] := c], prev[s[0] := c][c := s[|s| - 1]]) && Distinct(s + [c])
  {
  }

  lemma RemovedNeighbours(s: seq<Pid>, i: nat, j: nat)
    requires Distinct(s) && i < |s| && j < |s| - 1
    ensures var k := Origin(i, j);
            && Removed(s, i)[j] == s[k] && s[k] != s[i]
            && Succ(Removed(s, i), j) == (if Pred(s, i) == s[k] then Succ(s, i) else Succ(s, k))
            && Pred(Removed(s, i), j) == (if Succ(s, i) == s[k] then Pred(s, i) else Pred(s, k))
  {
  }

  /** `list_del_reinit` closes the ring over the removed child. */
  lemma RemoveLinks(s: seq<Pid>, next: map<Pid, Pid>, prev: map<Pid, Pid>, i: nat)
    requires Links(s, next, prev) && Distinct(s) && i < |s| && |s| >= 2
    ensures var x := s[i];
            && x in next && x in prev
            && Links(Removed(s, i), next[prev[x] := next[x]][x := x], prev[next[x] := prev[x]][x := x])
  {
    hide Succ, Pred;
    var x, r := s[i], Removed(s, i);
    var next', prev' := next[prev[x] := next[x]][x := x], prev[next[x] := prev[x]][x := x];
    forall j: nat | j < |r|
      ensures r[j] in next' && r[j] in prev' && next'[r[j]] == Succ(r, j) && prev'[r[j]] == Pred(r, j)
    {
      RemovedNeighbours(s, i, j);
    }
  }

  lemma OtherLinks(s: seq<Pid>, next: map<Pid, Pid>, prev: map<Pid, Pid>, next': map<Pid, Pid>, prev': map<Pid, Pid>)
    requires Links(s, next, prev)
    requires forall x :: x in s && x in next && x in prev ==> x in next' && x in prev' && next'[x] == next[x] && prev'[x] == prev[x]
    ensures Links(s, next', prev')
  {
  }

  ghost function Index(s: seq<Pid>, c: Pid): (i: nat)
    requires c in s
    ensures i < |s| && s[i] == c
  {
    if s[0] == c then 0 else 1 + Index(s[1..], c)
  }

  /** The first pointer and the ring of every parent are those of its list of children. */
  ghost predicate Rings(first: map<Pid, Option<Pid>>, kids: map<Pid, seq<Pid>>, next: map<Pid, Pid>, prev: map<Pid, Pid>)
  {
    forall p :: p in kids ==>
      && p in first && first[p] == (if kids[p] == [] then None else Some(kids[p][0]))
      && Links(kids[p], next, prev) && Distinct(kids[p])
  }

  /** Every process is in the list of its owner and in no other. */
  ghost predicate Owned(kids: map<Pid, seq<Pid>>, owner: map<Pid, Option<Pid>>)
  {
    && (forall p, x :: p in kids && x in kids[p] ==> x in owner && owner[x] == Some(p))
    && (forall x :: x in owner && owner[x].Some? ==> owner[x].value in kids && x in kids[owner[x].value])
  }

  /** A process in no list has a list node that points to itself. */
  ghost predicate Loose(owner: map<Pid, Option<Pid>>, next: map<Pid, Pid>, prev: map<Pid, Pid>)
  {
    forall x :: x in owner ==> x in next && x in prev && (owner[x] == None ==> next[x] == x && prev[x] == x)
  }

  lemma Apart(kids: map<Pid, seq<Pid>>, owner: map<Pid, Option<Pid>>, p: Pid, q: Pid)
    requires Owned(kids, owner) && p in kids && q in kids && p != q
    ensures forall x :: x in kids[q] ==> x !in kids[p] && x in owner && owner[x] == Some(q)
  {
    forall x | x in kids[q]
      ensures x !in kids[p] && x in owner && owner[x] == Some(q)
    {
      assert x in owner && owner[x] == Some(q);
    }
  }

  lemma RingsAppend(first: map<Pid, Option<Pid>>, kids: map<Pid, seq<Pid>>, owner: map<Pid, Option<Pid>>,
                    next: map<Pid, Pid>, prev: map<Pid, Pid>, p: Pid, c: Pid)
    requires Rings(first, kids, next, prev) && Owned(kids, owner) && p in kids && c in owner && owner[c] == None && kids[p] != []
    ensures var s := kids[p];
            && s[0] in prev && prev[s[0]] == s[|s| - 1]
            && Rings(first, kids[p := s + [c]], next[c := s[0]][s[|s| - 1] := c], prev[s[0] := c][c := s[|s| - 1]])
  {
    hide Links, Distinct;
    var s := kids[p];
    AppendLinks(s, next, prev, c);
    assert s[0] in kids[p] && s[|s| - 1] in kids[p];
    var next', prev' := next[c := s[0]][s[|s| - 1] := c], prev[s[0] := c][c := s[|s| - 1]];
    forall q | q in kids && q != p
      ensures Links(kids[q], next', prev')
    {
      Apart(kids, owner, p, q);
      OtherLinks(kids[q], next, prev, next', prev');
    }
  }

  lemma RingsFirst(first: map<Pid, Option<Pid>>, kids: map<Pid, seq<Pid>>, owner: map<Pid, Option<Pid>>,
                   next: map<Pid, Pid>, prev: map<Pid, Pid>, p: Pid, c: Pid)
    requires Rings(first, kids, next, prev) && Loose(owner, next, prev) && p in kids && c in owner && owner[c] == None && kids[p] == []
    ensures Rings(first[p := Some(c)], kids[p := [c]], next, prev)
  {
  }

  lemma RingsRemove(first: map<Pid, Option<Pid>>, kids: map<Pid, seq<Pid>>, owner: map<Pid, Option<Pid>>,
                    next: map<Pid, Pid>, prev: map<Pid, Pid>, p: Pid, i: nat)
    requires Rings(first, kids, next, prev) && Owned(kids, owner) && p in kids && |kids[p]| >= 2 && i < |kids[p]|
    ensures var s := kids[p]; var x := s[i];
            && x in next && x in prev
            && next[x] == Succ(s, i) && prev[x] in s && next[x] in s
            && Rings(first[p := Some(if i == 0 then s[1] else s[0])], kids[p := Removed(s, i)],
                     next[prev[x] := next[x]][x := x], prev[next[x] := prev[x]][x := x])
  {
    hide Links, Distinct;
    var s := kids[p];
    var x := s[i];
    RingNext(s, next, prev, i);
    RemoveLinks(s, next, prev, i);
    RemovedMembers(s, i);
    var next', prev' := next[prev[x] := next[x]][x := x], prev[next[x] := prev[x]][x := x];
    forall q | q in kids && q != p
      ensures Links(kids[q], next', prev')
    {
      Apart(kids, owner, p, q);
      OtherLinks(kids[q], next, prev, next', prev');
    }
  }

  lemma RingsLast(first: map<Pid, Option<Pid>>, kids: map<Pid, seq<Pid>>, next: map<Pid, Pid>, prev: map<Pid, Pid>, p: Pid)
    requires Rings(first, kids, next, prev) && p in kids && |kids[p]| == 1
    ensures var x := kids[p][0]; x in next && x in prev && next[x] == x && prev[x] == x
    ensures Rings(first[p := None], kids[p := []], next, prev)
  {
    assert next[kids[p][0]] == Succ(kids[p], 0) && prev[kids[p][0]] == Pred(kids[p], 0);
  }

  lemma OwnedAppend(kids: map<Pid, seq<Pid>>, owner: map<Pid, Option<Pid>>, p: Pid, c: Pid)
    requires Owned(kids, owner) && p in kids && c in owner && owner[c] == None
    ensures Owned(kids[p := kids[p] + [c]], owner[c := Some(p)])
  {
  }

  lemma OwnedRemove(kids: map<Pid, seq<Pid>>, owner: map<Pid, Option<Pid>>, p: Pid, i: nat)
    requires Owned(kids, owner) && p in kids && i < |kids[p]| && Distinct(kids[p])
    ensures Owned(kids[p := Removed(kids[p], i)], owner[kids[p][i] := None])
  {
    hide Distinct, Removed;
    var x, kids', owner' := kids[p][i], kids[p := Removed(kids[p], i)], owner[kids[p][i] := None];
    RemovedMembers(kids[p], i);
    assert x in kids[p];
    forall q, y | q in kids' && y in kids'[q]
      ensures y in owner' && owner'[y] == Some(q)
    {
      assert y in kids[q];
      if q != p {
        Apart(kids, owner, p, q);
      }
    }
    forall y | y in owner' && owner'[y].Some?
      ensures owner'[y].value in kids' && y in kids'[owner'[y].value]
    {
      assert y in kids[owner[y].value];
    }
    assert Owned(kids', owner');
  }

  /** How many of the processes are zombies. */
  ghost function Zombies(s: seq<Pid>, zombie: set<Pid>): nat
  {
    if s == [] then 0 else Zombies(s[..|s| - 1], zombie) + if s[|s| - 1] in zombie then 1 else 0
  }

  class Family {
    var first: map<Pid, Option<Pid>>
    var next: map<Pid, Pid>
    var prev: map<Pid, Pid>
    var parent: map<Pid, Pid>
    var zombie: set<Pid>
    var tokens: map<Pid, nat>
    ghost var kids: map<Pid, seq<Pid>>
    ghost var owner: map<Pid, Option<Pid>>

    ghost predicate Valid()
      reads `first, `next, `prev, `kids, `owner
    {
      Rings(first, kids, next, prev) && Owned(kids, owner) && Loose(owner, next, prev) && owner.Keys == kids.Keys
    }

    lemma Shape(p: Pid)
      requires Valid() && p in kids
      ensures p in first && first[p] == (if kids[p] == [] then None else Some(kids[p][0])) && Distinct(kids[p])
      ensures forall i :: 0 <= i < |kids[p]| ==> kids[p][i] in next && kids[p][i] in owner && owner[kids[p][i]] == Some(p)
      ensures kids[p] != [] ==> next[kids[p][0]] == Succ(kids[p], 0)
      ensures forall i :: 0 <= i < |kids[p]| ==> (next[kids[p][i]] == kids[p][i] <==> |kids[p]| == 1)
    {
      hide Links, Succ;
      forall i | 0 <= i < |kids[p]|
        ensures kids[p][i] in next && kids[p][i] in owner && owner[kids[p][i]] == Some(p)
        ensures next[kids[p][i]] == kids[p][i] <==> |kids[p]| == 1
      {
        RingNext(kids[p], next, prev, i);
        assert kids[p][i] in kids[p];
      }
      if kids[p] != [] {
        RingNext(kids[p], next, prev, 0);
      }
    }

    method AppendChild(p: Pid, c: Pid)
      requires Valid() && p in kids && c in kids && owner[c] == None
      modifies `first, `next, `prev, `kids, `owner
      ensures Valid() && kids == old(kids)[p := old(kids[p]) + [c]] && owner == old(owner)[c := Some(p)]
    {
      hide Rings, Owned, Loose, Distinct;
      Shape(p);
      OwnedAppend(kids, owner, p, c);
      ghost var s := kids[p];
      if first[p] == None {
        RingsFirst(first, kids, owner, next, prev, p, c);
        LooseKept(owner, next, prev, next, prev, c, p);
        assert s + [c] == [c];
        first := first[p := Some(c)];
      } else {
        RingsAppend(first, kids, owner, next, prev, p, c);
        var f := first[p].value;
        var last := prev[f];
        assert last in s && owner[last] == Some(p);
        LooseKept(owner, next, prev, next[c := f][last := c], prev[f := c][c := last], c, p);
        prev := prev[f := c];
        next := next[c := f];
        prev := prev[c := last];
        next := next[last := c];
      }
      kids, owner := kids[p := s + [c]], owner[c := Some(p)];
    }

    method DeleteChild(p: Pid, c: Pid)
      requires Valid() && p in kids && c in owner && owner[c] == Some(p) && c in kids[p]
      modifies `first, `next, `prev, `kids, `owner
      ensures Valid() && kids == old(kids)[p := Removed(old(kids[p]), Index(old(kids[p]), c))] && owner == old(owner)[c := None]
    {
      hide Rings, Owned, Loose, Distinct;
      Shape(p);
      ghost var s := kids[p];
      ghost var i := Index(s, c);
      OwnedRemove(kids, owner, p, i);
      if next[c] == c {
        RingsLast(first, kids, next, prev, p);
        LooseRemoved(owner, next, prev, next, prev, c);
        assert Removed(s, i) == [];
        first := first[p := None];
      } else {
        RingsRemove(first, kids, owner, next, prev, p, i);
        LooseRemoved(owner, next, prev, next[prev[c] := next[c]][c := c], prev[next[c] := prev[c]][c := c], c);
        var f := first[p].value;
        assert first[p := Some(f)] == first;
        if c == f {
          first := first[p := Some(next[f])];
        }
        var a, b := prev[c], next[c];
        prev := prev[b := a];
        next := next[a := b];
        next := next[c := c];
        prev := prev[c := c];
      }
      kids, owner := kids[p := Removed(s, i)], owner[c := None];
    }

    /** Every process alone, as `proc_init` leaves the table. */
    constructor (procs: set<Pid>)
      ensures Valid() && kids == (map p | p in procs :: []) && owner == (map p | p in procs :: None)
      ensures zombie == {} && tokens == (map p | p in procs :: 0) && parent == (map p | p in procs :: p)
    {
      first := map p | p in procs :: None;
      next := map p | p in procs :: p;
      prev := map p | p in procs :: p;
      parent := map p | p in procs :: p;
      zombie := {};
      tokens := map p | p in procs :: 0;
      kids := map p | p in procs :: [];
      owner := map p | p in procs :: None;
    }

    /** One turn of `reparent`: the child `c` goes from the front of `p` to the back of `init`. */
    method HandOver(p: Pid, init: Pid, c: Pid)
      requires Valid() && p in kids && init in kids && p != init && kids[p] != [] && c == kids[p][0] && init in tokens
      modifies this
      ensures Valid() && kids == old(kids)[p := old(kids[p])[1..]][init := old(kids[init]) + [c]]
      ensures owner == old(owner)[c := Some(init)] && parent == old(parent)[c := init] && zombie == old(zombie)
      ensures tokens == old(tokens)[init := old(tokens[init]) + if c in zombie then 1 else 0]
    {
      hide Rings, Owned, Loose, Links;
      Shape(p);
      ghost var s := kids[p];
      FirstIndex(s);
      DeleteChild(p, c);
      AppendChild(init, c);
      parent := parent[c := init];
      if c in zombie {
        tokens := tokens[init := tokens[init] + 1];
      } else {
        assert tokens[init := tokens[init]] == tokens;
      }
    }

    /**
     `reparent`, with the cursor arithmetic of list_for_each_entry_safe_given_first: the walk starts at the first
     child, remembers the next one before the body runs, and stops at the first child or when none is left.
     */
    method Reparent(p: Pid, init: Pid)
      requires Valid() && p in kids && init in kids && p != init && init in tokens
      modifies this
      ensures Valid() && kids == old(kids)[p := []][init := old(kids[init]) + old(kids[p])]
      ensures parent == Adopted(old(parent), old(kids[p]), init) && zombie == old(zombie)
      ensures tokens == old(tokens)[init := old(tokens[init]) + Zombies(old(kids[p]), zombie)]
    {
      hide Rings, Owned, Loose, Links, Adopted, Zombies;
      Shape(p);
      ghost var s := kids[p];
      ghost var m := 0;
      NothingYet(old(parent), init, zombie);
      HandedNone(kids, p, init);
      assert tokens == old(tokens)[init := old(tokens[init]) + 0];
      if first[p].None? {
        assert s[0..] == s[..0] == s == [];
        return;
      }
      var headF := first[p].value;
      var pos, n, flag := headF, next[headF], true;
      assert s[0..] == s && s[..0] == [];
      while flag || pos != headF
        invariant Valid() && m < |s| && zombie == old(zombie) && s[0] == headF
        invariant kids == Handed(old(kids), p, init, m)
        invariant pos == s[m] && n == Succ(s[m..], 0) && flag == (m == 0)
        invariant parent == Adopted(old(parent), s[..m], init)
        invariant tokens == old(tokens)[init := old(tokens[init]) + Zombies(s[..m], zombie)]
        decreases |s| - m
      {
        HandedOne(old(kids), p, init, m);
        HandOver(p, init, pos);
        OneMore(old(parent), s, m, init, zombie);
        m := m + 1;
        Shape(p);
        if first[p] == None {
          break;
        }
        pos := n;
        n := next[n];
        flag := false;
      }
      HandedAt(old(kids), p, init, m);
      assert m == |s|;
      assert s[..m] == s && s[m..] == [];
    }
  }

  /** The lists of children after `m` children of `p` have gone to `init`. */
  ghost function Handed(kids: map<Pid, seq<Pid>>, p: Pid, init: Pid, m: nat): map<Pid, seq<Pid>>
    requires p in kids && init in kids && m <= |kids[p]|
  {
    kids[p := kids[p][m..]][init := kids[init] + kids[p][..m]]
  }

  lemma HandedNone(kids: map<Pid, seq<Pid>>, p: Pid, init: Pid)
    requires p in kids && init in kids && p != init
    ensures Handed(kids, p, init, 0) == kids
  {
    assert kids[init] + kids[p][..0] == kids[init];
    assert kids[p][0..] == kids[p];
  }

  lemma HandedOne(kids: map<Pid, seq<Pid>>, p: Pid, init: Pid, m: nat)
    requires p in kids && init in kids && p != init && m < |kids[p]|
    ensures var h := Handed(kids, p, init, m);
            && p in h && init in h && h[p] != [] && h[p][0] == kids[p][m]
            && Handed(kids, p, init, m + 1) == h[p := h[p][1..]][init := h[init] + [h[p][0]]]
    ensures Handed(kids, p, init, m + 1)[p] == kids[p][m + 1..]
  {
    assert kids[p][m..][1..] == kids[p][m + 1..];
    assert kids[init] + kids[p][..m] + [kids[p][m]] == kids[init] + kids[p][..m + 1];
  }

  lemma HandedAt(kids: map<Pid, seq<Pid>>, p: Pid, init: Pid, m: nat)
    requires p in kids && init in kids && p != init && m <= |kids[p]|
    ensures Handed(kids, p, init, m)[p] == kids[p][m..]
  {
  }

  /** The parent pointers after `init` has adopted the processes one after the other. */
  ghost function Adopted(parent: map<Pid, Pid>, s: seq<Pid>, init: Pid): map<Pid, Pid>
  {
    if s == [] then parent else Adopted(parent, s[..|s| - 1], init)[s[|s| - 1] := init]
  }

  /** Exactly the adopted processes change their parent. */
  lemma {:induction false} AdoptedMeaning(parent: map<Pid, Pid>, s: seq<Pid>, init: Pid)
    ensures forall x :: x in Adopted(parent, s, init) <==> x in parent || x in s
    ensures forall x :: x in s ==> Adopted(parent, s, init)[x] == init
    ensures forall x :: x in parent && x !in s ==> Adopted(parent, s, init)[x] == parent[x]
  {
    if s != [] {
      AdoptedMeaning(parent, s[..|s| - 1], init);
      assert s == s[..|s| - 1] + [s[|s| - 1]];
    }
  }

  lemma NothingYet(parent: map<Pid, Pid>, init: Pid, zombie: set<Pid>)
    ensures Adopted(parent, [], init) == parent && Zombies([], zombie) == 0
  {
  }

  lemma OneMore(parent: map<Pid, Pid>, s: seq<Pid>, m: nat, init: Pid, zombie: set<Pid>)
    requires m < |s|
    ensures s[..m + 1] == s[..m] + [s[m]]
    ensures Adopted(parent, s[..m + 1], init) == Adopted(parent, s[..m], init)[s[m] := init]
    ensures Zombies(s[..m + 1], zombie) == Zombies(s[..m], zombie) + if s[m] in zombie then 1 else 0
  {
    assert s[..m + 1][..m] == s[..m];
  }

  lemma FirstIndex(s: seq<Pid>)
    requires s != []
    ensures Index(s, s[0]) == 0 && Removed(s, 0) == s[1..]
  {
  }

  lemma RingNext(s: seq<Pid>, next: map<Pid, Pid>, prev: map<Pid, Pid>, i: nat)
    requires Links(s, next, prev) && Distinct(s) && i < |s|
    ensures s[i] in next && next[s[i]] == Succ(s, i) && (next[s[i]] == s[i] <==> |s| == 1)
    ensures s[i] in prev && prev[s[i]] in s && next[s[i]] in s
  {
    hide Succ, Pred;
    assert next[s[i]] == Succ(s, i) && prev[s[i]] == Pred(s, i);
    Neighbours(s, i);
  }

  lemma Neighbours(s: seq<Pid>, i: nat)
    requires Distinct(s) && i < |s|
    ensures Succ(s, i) in s && Pred(s, i) in s && (Succ(s, i) == s[i] <==> |s| == 1)
  {
  }

  lemma LooseKept(owner: map<Pid, Option<Pid>>, next: map<Pid, Pid>, prev: map<Pid, Pid>,
                  next': map<Pid, Pid>, prev': map<Pid, Pid>, c: Pid, p: Pid)
    requires Loose(owner, next, prev) && c in owner && next.Keys <= next'.Keys && prev.Keys <= prev'.Keys
    requires forall x :: x in owner && x != c && owner[x] == None ==> next'[x] == next[x] && prev'[x] == prev[x]
    ensures Loose(owner[c := Some(p)], next', prev')
  {
  }

  lemma LooseRemoved(owner: map<Pid, Option<Pid>>, next: map<Pid, Pid>, prev: map<Pid, Pid>,
                     next': map<Pid, Pid>, prev': map<Pid, Pid>, c: Pid)
    requires Loose(owner, next, prev) && c in owner && next.Keys <= next'.Keys && prev.Keys <= prev'.Keys
    requires next'[c] == c && prev'[c] == c
    requires forall x :: x in owner && x != c && owner[x] == None ==> next'[x] == next[x] && prev'[x] == prev[x]
    ensures Loose(owner[c := None], next', prev')
  {
  }
}
