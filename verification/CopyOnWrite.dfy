/**
 Copy-on-write sharing of page frames between processes: uvmcopy (src/mm/vm.c), is_a_cow_page, pagefault
 and cow (src/mm/pagefault.c), kfree and share_page (src/mm/kalloc.c).

 A leaf is named by its process and its position in that process's page table. The promise is that every
 process observes a private memory, whatever frames are shared below.
 */
module CopyOnWrite {
  import opened Common
  import opened PageTableStore

  /** A leaf of a process. */
  type Leaf = (nat, Pos)

  /** The bytes of the block a leaf maps: one page or one superpage. */
  type Data = seq<int>

  /** `is_a_cow_page`. */
  predicate IsCow(flags: set<Flag>)
  {
    Share in flags && ReadOnly !in flags
  }

  /** A store through these flags succeeds, directly or after a copy. */
  predicate CanWrite(flags: set<Flag>)
  {
    W in flags || IsCow(flags)
  }

  /** The flags `uvmcopy` leaves in parent and child for a leaf they share. */
  function SharedFlags(flags: set<Flag>): set<Flag>
  {
    var marked := if W !in flags && Share !in flags then flags + {ReadOnly} else flags;
    marked + {Share} - {W}
  }

  /** Sharing takes no permission away and grants none. */
  lemma SharingKeepsPermission(flags: set<Flag>)
    requires W in flags ==> ReadOnly !in flags
    ensures CanWrite(SharedFlags(flags)) <==> CanWrite(flags)
    ensures SharedFlags(SharedFlags(flags)) == SharedFlags(flags)
    ensures forall f :: f in {V, R, X, U, A, D} ==> (f in SharedFlags(flags) <==> f in flags)
  {
  }

  /** Frames, reference counts and the leaves that name each frame agree. */
  ghost predicate Counted(ptes: map<Leaf, Pte>, mem: map<nat, Data>, refcnt: map<nat, int>, refs: map<nat, set<Leaf>>)
  {
    && mem.Keys == refcnt.Keys == refs.Keys
    && (forall f :: f in refs ==> refs[f] != {} && refcnt[f] == |refs[f]|)
    && (forall x :: x in ptes ==> ptes[x].pfn in refs && x in refs[ptes[x].pfn])
    && (forall f, x :: f in refs && x in refs[f] ==> x in ptes && ptes[x].pfn == f)
  }

  /** A writable leaf is the only one to name its frame. */
  ghost predicate Exclusive(ptes: map<Leaf, Pte>, refcnt: map<nat, int>)
  {
    forall x :: x in ptes && W in ptes[x].flags ==>
      ReadOnly !in ptes[x].flags && ptes[x].pfn in refcnt && refcnt[ptes[x].pfn] == 1
  }

  /** What each process sees through each of its leaves. */
  ghost function View(ptes: map<Leaf, Pte>, mem: map<nat, Data>): map<Leaf, Data>
    requires forall x :: x in ptes ==> ptes[x].pfn in mem
  {
    map x | x in ptes :: mem[ptes[x].pfn]
  }

  lemma SoleLeaf(ptes: map<Leaf, Pte>, mem: map<nat, Data>, refcnt: map<nat, int>, refs: map<nat, set<Leaf>>, x: Leaf, y: Leaf)
    requires Counted(ptes, mem, refcnt, refs) && x in ptes && y in ptes && refcnt[ptes[x].pfn] == 1
    ensures ptes[y].pfn == ptes[x].pfn ==> x == y
  {
    var s := refs[ptes[x].pfn];
    if ptes[y].pfn == ptes[x].pfn && x != y {
      TwoMembers(s, x, y);
    }
  }

  lemma TwoMembers<T>(s: set<T>, x: T, y: T)
    requires x in s && y in s && x != y
    ensures |s| >= 2
  {
    assert |s - {x}| == |s| - 1;
    assert y in s - {x};
  }

  ghost predicate Sound(ptes: map<Leaf, Pte>, mem: map<nat, Data>, refcnt: map<nat, int>, refs: map<nat, set<Leaf>>)
  {
    Counted(ptes, mem, refcnt, refs) && Exclusive(ptes, refcnt)
  }

  /** Leaf `y` comes to share the frame of `x`. */
  lemma ShareStep(ptes: map<Leaf, Pte>, mem: map<nat, Data>, refcnt: map<nat, int>, refs: map<nat, set<Leaf>>, x: Leaf, y: Leaf)
    requires Sound(ptes, mem, refcnt, refs) && x in ptes && y !in ptes
    ensures var f := ptes[x].pfn;
            var p := Pte(f, SharedFlags(ptes[x].flags));
            && Sound(ptes[x := p][y := p], mem, refcnt[f := refcnt[f] + 1], refs[f := refs[f] + {y}])
            && View(ptes[x := p][y := p], mem) == View(ptes, mem)[y := View(ptes, mem)[x]]
  {
    var f := ptes[x].pfn;
    var p := Pte(f, SharedFlags(ptes[x].flags));
    var ptes', refcnt' := ptes[x := p][y := p], refcnt[f := refcnt[f] + 1];
    forall z | z in ptes' && W in ptes'[z].flags
      ensures ReadOnly !in ptes'[z].flags && ptes'[z].pfn in refcnt' && refcnt'[ptes'[z].pfn] == 1
    {
      SoleLeaf(ptes, mem, refcnt, refs, z, x);
    }
  }

  /** A new leaf gets a frame of its own. */
  lemma FreshStep(ptes: map<Leaf, Pte>, mem: map<nat, Data>, refcnt: map<nat, int>, refs: map<nat, set<Leaf>>,
                  y: Leaf, f: nat, flags: set<Flag>, d: Data)
    requires Sound(ptes, mem, refcnt, refs) && y !in ptes && f !in mem && (W in flags ==> ReadOnly !in flags)
    ensures Sound(ptes[y := Pte(f, flags)], mem[f := d], refcnt[f := 1], refs[f := {y}])
    ensures View(ptes[y := Pte(f, flags)], mem[f := d]) == View(ptes, mem)[y := d]
  {
  }

  /** A leaf goes away; its frame does when it was the last one. */
  lemma DropStep(ptes: map<Leaf, Pte>, mem: map<nat, Data>, refcnt: map<nat, int>, refs: map<nat, set<Leaf>>, x: Leaf)
    requires Sound(ptes, mem, refcnt, refs) && x in ptes
    ensures var f := ptes[x].pfn;
            if refcnt[f] == 1 then
              && Sound(ptes - {x}, mem - {f}, refcnt - {f}, refs - {f})
              && View(ptes - {x}, mem - {f}) == View(ptes, mem) - {x}
            else
              && refcnt[f] > 1 && Sound(ptes - {x}, mem, refcnt[f := refcnt[f] - 1], refs[f := refs[f] - {x}])
              && View(ptes - {x}, mem) == View(ptes, mem) - {x}
  {
    var f := ptes[x].pfn;
    assert |refs[f] - {x}| == |refs[f]| - 1;
    if refcnt[f] == 1 {
      forall y | y in ptes && y != x
        ensures ptes[y].pfn != f
      {
        SoleLeaf(ptes, mem, refcnt, refs, x, y);
      }
    } else {
      forall z | z in ptes && W in ptes[z].flags
        ensures ptes[z].pfn != f
      {
      }
    }
  }

  /** `memmove` of `bytes` into a block. */
  function Patched(d: Data, off: nat, bytes: Data): Data
    requires off + |bytes| <= |d|
  {
    d[..off] + bytes + d[off + |bytes|..]
  }

  /** The private memories after `dst` has copied the pages `done` of `src`, one after the other. */
  ghost function Copied(m: map<Leaf, Data>, src: nat, dst: nat, done: seq<Pos>): map<Leaf, Data>
    requires forall p :: p in done ==> (src, p) in m
    ensures m.Keys <= Copied(m, src, dst, done).Keys
  {
    if done == [] then m
    else
      var p := done[|done| - 1];
      Copied(m, src, dst, done[..|done| - 1])[(dst, p) := m[(src, p)]]
  }

  /** The child sees exactly what the parent saw at the fork, and nobody else sees a difference. */
  lemma {:induction false} CopiedMeaning(m: map<Leaf, Data>, src: nat, dst: nat, done: seq<Pos>)
    requires src != dst && forall p :: p in done ==> (src, p) in m
    ensures forall x :: x in Copied(m, src, dst, done) <==> x in m || (x.0 == dst && x.1 in done)
    ensures forall p :: p in done ==> Copied(m, src, dst, done)[(dst, p)] == m[(src, p)]
    ensures forall x :: x in m && !(x.0 == dst && x.1 in done) ==> Copied(m, src, dst, done)[x] == m[x]
  {
    if done != [] {
      var rest := done[..|done| - 1];
      CopiedMeaning(m, src, dst, rest);
      assert done == rest + [done[|done| - 1]];
    }
  }

  /** The leaves after a fork has done the pages `done`: shared outside the stack, the rest as before. */
  ghost predicate Forked(was: map<Leaf, Pte>, now: map<Leaf, Pte>, src: nat, dst: nat, done: seq<Pos>, stack: set<Pos>)
  {
    && (forall x :: x in now <==> x in was || (x.0 == dst && x.1 in done))
    && (forall x :: x in was && !(x.0 == dst && x.1 in done) ==> now[x] == KeptLeaf(was[x], x.0 == src && x.1 in done && x.1 !in stack))
    && (forall p :: p in done && (src, p) in was ==> NewLeaf(was[(src, p)], now[(dst, p)], p in stack))
  }

  function KeptLeaf(e: Pte, shared: bool): Pte
  {
    if shared then Pte(e.pfn, SharedFlags(e.flags)) else e
  }

  /** The child's leaf `n` for the parent's leaf `e`. */
  predicate NewLeaf(e: Pte, n: Pte, inStack: bool)
  {
    if inStack then n.flags == {W, R, U, V} else n == KeptLeaf(e, true)
  }

  /** The pages `done` of `dst` may be written as those of `src`, or are writable stack; nobody else's power changes. */
  ghost predicate SamePower(was: map<Leaf, Pte>, now: map<Leaf, Pte>, src: nat, dst: nat, done: seq<Pos>, stack: set<Pos>)
  {
    && (forall x :: x in now <==> x in was || (x.0 == dst && x.1 in done))
    && (forall x :: x in was && !(x.0 == dst && x.1 in done) ==> (CanWrite(now[x].flags) <==> CanWrite(was[x].flags)))
    && (forall p :: p in done && (src, p) in was ==>
          (CanWrite(now[(dst, p)].flags) <==> p in stack || CanWrite(was[(src, p)].flags)))
  }

  lemma ForkedPower(was: map<Leaf, Pte>, refcnt: map<nat, int>, now: map<Leaf, Pte>, src: nat, dst: nat, done: seq<Pos>, stack: set<Pos>)
    requires Forked(was, now, src, dst, done, stack) && Exclusive(was, refcnt)
    ensures SamePower(was, now, src, dst, done, stack)
  {
    hide CanWrite, SharedFlags;
    forall x | x in was
      ensures CanWrite(SharedFlags(was[x].flags)) <==> CanWrite(was[x].flags)
    {
      SharingKeepsPermission(was[x].flags);
    }
    assert CanWrite({W, R, U, V}) by {
      StackPower();
    }
  }

  lemma StackPower()
    ensures CanWrite({W, R, U, V})
  {
  }

  lemma ForkStart(m: map<Leaf, Data>, ptes: map<Leaf, Pte>, src: nat, dst: nat, stack: set<Pos>)
    ensures Copied(m, src, dst, []) == m && Forked(ptes, ptes, src, dst, [], stack) && Stacked([], stack) == 0
  {
  }

  lemma CopiedStep(m: map<Leaf, Data>, src: nat, dst: nat, done: seq<Pos>, p: Pos)
    requires forall q :: q in done + [p] ==> (src, q) in m
    ensures Copied(m, src, dst, done + [p]) == Copied(m, src, dst, done)[(dst, p) := m[(src, p)]]
  {
    assert (done + [p])[..|done|] == done;
  }

  lemma ForkedKeys(was: map<Leaf, Pte>, now: map<Leaf, Pte>, src: nat, dst: nat, done: seq<Pos>, stack: set<Pos>)
    requires Forked(was, now, src, dst, done, stack)
    ensures forall x :: x in now <==> x in was || (x.0 == dst && x.1 in done)
  {
  }

  lemma ForkedCopy(was: map<Leaf, Pte>, now: map<Leaf, Pte>, next: map<Leaf, Pte>,
                   src: nat, dst: nat, done: seq<Pos>, stack: set<Pos>, p: Pos)
    requires Forked(was, now, src, dst, done, stack) && src != dst && p in stack
    requires (dst, p) !in now && (dst, p) in next && next == now[(dst, p) := Pte(next[(dst, p)].pfn, {W, R, U, V})]
    ensures Forked(was, next, src, dst, done + [p], stack)
  {
    hide KeptLeaf;
  }

  lemma ForkedShare(was: map<Leaf, Pte>, now: map<Leaf, Pte>, next: map<Leaf, Pte>,
                    src: nat, dst: nat, done: seq<Pos>, stack: set<Pos>, p: Pos)
    requires Forked(was, now, src, dst, done, stack) && src != dst && p !in stack && p !in done
    requires (src, p) in was && (src, p) in now && (dst, p) !in now
    requires var e := Pte(now[(src, p)].pfn, SharedFlags(now[(src, p)].flags)); next == now[(src, p) := e][(dst, p) := e]
    ensures Forked(was, next, src, dst, done + [p], stack)
  {
    hide SharedFlags;
  }

  /** What a process may ask of its memory. */
  datatype Request =
    | Store(x: Leaf, off: nat, byte: int, allowed: bool)
    | Release(x: Leaf)
    | Touch(x: Leaf, flags: set<Flag>, zero: Data)
    | Clone(src: nat, dst: nat, order: seq<Pos>, stack: set<Pos>)

  /** How it is answered; without memory a fork has done some pages. */
  datatype Reply = Granted | Denied | NoMemory(done: nat)

  /** Private memories: the content of each page of each process, and the pages that may be written. */
  datatype Private = Private(pages: map<Leaf, Data>, writable: set<Leaf>)

  /** The request names pages and bytes that exist, or pages that do not where it makes them. */
  predicate Possible(m: map<Leaf, Data>, req: Request)
  {
    match req
    case Store(x, off, _, _) => x in m && off < |m[x]|
    case Release(x) => x in m
    case Touch(x, flags, _) => x !in m && ReadOnly !in flags
    case Clone(src, dst, order, _) =>
      && src != dst
      && (forall p :: p in order ==> (src, p) in m && (dst, p) !in m)
      && (forall i, j :: 0 <= i < j < |order| ==> order[i] != order[j])
  }

  /**
   The answers a process may get: a store is denied for lack of a right only, a release never fails, and nothing but
   the want of memory stands in the way of the rest. A fork stops at a stack page only.
   */
  predicate Fair(a: Private, req: Request, reply: Reply)
  {
    if !Possible(a.pages, req) then reply == Denied
    else match req
      case Store(x, _, _, allowed) =>
        if x !in a.writable then reply == Denied
        else if allowed then reply == Granted || reply == NoMemory(0)
        else reply == Granted || reply == Denied
      case Release(_) => reply == Granted
      case Touch(_, _, _) => reply == Granted || reply == NoMemory(0)
      case Clone(_, _, order, stack) =>
        reply == Granted || (reply.NoMemory? && reply.done < |order| && order[reply.done] in stack)
  }

  /** How many pages of a fork are done. */
  function Done(order: seq<Pos>, reply: Reply): (n: nat)
    ensures n <= |order|
  {
    if reply.Granted? then |order| else if reply.NoMemory? && reply.done <= |order| then reply.done else 0
  }

  /** The same request on private memories: no frames, no flags, no counts. */
  ghost function Effect(a: Private, req: Request, reply: Reply): Private
  {
    if !Possible(a.pages, req) then a
    else match req
      case Store(x, off, byte, _) => if reply.Granted? then a.(pages := a.pages[x := a.pages[x][off := byte]]) else a
      case Release(x) => if reply.Granted? then Private(a.pages - {x}, a.writable - {x}) else a
      case Touch(x, flags, zero) =>
        if reply.Granted? then Private(a.pages[x := zero], if CanWrite(flags) then a.writable + {x} else a.writable) else a
      case Clone(src, dst, order, stack) =>
        var done := order[..Done(order, reply)];
        Private(Copied(a.pages, src, dst, done), a.writable + Given(a.writable, src, dst, done, stack))
  }

  /** The pages of the child that may be written. */
  ghost function Given(writable: set<Leaf>, src: nat, dst: nat, done: seq<Pos>, stack: set<Pos>): set<Leaf>
  {
    set p | p in done && (p in stack || (src, p) in writable) :: (dst, p)
  }

  ghost function Effects(a: Private, reqs: seq<Request>, replies: seq<Reply>): Private
    requires |reqs| == |replies|
  {
    if reqs == [] then a
    else
      var k := |reqs| - 1;
      Effect(Effects(a, reqs[..k], replies[..k]), reqs[k], replies[k])
  }

  /** Every answer of a run is a fair one. */
  ghost predicate AllFair(a: Private, reqs: seq<Request>, replies: seq<Reply>)
    requires |reqs| == |replies|
  {
    reqs == [] ||
    (var k := |reqs| - 1;
     AllFair(a, reqs[..k], replies[..k]) && Fair(Effects(a, reqs[..k], replies[..k]), reqs[k], replies[k]))
  }

  /** How many of the pages lie in the stack area. */
  ghost function Stacked(done: seq<Pos>, stack: set<Pos>): (n: nat)
    ensures n <= |done|
  {
    if done == [] then 0 else Stacked(done[..|done| - 1], stack) + if done[|done| - 1] in stack then 1 else 0
  }

  lemma StackedStep(done: seq<Pos>, stack: set<Pos>, p: Pos)
    ensures Stacked(done + [p], stack) == Stacked(done, stack) + if p in stack then 1 else 0
  {
    assert (done + [p])[..|done|] == done;
  }

  /** How often a request may have to ask the allocator. */
  function Needs(req: Request): nat
  {
    match req
    case Release(_) => 0
    case Clone(_, _, order, _) => |order|
    case _ => 1
  }

  ghost function Writable(ptes: map<Leaf, Pte>): set<Leaf>
  {
    set x | x in ptes && CanWrite(ptes[x].flags)
  }

  lemma WritableForked(was: map<Leaf, Pte>, now: map<Leaf, Pte>, src: nat, dst: nat, done: seq<Pos>, stack: set<Pos>)
    requires SamePower(was, now, src, dst, done, stack)
    requires forall p :: p in done ==> (src, p) in was && (dst, p) !in was
    ensures Writable(now) == Writable(was) + Given(Writable(was), src, dst, done, stack)
  {
    hide CanWrite;
  }

  class Machine {
    var ptes: map<Leaf, Pte>
    var mem: map<nat, Data>
    var refcnt: map<nat, int>
    var nextFree: nat
    /** The calls of the allocator that find no memory, and how many calls there were. */
    const starved: set<nat>
    var asked: nat
    ghost var refs: map<nat, set<Leaf>>

    ghost predicate Valid()
      reads this
    {
      Sound(ptes, mem, refcnt, refs) && forall f :: f in mem ==> f < nextFree
    }

    ghost function Memory(): map<Leaf, Data>
      requires Valid()
      reads this
    {
      View(ptes, mem)
    }

    /** What the processes see. */
    ghost function Seen(): Private
      requires Valid()
      reads this
    {
      Private(View(ptes, mem), Writable(ptes))
    }

    constructor (starved: set<nat>)
      ensures Valid() && Memory() == map[] && ptes == map[] && asked == 0 && this.starved == starved
    {
      ptes, mem, refcnt, nextFree, refs := map[], map[], map[], 0, map[];
      this.starved, asked := starved, 0;
    }

    /** `kmalloc` of a block; whether there is memory is not ours to say. */
    method Kmalloc() returns (ok: bool, f: nat)
      requires Valid()
      modifies `nextFree, `asked
      ensures Valid() && f !in mem && (ok ==> f < nextFree)
      ensures (ok <==> old(asked) !in starved) && asked == old(asked) + 1
    {
      f := nextFree;
      ok := asked !in starved;
      asked := asked + 1;
      if ok {
        nextFree := nextFree + 1;
      }
    }

    /** `uvmunmap` of one leaf, with `kfree` of its block. */
    method Unmap(x: Leaf)
      requires Valid() && x in ptes
      modifies `ptes, `mem, `refcnt, `refs
      ensures Valid() && Memory() == old(Memory()) - {x} && ptes == old(ptes) - {x}
      ensures mem.Keys <= old(mem.Keys)
    {
      hide Counted, Exclusive;
      DropStep(ptes, mem, refcnt, refs, x);
      CountedKeys(ptes, mem, refcnt, refs);
      var f := ptes[x].pfn;
      ptes := ptes - {x};
      if refcnt[f] == 1 {
        mem, refcnt, refs := mem - {f}, refcnt - {f}, refs - {f};
      } else {
        refcnt, refs := refcnt[f := refcnt[f] - 1], refs[f := refs[f] - {x}];
      }
    }

    /** `mappages` of a block that was just allocated. */
    method MapFresh(x: Leaf, f: nat, flags: set<Flag>, d: Data)
      requires Valid() && x !in ptes && f !in mem && f < nextFree && (W in flags ==> ReadOnly !in flags)
      modifies `ptes, `mem, `refcnt, `refs
      ensures Valid() && Memory() == old(Memory())[x := d] && ptes == old(ptes)[x := Pte(f, flags)]
    {
      hide Counted, Exclusive;
      FreshStep(ptes, mem, refcnt, refs, x, f, flags, d);
      ptes, mem, refcnt, refs := ptes[x := Pte(f, flags)], mem[f := d], refcnt[f := 1], refs[f := {x}];
    }

    /** On-demand allocation of a leaf that is not mapped (the first branch of `pagefault`). */
    method Demand(x: Leaf, flags: set<Flag>, zero: Data) returns (ok: bool)
      requires Valid() && x !in ptes && ReadOnly !in flags
      modifies this
      ensures Valid() && Memory() == if ok then old(Memory())[x := zero] else old(Memory())
      ensures ok ==> x in ptes && ptes == old(ptes)[x := Pte(ptes[x].pfn, flags)]
      ensures !ok ==> ptes == old(ptes)
      ensures (ok <==> old(asked) !in starved) && asked == old(asked) + 1
    {
      hide Counted, Exclusive;
      var f;
      ok, f := Kmalloc();
      if ok {
        MapFresh(x, f, flags, zero);
      }
    }

    /** `cow`: the leaf gets a writable copy of its block, and the old block loses a reference. */
    method Cow(x: Leaf) returns (ok: bool)
      requires Valid() && x in ptes && IsCow(ptes[x].flags)
      modifies this
      ensures Valid() && Memory() == old(Memory())
      ensures x in ptes && ptes == if ok then old(ptes)[x := Pte(ptes[x].pfn, old(ptes[x].flags) + {W})] else old(ptes)
      ensures (ok <==> old(asked) !in starved) && asked == old(asked) + 1
    {
      hide Counted, Exclusive, View;
      var g;
      ok, g := Kmalloc();
      if !ok {
        return;
      }
      CountedKeys(ptes, mem, refcnt, refs);
      var flags, d := ptes[x].flags, mem[ptes[x].pfn];
      ghost var view, was := View(ptes, mem), ptes;
      Unmap(x);
      MapFresh(x, g, flags + {W}, d);
      assert (view - {x})[x := d] == view;
      assert (was - {x})[x := Pte(g, flags + {W})] == was[x := Pte(g, flags + {W})];
    }

    /**
     A user store: it goes through if the leaf is writable, faults into a copy if the leaf is copy-on-write and
     the area allows writing, and fails otherwise.
     */
    method Write(x: Leaf, off: nat, byte: int, allowed: bool) returns (reply: Reply)
      requires Valid() && x in ptes && off < |mem[ptes[x].pfn]|
      modifies this
      ensures Valid() && ptes.Keys == old(ptes.Keys) && Writable(ptes) == Writable(old(ptes))
      ensures Memory() == if reply.Granted? then old(Memory())[x := old(Memory())[x][off := byte]] else old(Memory())
      ensures reply == if W in old(ptes[x].flags) then Granted
                       else if !allowed || !IsCow(old(ptes[x].flags)) then Denied
                       else if old(asked) !in starved then Granted else NoMemory(0)
      ensures asked == old(asked) + if W !in old(ptes[x].flags) && allowed && IsCow(old(ptes[x].flags)) then 1 else 0
    {
      hide Counted, Exclusive;
      CountedKeys(ptes, mem, refcnt, refs);
      if W !in ptes[x].flags {
        if !allowed || !IsCow(ptes[x].flags) {
          return Denied;
        }
        var ok := Cow(x);
        if !ok {
          return NoMemory(0);
        }
        CountedKeys(ptes, mem, refcnt, refs);
      }
      var f := ptes[x].pfn;
      StoreStep(ptes, mem, refcnt, refs, x, mem[f][off := byte]);
      mem := mem[f := mem[f][off := byte]];
      reply := Granted;
    }

    /** One leaf of `uvmcopy` outside the stack area: parent and child come to share the block. */
    method ShareLeaf(x: Leaf, y: Leaf)
      requires Valid() && x in ptes && y !in ptes
      modifies `ptes, `refcnt, `refs
      ensures Valid() && Memory() == old(Memory())[y := old(Memory())[x]]
      ensures var p := Pte(old(ptes[x].pfn), SharedFlags(old(ptes[x].flags)));
              ptes == old(ptes)[x := p][y := p]
    {
      hide Counted, Exclusive;
      CountedKeys(ptes, mem, refcnt, refs);
      ShareStep(ptes, mem, refcnt, refs, x, y);
      var f := ptes[x].pfn;
      var p := Pte(f, SharedFlags(ptes[x].flags));
      ptes, refcnt, refs := ptes[x := p][y := p], refcnt[f := refcnt[f] + 1], refs[f := refs[f] + {y}];
    }

    /** One leaf of `uvmcopy` inside the stack area: the child gets a copy, or memory runs out. */
    method CopyLeaf(x: Leaf, y: Leaf) returns (ok: bool)
      requires Valid() && x in ptes && y !in ptes
      modifies this
      ensures Valid() && Memory() == if ok then old(Memory())[y := old(Memory())[x]] else old(Memory())
      ensures ok ==> y in ptes && ptes == old(ptes)[y := Pte(ptes[y].pfn, {W, R, U, V})]
      ensures !ok ==> ptes == old(ptes)
      ensures (ok <==> old(asked) !in starved) && asked == old(asked) + 1
    {
      hide Counted, Exclusive;
      CountedKeys(ptes, mem, refcnt, refs);
      var f;
      ok, f := Kmalloc();
      if ok {
        MapFresh(y, f, {W, R, U, V}, mem[ptes[x].pfn]);
      }
    }

    /** One page of `uvmcopy`, after the pages `done`. */
    method ForkPage(src: nat, dst: nat, p: Pos, stack: set<Pos>, ghost m: map<Leaf, Data>, ghost was: map<Leaf, Pte>, ghost done: seq<Pos>)
      returns (ok: bool)
      requires Valid() && src != dst && m.Keys == was.Keys && p !in done
      requires forall q :: q in done + [p] ==> (src, q) in m && (dst, q) !in m
      requires Memory() == Copied(m, src, dst, done) && Forked(was, ptes, src, dst, done, stack)
      modifies this
      ensures Valid() && asked == old(asked) + (if p in stack then 1 else 0)
      ensures ok == (p in stack ==> old(asked) !in starved)
      ensures Memory() == Copied(m, src, dst, if ok then done + [p] else done)
      ensures Forked(was, ptes, src, dst, if ok then done + [p] else done, stack)
    {
      hide Counted, Exclusive, View, SharedFlags, Copied, Forked;
      var x, y := (src, p), (dst, p);
      CopiedMeaning(m, src, dst, done);
      CopiedStep(m, src, dst, done, p);
      ForkedKeys(was, ptes, src, dst, done, stack);
      ghost var before := ptes;
      CountedKeys(ptes, mem, refcnt, refs);
      ok := true;
      if p in stack {
        ok := CopyLeaf(x, y);
        if ok {
          ForkedCopy(was, before, ptes, src, dst, done, stack, p);
        }
      } else {
        ShareLeaf(x, y);
        ForkedShare(was, before, ptes, src, dst, done, stack, p);
      }
    }

    /**
     `uvmcopy`: the child gets the parent's leaves in the order of the parent's areas. It stops early exactly when
     there is no memory for a stack page.
     */
    method Fork(src: nat, dst: nat, order: seq<Pos>, stack: set<Pos>) returns (copied: nat)
      requires Valid() && src != dst
      requires forall p :: p in order ==> (src, p) in ptes && (dst, p) !in ptes
      requires forall i, j :: 0 <= i < j < |order| ==> order[i] != order[j]
      modifies this
      ensures Valid() && copied <= |order|
      ensures var failed := old(asked) + Stacked(order[..copied], stack);
              && Supplied(starved, old(asked), failed)
              && if copied < |order| then asked == failed + 1 && failed in starved && order[copied] in stack else asked == failed
      ensures Memory() == Copied(old(Memory()), src, dst, order[..copied])
      ensures Forked(old(ptes), ptes, src, dst, order[..copied], stack)
      ensures SamePower(old(ptes), ptes, src, dst, order[..copied], stack)
    {
      hide Counted, Exclusive, View, SamePower, Copied, Forked, Stacked;
      copied := 0;
      CountedKeys(ptes, mem, refcnt, refs);
      ghost var m, was, counts := Memory(), ptes, refcnt;
      assert m.Keys == was.Keys && order[..0] == [];
      ForkStart(m, ptes, src, dst, stack);
      while copied < |order|
        invariant copied <= |order| && Valid()
        invariant Memory() == Copied(m, src, dst, order[..copied])
        invariant Forked(was, ptes, src, dst, order[..copied], stack)
        invariant asked == old(asked) + Stacked(order[..copied], stack) && Supplied(starved, old(asked), asked)
      {
        assert order[..copied + 1] == order[..copied] + [order[copied]];
        StackedStep(order[..copied], stack, order[copied]);
        var ok := ForkPage(src, dst, order[copied], stack, m, was, order[..copied]);
        if !ok {
          break;
        }
        copied := copied + 1;
      }
      ForkedPower(was, counts, ptes, src, dst, order[..copied], stack);
    }

    /**
     One page of `copyout`. The kernel stores without asking the page table, so a page that is neither writable nor
     copy-on-write is written in place; the private memories survive that exactly when nobody else could notice.
     */
    method CopyoutPage(x: Leaf, off: nat, bytes: Data, allowed: bool) returns (ok: bool)
      requires Valid() && x in ptes && off + |bytes| <= |mem[ptes[x].pfn]|
      modifies this
      ensures Valid() && ptes.Keys == old(ptes.Keys)
      ensures ok == (var flags := old(ptes[x].flags);
                     && V in flags && U in flags
                     && (W !in flags && IsCow(flags) ==> allowed && old(asked) !in starved))
      ensures !ok ==> Memory() == old(Memory())
      ensures ok ==> Memory()[x] == Patched(old(Memory())[x], off, bytes)
      ensures ok && CanWrite(old(ptes[x].flags)) ==>
                Memory() == old(Memory())[x := Patched(old(Memory())[x], off, bytes)]
      ensures ok && !CanWrite(old(ptes[x].flags)) ==>
                (Memory() == old(Memory())[x := Patched(old(Memory())[x], off, bytes)] <==>
                 old(refcnt[ptes[x].pfn]) == 1 || Patched(old(Memory())[x], off, bytes) == old(Memory())[x])
    {
      hide Counted, Exclusive, Patched;
      CountedKeys(ptes, mem, refcnt, refs);
      if W !in ptes[x].flags && IsCow(ptes[x].flags) {
        if !allowed {
          return false;
        }
        ok := Cow(x);
        if !ok {
          return;
        }
        CountedKeys(ptes, mem, refcnt, refs);
      }
      if V !in ptes[x].flags || U !in ptes[x].flags {
        return false;
      }
      var f := ptes[x].pfn;
      var d := Patched(mem[f], off, bytes);
      if W in ptes[x].flags {
        StoreStep(ptes, mem, refcnt, refs, x, d);
      } else {
        RawStore(ptes, mem, refcnt, refs, x, d);
      }
      mem := mem[f := d];
      ok := true;
    }

    /** Any single request acts on the machine as it does on private memories, and is answered fairly. */
    method Serve(req: Request) returns (reply: Reply)
      requires Valid()
      modifies this
      ensures Valid() && Seen() == Effect(old(Seen()), req, reply) && Fair(old(Seen()), req, reply)
      ensures old(asked) <= asked <= old(asked) + Needs(req) && (reply.NoMemory? <==> !Supplied(starved, old(asked), asked))
      ensures req.Store? && Possible(old(Memory()), req) && W in old(ptes)[req.x].flags ==> reply == Granted
    {
      hide Counted, Exclusive, SamePower, Copied, CanWrite, Forked, Stacked;
      CountedKeys(ptes, mem, refcnt, refs);
      ghost var m := Memory();
      assert m.Keys == ptes.Keys;
      reply := Denied;
      if !CanServe(req) {
        return;
      }
      match req {
        case Store(x, off, byte, allowed) =>
          PowerOf(ptes, x);
          reply := Write(x, off, byte, allowed);
        case Release(x) =>
          Unmap(x);
          WritableDrop(old(ptes), x);
          reply := Granted;
        case Touch(x, flags, zero) =>
          var ok := Demand(x, flags, zero);
          WritableAdd(old(ptes), x, ptes[x := Pte(0, flags)][x]);
          reply := if ok then Granted else NoMemory(0);
        case Clone(src, dst, order, stack) =>
          var copied := Fork(src, dst, order, stack);
          WritableForked(old(ptes), ptes, src, dst, order[..copied], stack);
          reply := if copied == |order| then Granted else NoMemory(copied);
      }
    }

    /** The request is possible, as the page tables say. */
    predicate CanServe(req: Request): (r: bool)
      requires Valid()
      reads this
      ensures r == Possible(Memory(), req)
    {
      CountedKeys(ptes, mem, refcnt, refs);
      match req
      case Store(x, off, _, _) => x in ptes && off < |mem[ptes[x].pfn]|
      case Release(x) => x in ptes
      case Touch(x, flags, _) => x !in ptes && ReadOnly !in flags
      case Clone(src, dst, order, _) =>
        && src != dst
        && (forall p :: p in order ==> (src, p) in ptes && (dst, p) !in ptes)
        && (forall i, j :: 0 <= i < j < |order| ==> order[i] != order[j])
    }

    /**
     A whole run: however frames are shared and copied below, each process sees a private memory, every answer is
     fair, and somebody is turned away for want of memory if and only if the allocator has failed.
     */
    method Run(reqs: seq<Request>) returns (replies: seq<Reply>)
      requires Valid()
      modifies this
      ensures Valid() && |replies| == |reqs|
      ensures Seen() == Effects(old(Seen()), reqs, replies) && AllFair(old(Seen()), reqs, replies)
      ensures (exists r :: r in replies && r.NoMemory?) <==> !Supplied(starved, old(asked), asked)
    {
      replies := [];
      while |replies| < |reqs|
        invariant Valid() && |replies| <= |reqs| && asked >= old(asked)
        invariant Seen() == Effects(old(Seen()), reqs[..|replies|], replies)
        invariant AllFair(old(Seen()), reqs[..|replies|], replies)
        invariant (exists r :: r in replies && r.NoMemory?) <==> !Supplied(starved, old(asked), asked)
      {
        hide Sound, View, Effect, Fair, Writable;
        var k := |replies|;
        ghost var before := asked;
        var reply := Serve(reqs[k]);
        assert reqs[..k + 1][..k] == reqs[..k] && (replies + [reply])[..k] == replies;
        assert Supplied(starved, old(asked), asked) <==> Supplied(starved, old(asked), before) && Supplied(starved, before, asked);
        replies := replies + [reply];
      }
      assert reqs[..|replies|] == reqs;
    }
  }

  lemma PowerOf(ptes: map<Leaf, Pte>, x: Leaf)
    requires x in ptes
    ensures x in Writable(ptes) <==> W in ptes[x].flags || IsCow(ptes[x].flags)
  {
  }

  lemma WritableDrop(ptes: map<Leaf, Pte>, x: Leaf)
    ensures Writable(ptes - {x}) == Writable(ptes) - {x}
  {
  }

  lemma WritableAdd(ptes: map<Leaf, Pte>, x: Leaf, e: Pte)
    requires x !in ptes
    ensures forall f :: Writable(ptes[x := Pte(f, e.flags)]) == if CanWrite(e.flags) then Writable(ptes) + {x} else Writable(ptes)
  {
  }

  lemma CountedKeys(ptes: map<Leaf, Pte>, mem: map<nat, Data>, refcnt: map<nat, int>, refs: map<nat, set<Leaf>>)
    requires Sound(ptes, mem, refcnt, refs)
    ensures mem.Keys == refcnt.Keys == refs.Keys && View(ptes, mem).Keys == ptes.Keys
    ensures forall x :: x in ptes ==> ptes[x].pfn in mem && x in View(ptes, mem) && View(ptes, mem)[x] == mem[ptes[x].pfn]
  {
  }

  /** A store into a frame with a single leaf is seen through that leaf only. */
  lemma StoreStep(ptes: map<Leaf, Pte>, mem: map<nat, Data>, refcnt: map<nat, int>, refs: map<nat, set<Leaf>>, x: Leaf, d: Data)
    requires Sound(ptes, mem, refcnt, refs) && x in ptes && W in ptes[x].flags
    ensures Sound(ptes, mem[ptes[x].pfn := d], refcnt, refs)
    ensures View(ptes, mem[ptes[x].pfn := d]) == View(ptes, mem)[x := d]
  {
    forall y | y in ptes && y != x
      ensures ptes[y].pfn != ptes[x].pfn
    {
      SoleLeaf(ptes, mem, refcnt, refs, x, y);
    }
  }

  /** A store that ignores the flags is private exactly when the frame has one leaf or its content stays. */
  lemma RawStore(ptes: map<Leaf, Pte>, mem: map<nat, Data>, refcnt: map<nat, int>, refs: map<nat, set<Leaf>>, x: Leaf, d: Data)
    requires Sound(ptes, mem, refcnt, refs) && x in ptes
    ensures Sound(ptes, mem[ptes[x].pfn := d], refcnt, refs)
    ensures View(ptes, mem[ptes[x].pfn := d])[x] == d
    ensures View(ptes, mem[ptes[x].pfn := d]) == View(ptes, mem)[x := d] <==>
            refcnt[ptes[x].pfn] == 1 || d == View(ptes, mem)[x]
  {
    var f := ptes[x].pfn;
    var after := View(ptes, mem[f := d]);
    if refcnt[f] == 1 {
      forall y | y in ptes && y != x
        ensures ptes[y].pfn != f
      {
        SoleLeaf(ptes, mem, refcnt, refs, x, y);
      }
      assert after == View(ptes, mem)[x := d];
    } else {
      var y := Another(refs[f], x);
      assert y in ptes && ptes[y].pfn == f;
      assert after[y] == d && View(ptes, mem)[x := d][y] == mem[f];
    }
  }

  lemma Another<T>(s: set<T>, x: T) returns (y: T)
    requires x in s && |s| != 1
    ensures y in s && y != x
  {
    assert |s - {x}| == |s| - 1;
    y :| y in s - {x};
  }

  /** A read-only page after a fork: two leaves, one frame. */
  method ForkReadOnly(p: Pos) returns (m: Machine)
    ensures fresh(m) && m.Valid() && m.Memory() == map[(0, p) := [0], (1, p) := [0]]
    ensures (0, p) in m.ptes && m.ptes[(0, p)].flags == {V, R, U, ReadOnly, Share}
    ensures m.ptes[(0, p)].pfn in m.refcnt && m.refcnt[m.ptes[(0, p)].pfn] != 1
  {
    hide Counted, Exclusive, View, Copied, SamePower, Stacked, Supplied;
    m := new Machine({});
    var mapped := m.Demand((0, p), {V, R, U}, [0]);
    ghost var first, was := m.Memory(), m.ptes;
    assert first == map[(0, p) := [0]] && was == map[(0, p) := was[(0, p)]];
    var copied := m.Fork(0, 1, [p], {});
    assert copied == 1 && [p][..1] == [p] && p in [p];
    CopiedOne(first, p);
    ForkedOne(was, m.ptes, p);
    SharedByTwo(m.ptes, m.mem, m.refcnt, m.refs, (0, p), (1, p));
  }

  lemma CopiedOne(m: map<Leaf, Data>, p: Pos)
    requires m == map[(0, p) := [0]]
    ensures Copied(m, 0, 1, [p]) == map[(0, p) := [0], (1, p) := [0]]
  {
    CopiedMeaning(m, 0, 1, [p]);
    assert p in [p];
  }

  lemma ForkedOne(was: map<Leaf, Pte>, now: map<Leaf, Pte>, p: Pos)
    requires Forked(was, now, 0, 1, [p], {}) && was.Keys == {(0, p)} && was[(0, p)].flags == {V, R, U}
    ensures (0, p) in now && (1, p) in now && now[(0, p)] == now[(1, p)]
    ensures now[(0, p)].flags == {V, R, U, ReadOnly, Share}
  {
    assert p in [p];
  }

  /** What `copyout` then writes for process 0, process 1 sees as well. */
  method CopyoutIsSeen(p: Pos) returns (m: Machine, ok: bool)
    ensures fresh(m) && m.Valid() && ok && (1, p) in m.Memory() && m.Memory()[(1, p)] != [0]
  {
    hide Counted, Exclusive, View;
    m := ForkReadOnly(p);
    CountedKeys(m.ptes, m.mem, m.refcnt, m.refs);
    ghost var before := m.Memory();
    assert Patched([0], 0, [1]) == [1];
    ok := m.CopyoutPage((0, p), 0, [1], true);
    CountedKeys(m.ptes, m.mem, m.refcnt, m.refs);
    SecondDiffers(before, m.Memory(), (0, p), (1, p), [1]);
  }

  lemma SecondDiffers(before: map<Leaf, Data>, after: map<Leaf, Data>, x: Leaf, y: Leaf, d: Data)
    requires before.Keys == after.Keys == {x, y} && after[x] == d && after != before[x := d]
    ensures after[y] != before[y]
  {
  }

  lemma SharedByTwo(ptes: map<Leaf, Pte>, mem: map<nat, Data>, refcnt: map<nat, int>, refs: map<nat, set<Leaf>>, x: Leaf, y: Leaf)
    requires Sound(ptes, mem, refcnt, refs) && x in ptes && y in ptes && x != y && ptes[x].pfn == ptes[y].pfn
    ensures ptes[x].pfn in refcnt && refcnt[ptes[x].pfn] != 1
  {
    if refcnt[ptes[x].pfn] == 1 {
      SoleLeaf(ptes, mem, refcnt, refs, x, y);
    }
  }
}
