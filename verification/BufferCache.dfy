/**
 The block buffer cache of src/fs/bio.c as interleaved steps of any number of threads: bget under the cache lock,
 the per-buffer semaphore, bread, bwrite, bwback and brelse, over an abstract disk.
 */
module BufferCache {
  import opened Common
  import opened Counting

  type Tid = nat
  type Bid = nat
  type Data = seq<int>

  /** Device and block number. */
  type Block = (nat, nat)

  /** `tokens` are those of sem_lock (`Semaphore.RunRefines`); `released` records when the count last fell to zero, which no step reads. */
  datatype Buffer = Buffer(block: Block, valid: bool, dirty: bool, data: Data, refcnt: nat, tokens: nat, released: nat)

  datatype Pc =
    | Idle
    | Wants(b: Bid, blk: Block)                  // bget has counted the reference; in sema_wait on sem_lock
    | Got(b: Bid, blk: Block)                    // bget has returned the locked buffer to bread
    | Owner(b: Bid, blk: Block, pending: bool)   // bread has returned; pending: changed and not marked dirty since
    | Flushed(b: Bid, blk: Block)                // brelse, after the write-back
    | Released(b: Bid, blk: Block)               // brelse, after sema_signal
    | Panicked                                   // "bget: no buffers"

  /** `flat` is the disk as its users mean it: it changes when the owner of a block changes the data. No step reads it. */
  datatype State = State(bufs: map<Bid, Buffer>, lru: seq<Bid>, disk: map<Block, Data>, flat: map<Block, Data>,
                         pcs: map<Tid, Pc>, clock: nat)

  const ZEROES: Data := []

  function On(disk: map<Block, Data>, blk: Block): Data
  {
    if blk in disk then disk[blk] else ZEROES
  }

  // ---------------------------------------------------------------- bget's two searches

  /** The first buffer from the front of the list that holds the block, or |lru|. */
  function Hit(lru: seq<Bid>, bufs: map<Bid, Buffer>, blk: Block): (i: nat)
    ensures i <= |lru|
    ensures i < |lru| ==> lru[i] in bufs && bufs[lru[i]].block == blk
    ensures forall j :: 0 <= j < i && lru[j] in bufs ==> bufs[lru[j]].block != blk
  {
    if lru == [] then 0
    else if lru[0] in bufs && bufs[lru[0]].block == blk then 0
    else 1 + Hit(lru[1..], bufs, blk)
  }

  /** The last unreferenced buffer of the list, or -1. */
  function Victim(lru: seq<Bid>, bufs: map<Bid, Buffer>): (i: int)
    ensures -1 <= i < |lru|
    ensures i >= 0 ==> lru[i] in bufs && bufs[lru[i]].refcnt == 0
    ensures forall j :: i < j < |lru| && lru[j] in bufs ==> bufs[lru[j]].refcnt != 0
  {
    if lru == [] then -1
    else
      var k := |lru| - 1;
      if lru[k] in bufs && bufs[lru[k]].refcnt == 0 then k else Victim(lru[..k], bufs)
  }

  /** The cache under `bcache.lock`. */
  class Bcache {
    var bufs: map<Bid, Buffer>
    var lru: seq<Bid>

    /** `bget` up to the release of the cache lock. */
    method Bget(blk: Block) returns (b: int)
      requires forall i :: 0 <= i < |lru| ==> lru[i] in bufs
      modifies `bufs
      ensures b >= 0 ==> Available(old(bufs), lru, blk) && (b, bufs) == Claimed(old(bufs), lru, blk)
      ensures b < 0 ==> bufs == old(bufs) && !Available(bufs, lru, blk)
    {
      var i := 0;
      while i < |lru|
        invariant i <= |lru| && i <= Hit(lru, bufs, blk) && bufs == old(bufs)
      {
        HitFrom(lru, bufs, blk, i);
        if bufs[lru[i]].block == blk {
          var x := bufs[lru[i]];
          bufs := bufs[lru[i] := x.(refcnt := x.refcnt + 1)];
          return lru[i];
        }
        i := i + 1;
      }
      i := |lru|;
      while i > 0
        invariant 0 <= i <= |lru| && Victim(lru, bufs) < i && bufs == old(bufs)
      {
        i := i - 1;
        VictimFrom(lru, bufs, i);
        if bufs[lru[i]].refcnt == 0 {
          var x := bufs[lru[i]];
          bufs := bufs[lru[i] := x.(block := blk, valid := false, refcnt := 1)];
          return lru[i];
        }
      }
      return -1;
    }
  }

  lemma HitFrom(lru: seq<Bid>, bufs: map<Bid, Buffer>, blk: Block, i: nat)
    requires i < |lru| && i <= Hit(lru, bufs, blk)
    ensures Hit(lru, bufs, blk) == i <==> lru[i] in bufs && bufs[lru[i]].block == blk
  {
  }

  lemma VictimFrom(lru: seq<Bid>, bufs: map<Bid, Buffer>, i: nat)
    requires i < |lru| && Victim(lru, bufs) <= i
    ensures Victim(lru, bufs) == i <==> lru[i] in bufs && bufs[lru[i]].refcnt == 0
  {
  }

  /** The block is cached, or there is a buffer to recycle. */
  predicate Available(bufs: map<Bid, Buffer>, lru: seq<Bid>, blk: Block)
  {
    Hit(lru, bufs, blk) < |lru| || Victim(lru, bufs) >= 0
  }

  /** The buffer `bget` claims and the table afterwards: a hit gains a reference, a miss recycles. */
  function Claimed(bufs: map<Bid, Buffer>, lru: seq<Bid>, blk: Block): (int, map<Bid, Buffer>)
    requires Available(bufs, lru, blk)
  {
    var i := Hit(lru, bufs, blk);
    if i < |lru| then
      (lru[i], bufs[lru[i] := bufs[lru[i]].(refcnt := bufs[lru[i]].refcnt + 1)])
    else
      var v := lru[Victim(lru, bufs)];
      (v, bufs[v := bufs[v].(block := blk, valid := false, refcnt := 1)])
  }

  // ---------------------------------------------------------------- steps

  datatype Event = Get(t: Tid, blk: Block) | Lock(t: Tid) | Load(t: Tid) | Change(t: Tid, d: Data) | Write(t: Tid)
                 | Back(t: Tid) | Flush(t: Tid) | Unlock(t: Tid) | Drop(t: Tid)

  predicate Enabled(s: State, e: Event)
  {
    && e.t in s.pcs
    && match e
       case Get(t, blk) => s.pcs[t].Idle? && blk.0 != 0
       case Lock(t) => s.pcs[t].Wants? && s.pcs[t].b in s.bufs && s.bufs[s.pcs[t].b].tokens > 0
       case Load(t) => s.pcs[t].Got? && s.pcs[t].b in s.bufs
       case Change(t, _) => s.pcs[t].Owner? && s.pcs[t].b in s.bufs
       case Write(t) => s.pcs[t].Owner? && s.pcs[t].b in s.bufs
       case Back(t) => s.pcs[t].Owner? && s.pcs[t].b in s.bufs
       case Flush(t) => s.pcs[t].Owner? && !s.pcs[t].pending && s.pcs[t].b in s.bufs
       case Unlock(t) => s.pcs[t].Flushed? && s.pcs[t].b in s.bufs
       case Drop(t) => s.pcs[t].Released? && s.pcs[t].b in s.bufs && s.bufs[s.pcs[t].b].refcnt > 0
  }

  function Move(s: State, t: Tid, pc: Pc): State
  {
    s.(pcs := s.pcs[t := pc])
  }

  function SetBuf(s: State, b: Bid, x: Buffer): State
  {
    s.(bufs := s.bufs[b := x])
  }

  function Apply(s: State, e: Event): State
    requires Enabled(s, e)
  {
    var t := e.t;
    match e
    case Get(_, blk) =>
      if !Available(s.bufs, s.lru, blk) then Move(s, t, Panicked)
      else
        var r := Claimed(s.bufs, s.lru, blk);
        Move(s, t, Wants(r.0, blk)).(bufs := r.1)
    case Lock(_) =>
      var x := s.bufs[s.pcs[t].b];
      SetBuf(Move(s, t, Got(s.pcs[t].b, s.pcs[t].blk)), s.pcs[t].b, x.(tokens := x.tokens - 1))
    case Load(_) =>
      var x := s.bufs[s.pcs[t].b];
      var x' := if x.valid then x else x.(data := On(s.disk, x.block), valid := true, dirty := false);
      SetBuf(Move(s, t, Owner(s.pcs[t].b, s.pcs[t].blk, false)), s.pcs[t].b, x')
    case Change(_, d) =>
      var x := s.bufs[s.pcs[t].b];
      SetBuf(Move(s, t, s.pcs[t].(pending := true)), s.pcs[t].b, x.(data := d)).(flat := s.flat[x.block := d])
    case Write(_) =>
      var x := s.bufs[s.pcs[t].b];
      SetBuf(Move(s, t, s.pcs[t].(pending := false)), s.pcs[t].b, x.(dirty := true))
    case Back(_) =>
      var x := s.bufs[s.pcs[t].b];
      if !x.dirty then s
      else
        SetBuf(Move(s, t, s.pcs[t].(pending := false)), s.pcs[t].b, x.(dirty := false))
        .(disk := s.disk[x.block := x.data])
    case Flush(_) =>
      var x := s.bufs[s.pcs[t].b];
      SetBuf(Move(s, t, Flushed(s.pcs[t].b, s.pcs[t].blk)), s.pcs[t].b, x.(dirty := false))
      .(disk := if x.dirty then s.disk[x.block := x.data] else s.disk)
    case Unlock(_) =>
      var x := s.bufs[s.pcs[t].b];
      SetBuf(Move(s, t, Released(s.pcs[t].b, s.pcs[t].blk)), s.pcs[t].b, x.(tokens := x.tokens + 1))
    case Drop(_) =>
      var b := s.pcs[t].b;
      var x := s.bufs[b];
      if x.refcnt == 1 then
        SetBuf(Move(s, t, Idle), b, x.(refcnt := 0, released := s.clock + 1))
        .(lru := [b] + Without(s.lru, b), clock := s.clock + 1)
      else
        SetBuf(Move(s, t, Idle), b, x.(refcnt := x.refcnt - 1))
  }

  ghost predicate Reaches(start: State, events: seq<Event>, s: State)
  {
    if events == [] then s == start
    else
      var k := |events| - 1;
      exists mid :: Reaches(start, events[..k], mid) && Enabled(mid, events[k]) && s == Apply(mid, events[k])
  }

  /** `binit`: static buffers, zeroed. */
  ghost predicate Init(s: State)
  {
    && Distinct(s.lru) && (forall b :: b in s.bufs <==> b in s.lru)
    && (forall b :: b in s.bufs ==> s.bufs[b] == Buffer((0, 0), false, false, ZEROES, 0, 1, 0))
    && s.flat == s.disk && s.clock == 0 && forall t :: t in s.pcs ==> s.pcs[t] == Idle
  }

  // ---------------------------------------------------------------- invariants

  predicate Uses(pc: Pc, b: Bid)
  {
    !pc.Idle? && !pc.Panicked? && pc.b == b
  }

  predicate Locked(pc: Pc, b: Bid)
  {
    (pc.Got? || pc.Owner? || pc.Flushed?) && pc.b == b
  }

  ghost function Users(pcs: map<Tid, Pc>, b: Bid): set<Tid>
  {
    set t | t in pcs && Uses(pcs[t], b)
  }

  ghost function Holders(pcs: map<Tid, Pc>, b: Bid): set<Tid>
  {
    set t | t in pcs && Locked(pcs[t], b)
  }

  /** References are counted and the semaphore admits one thread. */
  ghost predicate CountOk(bufs: map<Bid, Buffer>, pcs: map<Tid, Pc>)
  {
    forall b :: b in bufs ==> bufs[b].refcnt == |Users(pcs, b)| && bufs[b].tokens + |Holders(pcs, b)| == 1
  }

  /** The list holds every buffer once, the most recently released first. */
  ghost predicate LruOk(lru: seq<Bid>, bufs: map<Bid, Buffer>, clock: nat)
  {
    && Distinct(lru)
    && (forall b :: b in bufs <==> b in lru)
    && (forall i, j :: 0 <= i < j < |lru| ==> bufs[lru[i]].released >= bufs[lru[j]].released)
    && (forall b :: b in bufs ==> bufs[b].released <= clock)
  }

  /** No block of a real device is in two buffers. */
  ghost predicate Unique(bufs: map<Bid, Buffer>)
  {
    forall a, b :: a in bufs && b in bufs && bufs[a].block == bufs[b].block && bufs[a].block.0 != 0 ==> a == b
  }

  /** A thread has to do with a buffer of the block it asked for. */
  predicate PcOk(pc: Pc, bufs: map<Bid, Buffer>)
  {
    (pc.Idle? || pc.Panicked?) ||
    (&& pc.b in bufs && bufs[pc.b].block == pc.blk && pc.blk.0 != 0
     && (pc.Owner? || pc.Flushed? ==> bufs[pc.b].valid)
     && (pc.Flushed? ==> !bufs[pc.b].dirty))
  }

  ghost predicate PcsOk(pcs: map<Tid, Pc>, bufs: map<Bid, Buffer>)
  {
    forall t :: t in pcs ==> PcOk(pcs[t], bufs)
  }

  /** The owner has changed the data, and not yet said so or not yet written it back. */
  ghost predicate Unsaved(b: Bid, x: Buffer, pcs: map<Tid, Pc>)
  {
    x.dirty || exists t :: t in pcs && pcs[t].Owner? && pcs[t].b == b && pcs[t].pending
  }

  /** A valid buffer is the flat disk's block; unless it is unsaved it is also the real disk's. Only an owner dirties it. */
  ghost predicate BufOk(b: Bid, x: Buffer, s: State)
  {
    && (x.dirty ==> x.valid && exists t :: t in s.pcs && s.pcs[t].Owner? && s.pcs[t].b == b)
    && (x.valid ==> x.block.0 != 0 && x.data == On(s.flat, x.block))
    && (x.valid && !Unsaved(b, x, s.pcs) ==> x.data == On(s.disk, x.block))
  }

  ghost predicate BufsOk(s: State)
  {
    forall b :: b in s.bufs ==> BufOk(b, s.bufs[b], s)
  }

  /** A block in no valid buffer is on the real disk. */
  ghost predicate RestOk(s: State)
  {
    forall blk: Block :: blk.0 != 0 && (forall b :: b in s.bufs && s.bufs[b].valid ==> s.bufs[b].block != blk) ==>
      On(s.flat, blk) == On(s.disk, blk)
  }

  ghost predicate Inv(s: State)
  {
    && CountOk(s.bufs, s.pcs) && LruOk(s.lru, s.bufs, s.clock) && Unique(s.bufs) && PcsOk(s.pcs, s.bufs)
    && BufsOk(s) && RestOk(s)
  }

  // ---------------------------------------------------------------- counting

  lemma CountsMoved(pcs: map<Tid, Pc>, t: Tid, pc: Pc, b: Bid)
    requires t in pcs
    ensures |Users(pcs[t := pc], b)| == |Users(pcs, b)| - One(Uses(pcs[t], b)) + One(Uses(pc, b))
    ensures |Holders(pcs[t := pc], b)| == |Holders(pcs, b)| - One(Locked(pcs[t], b)) + One(Locked(pc, b))
    ensures Uses(pcs[t], b) ==> |Users(pcs, b)| > 0
  {
    Delta(Users(pcs, b), Users(pcs[t := pc], b), t);
    Delta(Holders(pcs, b), Holders(pcs[t := pc], b), t);
  }

  /** A thread moves and its buffer's counters follow. */
  lemma CountStep(bufs: map<Bid, Buffer>, pcs: map<Tid, Pc>, t: Tid, pc: Pc, b: Bid, x: Buffer)
    requires CountOk(bufs, pcs) && t in pcs && b in bufs
    requires forall c :: c != b ==> !Uses(pcs[t], c) && !Uses(pc, c)
    requires x.refcnt == bufs[b].refcnt - One(Uses(pcs[t], b)) + One(Uses(pc, b))
    requires x.tokens == bufs[b].tokens + One(Locked(pcs[t], b)) - One(Locked(pc, b))
    ensures CountOk(bufs[b := x], pcs[t := pc])
  {
    hide Users, Holders;
    forall c | c in bufs
      ensures var y := bufs[b := x][c]; y.refcnt == |Users(pcs[t := pc], c)| && y.tokens + |Holders(pcs[t := pc], c)| == 1
    {
      CountsMoved(pcs, t, pc, c);
      if c != b {
        assert !Uses(pcs[t], c) && !Uses(pc, c);
      }
    }
  }

  /** Two threads that have locked one buffer are the same. */
  lemma OneHolder(bufs: map<Bid, Buffer>, pcs: map<Tid, Pc>, t: Tid, u: Tid, b: Bid)
    requires CountOk(bufs, pcs) && b in bufs && t in pcs && u in pcs && Locked(pcs[t], b) && Locked(pcs[u], b)
    ensures t == u
  {
    if t != u {
      assert {t, u} <= Holders(pcs, b);
      Subset({t, u}, Holders(pcs, b));
    }
  }

  lemma NoUsers(bufs: map<Bid, Buffer>, pcs: map<Tid, Pc>, b: Bid)
    requires CountOk(bufs, pcs) && b in bufs && bufs[b].refcnt == 0
    ensures forall t :: t in pcs ==> !Uses(pcs[t], b)
  {
    assert Users(pcs, b) == {};
    forall t | t in pcs
      ensures !Uses(pcs[t], b)
    {
      assert t !in Users(pcs, b);
    }
  }

  // ---------------------------------------------------------------- steps on the thread's own buffer

  /** The step keeps the buffer's name and place in the list. */
  predicate InPlace(was: Buffer, now: Buffer)
  {
    now.block == was.block && now.released == was.released
  }

  lemma PlaceKept(s: State, b: Bid, x: Buffer)
    requires LruOk(s.lru, s.bufs, s.clock) && Unique(s.bufs) && b in s.bufs && InPlace(s.bufs[b], x)
    ensures LruOk(s.lru, s.bufs[b := x], s.clock) && Unique(s.bufs[b := x])
  {
  }

  lemma PcsKept(pcs: map<Tid, Pc>, bufs: map<Bid, Buffer>, t: Tid, pc: Pc, b: Bid, x: Buffer)
    requires PcsOk(pcs, bufs) && CountOk(bufs, pcs) && t in pcs && b in bufs && InPlace(bufs[b], x)
    requires bufs[b].valid ==> x.valid
    requires x.dirty && !bufs[b].dirty ==> Locked(pcs[t], b)
    requires PcOk(pc, bufs[b := x])
    ensures PcsOk(pcs[t := pc], bufs[b := x])
  {
    hide CountOk;
    forall u | u in pcs && u != t
      ensures PcOk(pcs[u], bufs[b := x])
    {
      if Locked(pcs[u], b) && Locked(pcs[t], b) {
        OneHolder(bufs, pcs, t, u, b);
        assert false;
      }
    }
  }

  predicate SameData(was: Buffer, now: Buffer)
  {
    now.block == was.block && now.valid == was.valid && now.dirty == was.dirty && now.data == was.data
  }

  /** Steps that touch no data, by a thread that is not an owner. */
  lemma QuietData(s: State, s': State, t: Tid, b: Bid)
    requires BufsOk(s) && RestOk(s) && b in s.bufs && t in s.pcs && s'.disk == s.disk && s'.flat == s.flat
    requires b in s'.bufs && s'.bufs == s.bufs[b := s'.bufs[b]] && SameData(s.bufs[b], s'.bufs[b])
    requires t in s'.pcs && s'.pcs == s.pcs[t := s'.pcs[t]] && !s.pcs[t].Owner? && !s'.pcs[t].Owner?
    ensures BufsOk(s') && RestOk(s')
  {
    hide RestOk;
    forall a | a in s'.bufs
      ensures BufOk(a, s'.bufs[a], s')
    {
      assert BufOk(a, s.bufs[a], s);
      if s.bufs[a].dirty {
        var u :| u in s.pcs && s.pcs[u].Owner? && s.pcs[u].b == a;
        assert s'.pcs[u].Owner? && s'.pcs[u].b == a;
      }
      UnsavedSame(a, s.bufs[a], s'.bufs[a], s.pcs, s'.pcs, t);
    }
    QuietRest(s, s', b);
  }

  lemma UnsavedSame(a: Bid, x: Buffer, x': Buffer, pcs: map<Tid, Pc>, pcs': map<Tid, Pc>, t: Tid)
    requires x'.dirty == x.dirty && t in pcs && t in pcs' && pcs' == pcs[t := pcs'[t]]
    requires !(pcs[t].Owner? && pcs[t].b == a) && !(pcs'[t].Owner? && pcs'[t].b == a)
    ensures Unsaved(a, x, pcs) <==> Unsaved(a, x', pcs')
  {
    if Unsaved(a, x, pcs) && !x.dirty {
      var u :| u in pcs && pcs[u].Owner? && pcs[u].b == a && pcs[u].pending;
      assert u in pcs' && pcs'[u].Owner? && pcs'[u].b == a && pcs'[u].pending;
    }
    if Unsaved(a, x', pcs') && !x.dirty {
      var u :| u in pcs' && pcs'[u].Owner? && pcs'[u].b == a && pcs'[u].pending;
      assert u in pcs && pcs[u].Owner? && pcs[u].b == a && pcs[u].pending;
    }
  }

  lemma QuietRest(s: State, s': State, b: Bid)
    requires RestOk(s) && b in s.bufs && s'.disk == s.disk && s'.flat == s.flat
    requires b in s'.bufs && s'.bufs == s.bufs[b := s'.bufs[b]]
    requires s.bufs[b].valid ==> s'.bufs[b].valid && s'.bufs[b].block == s.bufs[b].block
    ensures RestOk(s')
  {
    forall blk: Block | blk.0 != 0 && (forall a :: a in s'.bufs && s'.bufs[a].valid ==> s'.bufs[a].block != blk)
      ensures On(s'.flat, blk) == On(s'.disk, blk)
    {
      forall a | a in s.bufs && s.bufs[a].valid
        ensures s.bufs[a].block != blk
      {
        assert a in s'.bufs && s'.bufs[a].valid;
      }
    }
  }

  /** Only the holder could have unsaved changes. */
  lemma HolderSaves(s: State, t: Tid, b: Bid)
    requires CountOk(s.bufs, s.pcs) && t in s.pcs && Locked(s.pcs[t], b) && b in s.bufs
    requires s.pcs[t].Owner? ==> !s.pcs[t].pending
    ensures Unsaved(b, s.bufs[b], s.pcs) <==> s.bufs[b].dirty
  {
    hide CountOk;
    forall u | u in s.pcs && s.pcs[u].Owner? && s.pcs[u].b == b
      ensures u == t
    {
      OneHolder(s.bufs, s.pcs, t, u, b);
    }
  }

  /** What an uncached block reads from the disk is what its users mean. */
  lemma MissReadsFlat(s: State, b: Bid)
    requires Unique(s.bufs) && RestOk(s) && b in s.bufs && !s.bufs[b].valid && s.bufs[b].block.0 != 0
    ensures On(s.disk, s.bufs[b].block) == On(s.flat, s.bufs[b].block)
  {
    var blk := s.bufs[b].block;
    assert forall a :: a in s.bufs && s.bufs[a].valid ==> s.bufs[a].block != blk;
  }

  lemma LoadData(s: State, e: Event)
    requires Inv(s) && Enabled(s, e) && e.Load?
    ensures BufsOk(Apply(s, e)) && RestOk(Apply(s, e))
  {
    hide CountOk, LruOk, RestOk, Unsaved;
    var s', t := Apply(s, e), e.t;
    var b := s.pcs[t].b;
    assert PcOk(s.pcs[t], s.bufs) && BufOk(b, s.bufs[b], s);
    HolderSaves(s, t, b);
    CountStep(s.bufs, s.pcs, t, s'.pcs[t], b, s'.bufs[b]);
    HolderSaves(s', t, b);
    if !s.bufs[b].valid {
      MissReadsFlat(s, b);
    }
    QuietRest(s, s', b);
    OthersKept(s, s', t, b);
  }

  /** A step of an owner or owner-to-be leaves the other buffers' facts alone. */
  lemma OthersKept(s: State, s': State, t: Tid, b: Bid)
    requires BufsOk(s) && Unique(s.bufs) && b in s.bufs && b in s'.bufs && s'.bufs == s.bufs[b := s'.bufs[b]]
    requires t in s.pcs && t in s'.pcs && s'.pcs == s.pcs[t := s'.pcs[t]]
    requires forall a :: a != b ==> !Uses(s.pcs[t], a) && !Uses(s'.pcs[t], a)
    requires s.bufs[b].block.0 != 0
    requires forall blk: Block :: blk != s.bufs[b].block ==> On(s'.flat, blk) == On(s.flat, blk) && On(s'.disk, blk) == On(s.disk, blk)
    requires BufOk(b, s'.bufs[b], s')
    ensures BufsOk(s')
  {
    forall a | a in s'.bufs && a != b
      ensures BufOk(a, s'.bufs[a], s')
    {
      assert BufOk(a, s.bufs[a], s) && s'.bufs[a] == s.bufs[a];
      assert !Uses(s.pcs[t], a) && !Uses(s'.pcs[t], a);
      if s.bufs[a].dirty {
        var u :| u in s.pcs && s.pcs[u].Owner? && s.pcs[u].b == a;
        assert u in s'.pcs && s'.pcs[u].Owner? && s'.pcs[u].b == a;
      }
      UnsavedSame(a, s.bufs[a], s.bufs[a], s.pcs, s'.pcs, t);
    }
  }

  /** While a block is in a valid buffer, the rest of the disk is untouched by writes to it. */
  lemma RestKept(s: State, s': State, b: Bid)
    requires RestOk(s) && b in s.bufs && b in s'.bufs && s'.bufs == s.bufs[b := s'.bufs[b]]
    requires s.bufs[b].valid && s'.bufs[b].valid && s'.bufs[b].block == s.bufs[b].block
    requires forall blk: Block :: blk != s.bufs[b].block ==> On(s'.flat, blk) == On(s.flat, blk) && On(s'.disk, blk) == On(s.disk, blk)
    ensures RestOk(s')
  {
    forall blk: Block | blk.0 != 0 && (forall a :: a in s'.bufs && s'.bufs[a].valid ==> s'.bufs[a].block != blk)
      ensures On(s'.flat, blk) == On(s'.disk, blk)
    {
      forall a | a in s.bufs && s.bufs[a].valid
        ensures s.bufs[a].block != blk
      {
        assert a in s'.bufs && s'.bufs[a].valid;
      }
      assert blk != s.bufs[b].block;
    }
  }

  lemma ChangeData(s: State, e: Event)
    requires Inv(s) && Enabled(s, e) && (e.Change? || e.Write?)
    ensures BufsOk(Apply(s, e)) && RestOk(Apply(s, e))
  {
    hide CountOk, LruOk, RestOk;
    var s', t := Apply(s, e), e.t;
    var b := s.pcs[t].b;
    assert PcOk(s.pcs[t], s.bufs) && BufOk(b, s.bufs[b], s);
    assert t in s'.pcs && s'.pcs[t].Owner? && s'.pcs[t].b == b;
    OthersKept(s, s', t, b);
    RestKept(s, s', b);
  }

  lemma FlushData(s: State, e: Event)
    requires Inv(s) && Enabled(s, e) && e.Flush?
    ensures BufsOk(Apply(s, e)) && RestOk(Apply(s, e))
  {
    hide CountOk, LruOk, RestOk, Unsaved;
    var s', t := Apply(s, e), e.t;
    var b := s.pcs[t].b;
    assert PcOk(s.pcs[t], s.bufs) && BufOk(b, s.bufs[b], s);
    HolderSaves(s, t, b);
    OthersKept(s, s', t, b);
    RestKept(s, s', b);
  }

  lemma BackData(s: State, e: Event)
    requires Inv(s) && Enabled(s, e) && e.Back? && s.bufs[s.pcs[e.t].b].dirty
    ensures BufsOk(Apply(s, e)) && RestOk(Apply(s, e))
  {
    hide CountOk, LruOk, RestOk, Unsaved;
    var s', t := Apply(s, e), e.t;
    var b := s.pcs[t].b;
    assert PcOk(s.pcs[t], s.bufs) && BufOk(b, s.bufs[b], s);
    OthersKept(s, s', t, b);
    RestKept(s, s', b);
  }

  lemma GetData(s: State, e: Event)
    requires Inv(s) && Enabled(s, e) && e.Get? && Available(s.bufs, s.lru, e.blk) && Hit(s.lru, s.bufs, e.blk) == |s.lru|
    ensures BufsOk(Apply(s, e)) && RestOk(Apply(s, e))
  {
    hide CountOk, LruOk;
    var s', t := Apply(s, e), e.t;
    var v := s.lru[Victim(s.lru, s.bufs)];
    var x := s.bufs[v];
    NoUsers(s.bufs, s.pcs, v);
    assert BufOk(v, x, s);
    assert !x.dirty && !Unsaved(v, x, s.pcs);
    RecycleRest(s, s', v);
    forall a | a in s'.bufs
      ensures BufOk(a, s'.bufs[a], s')
    {
      assert BufOk(a, s.bufs[a], s);
      if s.bufs[a].dirty {
        var u :| u in s.pcs && s.pcs[u].Owner? && s.pcs[u].b == a;
        assert s'.pcs[u].Owner? && s'.pcs[u].b == a;
      }
      UnsavedSame(a, s.bufs[a], s'.bufs[a], s.pcs, s'.pcs, t);
    }
  }

  lemma RecycleRest(s: State, s': State, v: Bid)
    requires RestOk(s) && v in s.bufs && s'.disk == s.disk && s'.flat == s.flat
    requires v in s'.bufs && s'.bufs == s.bufs[v := s'.bufs[v]] && !s'.bufs[v].valid
    requires s.bufs[v].valid ==> On(s.flat, s.bufs[v].block) == On(s.disk, s.bufs[v].block)
    ensures RestOk(s')
  {
    forall blk: Block | blk.0 != 0 && (forall a :: a in s'.bufs && s'.bufs[a].valid ==> s'.bufs[a].block != blk)
      ensures On(s'.flat, blk) == On(s'.disk, blk)
    {
      if !(s.bufs[v].valid && s.bufs[v].block == blk) {
        forall a | a in s.bufs && s.bufs[a].valid
          ensures s.bufs[a].block != blk
        {
          assert a != v ==> a in s'.bufs && s'.bufs[a].valid;
        }
      }
    }
  }

  // ---------------------------------------------------------------- every step keeps the invariants

  /** Everything but Get and the last Drop: one thread, its own buffer, nothing renamed or moved in the list. */
  lemma OwnKeeps(s: State, e: Event)
    requires Inv(s) && Enabled(s, e) && !e.Get? && (e.Back? ==> s.bufs[s.pcs[e.t].b].dirty) && (e.Drop? ==> s.bufs[s.pcs[e.t].b].refcnt != 1)
    ensures Inv(Apply(s, e))
  {
    hide CountOk, LruOk, Unique, BufsOk, RestOk;
    var s', t := Apply(s, e), e.t;
    var b := s.pcs[t].b;
    assert PcOk(s.pcs[t], s.bufs);
    CountStep(s.bufs, s.pcs, t, s'.pcs[t], b, s'.bufs[b]);
    PlaceKept(s, b, s'.bufs[b]);
    PcsKept(s.pcs, s.bufs, t, s'.pcs[t], b, s'.bufs[b]);
    if e.Load? {
      LoadData(s, e);
    } else if e.Change? || e.Write? {
      ChangeData(s, e);
    } else if e.Back? {
      BackData(s, e);
    } else if e.Flush? {
      FlushData(s, e);
    } else {
      QuietData(s, s', t, b);
    }
  }

  /** Taking an element out keeps the order of the others. */
  lemma {:induction false} WithoutSorted(q: seq<Bid>, b: Bid, bufs: map<Bid, Buffer>)
    requires forall a :: a in q ==> a in bufs
    requires forall i, j :: 0 <= i < j < |q| ==> bufs[q[i]].released >= bufs[q[j]].released
    ensures forall a :: a in Without(q, b) ==> a in q
    ensures forall i, j :: 0 <= i < j < |Without(q, b)| ==> bufs[Without(q, b)[i]].released >= bufs[Without(q, b)[j]].released
  {
    if q != [] && q[0] != b {
      var rest := q[1..];
      assert q == [q[0]] + rest;
      WithoutSorted(rest, b, bufs);
      var w := Without(rest, b);
      forall j | 0 <= j < |w|
        ensures bufs[q[0]].released >= bufs[w[j]].released
      {
        assert w[j] in rest;
        var k :| 0 <= k < |rest| && rest[k] == w[j];
        assert q[k + 1] == w[j];
      }
    }
  }

  lemma DropLru(lru: seq<Bid>, bufs: map<Bid, Buffer>, clock: nat, b: Bid, x: Buffer)
    requires LruOk(lru, bufs, clock) && b in bufs && x.released == clock + 1
    ensures LruOk([b] + Without(lru, b), bufs[b := x], clock + 1)
  {
    var w := Without(lru, b);
    WithoutMembers(lru, b);
    WithoutSorted(lru, b, bufs);
    forall j | 0 <= j < |w|
      ensures w[j] in bufs && w[j] != b
    {
      assert w[j] in w;
    }
  }

  lemma DropKeeps(s: State, e: Event)
    requires Inv(s) && Enabled(s, e) && e.Drop? && s.bufs[s.pcs[e.t].b].refcnt == 1
    ensures Inv(Apply(s, e))
  {
    hide CountOk, LruOk, BufsOk, RestOk, Without;
    var s', t := Apply(s, e), e.t;
    var b := s.pcs[t].b;
    assert PcOk(s.pcs[t], s.bufs);
    CountStep(s.bufs, s.pcs, t, s'.pcs[t], b, s'.bufs[b]);
    DropLru(s.lru, s.bufs, s.clock, b, s'.bufs[b]);
    QuietData(s, s', t, b);
  }

  lemma RecyclePlace(s: State, blk: Block, v: Bid, x: Buffer)
    requires LruOk(s.lru, s.bufs, s.clock) && Unique(s.bufs) && Hit(s.lru, s.bufs, blk) == |s.lru|
    requires v in s.bufs && x.block == blk && x.released == s.bufs[v].released
    ensures LruOk(s.lru, s.bufs[v := x], s.clock) && Unique(s.bufs[v := x])
  {
    hide Hit;
    forall b | b in s.bufs
      ensures s.bufs[b].block != blk
    {
      assert b in s.lru;
    }
  }

  lemma GetPlace(s: State, blk: Block)
    requires LruOk(s.lru, s.bufs, s.clock) && Unique(s.bufs) && Available(s.bufs, s.lru, blk)
    ensures var r := Claimed(s.bufs, s.lru, blk); r.0 in s.bufs && LruOk(s.lru, r.1, s.clock) && Unique(r.1)
  {
    hide LruOk, Unique;
    var r := Claimed(s.bufs, s.lru, blk);
    if Hit(s.lru, s.bufs, blk) == |s.lru| {
      RecyclePlace(s, blk, r.0, r.1[r.0]);
    } else {
      PlaceKept(s, r.0, r.1[r.0]);
    }
  }

  lemma GetKeeps(s: State, e: Event)
    requires Inv(s) && Enabled(s, e) && e.Get? && Available(s.bufs, s.lru, e.blk)
    ensures Inv(Apply(s, e))
  {
    hide CountOk, LruOk, Unique, BufsOk, RestOk;
    var s', t := Apply(s, e), e.t;
    var b := s'.pcs[t].b;
    GetPlace(s, e.blk);
    assert s'.bufs == s.bufs[b := s'.bufs[b]];
    CountStep(s.bufs, s.pcs, t, s'.pcs[t], b, s'.bufs[b]);
    if Hit(s.lru, s.bufs, e.blk) < |s.lru| {
      PcsKept(s.pcs, s.bufs, t, s'.pcs[t], b, s'.bufs[b]);
      QuietData(s, s', t, b);
    } else {
      GetData(s, e);
      NoUsers(s.bufs, s.pcs, b);
    }
  }

  lemma RestSame(s: State, s': State)
    requires RestOk(s) && s'.bufs == s.bufs && s'.disk == s.disk && s'.flat == s.flat
    ensures RestOk(s')
  {
  }

  lemma PanicKeeps(s: State, e: Event)
    requires Inv(s) && Enabled(s, e) && e.Get? && !Available(s.bufs, s.lru, e.blk)
    ensures Inv(Apply(s, e))
  {
    hide LruOk, Unique, RestOk, Hit, Victim, Unsaved;
    var s', t := Apply(s, e), e.t;
    RestSame(s, s');
    forall b | b in s.bufs
      ensures Users(s'.pcs, b) == Users(s.pcs, b) && Holders(s'.pcs, b) == Holders(s.pcs, b) && BufOk(b, s'.bufs[b], s')
    {
      assert BufOk(b, s.bufs[b], s);
      if s.bufs[b].dirty {
        var u :| u in s.pcs && s.pcs[u].Owner? && s.pcs[u].b == b;
        assert s'.pcs[u].Owner? && s'.pcs[u].b == b;
      }
      UnsavedSame(b, s.bufs[b], s.bufs[b], s.pcs, s'.pcs, t);
    }
  }

  lemma StepKeeps(s: State, e: Event)
    requires Inv(s) && Enabled(s, e)
    ensures Inv(Apply(s, e))
  {
    hide Inv;
    if e.Get? {
      if Available(s.bufs, s.lru, e.blk) {
        GetKeeps(s, e);
      } else {
        PanicKeeps(s, e);
      }
    } else if e.Drop? && s.bufs[s.pcs[e.t].b].refcnt == 1 {
      DropKeeps(s, e);
    } else if !e.Back? || s.bufs[s.pcs[e.t].b].dirty {
      OwnKeeps(s, e);
    }
  }

  // ---------------------------------------------------------------- whole runs

  lemma {:induction false} Safety(start: State, events: seq<Event>, s: State)
    requires Init(start) && Reaches(start, events, s)
    ensures Inv(s)
  {
    hide Enabled, Apply;
    if events != [] {
      var k := |events| - 1;
      var mid :| Reaches(start, events[..k], mid) && Enabled(mid, events[k]) && s == Apply(mid, events[k]);
      Safety(start, events[..k], mid);
      StepKeeps(mid, events[k]);
    } else {
      assert forall b :: b in s.bufs ==> Users(s.pcs, b) == {} && Holders(s.pcs, b) == {};
    }
  }

  /** Whoever holds a block after bread sees exactly what a flat disk would hold, alone. */
  lemma Transparent(start: State, events: seq<Event>, s: State, t: Tid)
    requires Init(start) && Reaches(start, events, s) && t in s.pcs && s.pcs[t].Owner?
    ensures var b := s.pcs[t].b; b in s.bufs && s.bufs[b].block == s.pcs[t].blk && s.bufs[b].data == On(s.flat, s.pcs[t].blk)
    ensures forall u :: u in s.pcs && s.pcs[u].Owner? && s.pcs[u].blk == s.pcs[t].blk ==> u == t
  {
    Safety(start, events, s);
    hide LruOk, RestOk, CountOk;
    assert PcOk(s.pcs[t], s.bufs) && BufOk(s.pcs[t].b, s.bufs[s.pcs[t].b], s);
    forall u | u in s.pcs && s.pcs[u].Owner? && s.pcs[u].blk == s.pcs[t].blk
      ensures u == t
    {
      assert PcOk(s.pcs[u], s.bufs);
      OneHolder(s.bufs, s.pcs, t, u, s.pcs[t].b);
    }
  }

  /** No block sits in two buffers, and a valid buffer that nobody has locked equals its disk block. */
  lemma UnlockedIsClean(start: State, events: seq<Event>, s: State, b: Bid)
    requires Init(start) && Reaches(start, events, s) && b in s.bufs
    ensures forall a :: a in s.bufs && s.bufs[a].block == s.bufs[b].block && s.bufs[b].block.0 != 0 ==> a == b
    ensures s.bufs[b].tokens == 1 && s.bufs[b].valid ==> s.bufs[b].data == On(s.disk, s.bufs[b].block) && !s.bufs[b].dirty
    ensures s.bufs[b].refcnt == 0 ==> forall t :: t in s.pcs ==> !Uses(s.pcs[t], b)
  {
    Safety(start, events, s);
    assert BufOk(b, s.bufs[b], s);
    if s.bufs[b].tokens == 1 {
      assert Holders(s.pcs, b) == {};
      forall t | t in s.pcs
        ensures !Locked(s.pcs[t], b)
      {
        assert t !in Holders(s.pcs, b);
      }
    }
    if s.bufs[b].refcnt == 0 {
      NoUsers(s.bufs, s.pcs, b);
    }
  }

  /** Recycling takes the unreferenced buffer least recently released, and panics exactly when every buffer is referenced. */
  lemma RecyclesLeastRecent(start: State, events: seq<Event>, s: State, t: Tid, blk: Block)
    requires Init(start) && Reaches(start, events, s) && Enabled(s, Get(t, blk)) && Hit(s.lru, s.bufs, blk) == |s.lru|
    ensures Apply(s, Get(t, blk)).pcs[t] == Panicked <==> forall b :: b in s.bufs ==> s.bufs[b].refcnt > 0
    ensures Apply(s, Get(t, blk)).pcs[t].Wants? ==>
              var v := Apply(s, Get(t, blk)).pcs[t].b;
              v in s.bufs && s.bufs[v].refcnt == 0 && forall b :: b in s.bufs && s.bufs[b].refcnt == 0 ==> s.bufs[v].released <= s.bufs[b].released
  {
    hide CountOk, BufsOk, RestOk, Unique, Init;
    Safety(start, events, s);
    var i := Victim(s.lru, s.bufs);
    forall b | b in s.bufs && s.bufs[b].refcnt == 0
      ensures i >= 0 && s.bufs[s.lru[i]].released <= s.bufs[b].released
    {
      var j :| 0 <= j < |s.lru| && s.lru[j] == b;
    }
  }
}
