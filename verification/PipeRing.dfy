/**
 The ring buffer of a pipe (include/ipc/pipe.h, src/ipc/pipe.c): an array of PIPESIZE bytes and two 32-bit counters
 that only grow and wrap around.
 */
module PipeRing {

  const PIPESIZE := 512
  const WORD := 0x1_0000_0000

  type Byte = int

  /** 32-bit addition. */
  function Add(x: nat, y: nat): nat
  {
    (x + y) % WORD
  }

  /** How many bytes lie between two counters, whichever of them has wrapped around. */
  function Distance(nread: nat, nwrite: nat): nat
    requires nread < WORD && nwrite < WORD
  {
    if nwrite >= nread then nwrite - nread else nwrite + WORD - nread
  }

  lemma DistanceAdd(nread: nat, nwrite: nat, k: nat)
    requires nread < WORD && nwrite < WORD && k < WORD
    ensures Distance(nread, nwrite) == k <==> nwrite == Add(nread, k)
  {
  }

  lemma DistanceStep(nread: nat, nwrite: nat)
    requires nread < WORD && nwrite < WORD
    ensures Distance(nread, nwrite) < WORD - 1 ==> Distance(nread, Add(nwrite, 1)) == Distance(nread, nwrite) + 1
    ensures Distance(nread, nwrite) > 0 ==> Distance(Add(nread, 1), nwrite) == Distance(nread, nwrite) - 1
  {
  }

  /** The slot of the k-th byte after `n`. PIPESIZE divides 2^32, so a wrap-around does not disturb the order. */
  function Slot(n: nat, k: nat): (i: nat)
    ensures i < PIPESIZE
  {
    (n + k) % PIPESIZE
  }

  lemma SlotStep(n: nat, k: nat)
    requires n < WORD
    ensures Slot(Add(n, 1), k) == Slot(n, k + 1)
  {
  }

  lemma SlotEnd(nread: nat, nwrite: nat)
    requires nread < WORD && nwrite < WORD
    ensures nwrite % PIPESIZE == Slot(nread, Distance(nread, nwrite))
  {
  }

  lemma SlotDistinct(n: nat, j: nat, k: nat)
    requires j < k < j + PIPESIZE
    ensures Slot(n, j) != Slot(n, k)
  {
  }

  class Ring {
    const data: array<Byte>
    var nread: nat
    var nwrite: nat

    ghost predicate Valid()
      reads this
    {
      data.Length == PIPESIZE && nread < WORD && nwrite < WORD && Distance(nread, nwrite) <= PIPESIZE
    }

    /** The bytes written and not yet read, oldest first. */
    ghost function Contents(): (s: seq<Byte>)
      requires Valid()
      reads this, data
      ensures |s| == Distance(nread, nwrite)
    {
      seq(Distance(nread, nwrite), k requires 0 <= k reads this, data requires data.Length == PIPESIZE => data[Slot(nread, k)])
    }

    constructor ()
      ensures Valid() && Contents() == [] && fresh(data)
    {
      data := new Byte[PIPESIZE];
      nread, nwrite := 0, 0;
    }

    /** `PIPE_FULL`. */
    predicate IsFull()
      requires Valid()
      reads this, data
      ensures IsFull() <==> |Contents()| == PIPESIZE
    {
      DistanceAdd(nread, nwrite, PIPESIZE);
      nwrite == Add(nread, PIPESIZE)
    }

    /** `PIPE_EMPTY`. */
    predicate IsEmpty()
      requires Valid()
      reads this, data
      ensures IsEmpty() <==> Contents() == []
    {
      nread == nwrite
    }

    method Put(ch: Byte)
      requires Valid() && !IsFull()
      modifies this, data
      ensures Valid() && Contents() == old(Contents()) + [ch]
    {
      DistanceStep(nread, nwrite);
      SlotEnd(nread, nwrite);
      ghost var n := Distance(nread, nwrite);
      forall k | 0 <= k < n
        ensures Slot(nread, k) != Slot(nread, n)
      {
        SlotDistinct(nread, k, n);
      }
      data[nwrite % PIPESIZE] := ch;
      nwrite := Add(nwrite, 1);
    }

    method Get() returns (ch: Byte)
      requires Valid() && !IsEmpty()
      modifies `nread
      ensures Valid() && old(Contents()) == [ch] + Contents()
    {
      DistanceStep(nread, nwrite);
      forall k: nat
        ensures Slot(Add(nread, 1), k) == Slot(nread, k + 1)
      {
        SlotStep(nread, k);
      }
      ch := data[nread % PIPESIZE];
      nread := Add(nread, 1);
    }

    /** The part of `pipe_write` between two sleeps: bytes go in until they are used up, the ring is full, or the copy faults. */
    method Fill(src: seq<Byte>, start: nat, readable: nat) returns (i: nat)
      requires Valid() && start <= |src|
      modifies this, data
      ensures Valid() && start <= i <= |src| && Contents() == old(Contents()) + src[start..i]
      ensures i == |src| || |Contents()| == PIPESIZE || i == readable
    {
      i := start;
      while i < |src| && !IsFull()
        invariant Valid() && start <= i <= |src|
        invariant Contents() == old(Contents()) + src[start..i]
      {
        if i == readable {
          return;
        }
        ghost var was := Contents();
        Put(src[i]);
        assert was + [src[i]] == old(Contents()) + (src[start..i] + [src[i]]);
        i := i + 1;
      }
    }

    /** The copying loop of `pipe_read`. */
    method Drain(n: nat, writable: nat) returns (dst: seq<Byte>)
      requires Valid()
      modifies `nread
      ensures Valid() && old(Contents()) == dst + Contents() && |dst| <= n
      ensures |dst| == n || Contents() == [] || |dst| == writable
    {
      dst := [];
      while |dst| < n
        invariant Valid() && |dst| <= n && old(Contents()) == dst + Contents()
      {
        if IsEmpty() || |dst| == writable {
          break;
        }
        ghost var was := dst + Contents();
        var ch := Get();
        assert was == dst + [ch] + Contents();
        dst := dst + [ch];
      }
    }
  }
}
