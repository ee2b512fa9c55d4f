/**
 Reading, writing and closing a pipe (src/ipc/pipe.c) as interleaved steps of any number of threads. The ring
 buffer appears as the bounded queue it refines (module PipeRing), and a semaphore as its tokens: a wait completes
 exactly by taking one, which is what `Semaphore.RunRefines` proves of the implementation.
 */
module Pipe {
  import opened PipeRing

  type Tid = nat

  datatype Pc =
    | Writer                    // outside pipe_write
    | WriteWants(i: nat, n: nat) // wants the pipe's lock
    | WriteLoop(i: nat, n: nat)  // lock held, at the top of the loop
    | WriteEnd                   // lock held, leaving the loop
    | WriteSleeps(i: nat, n: nat) // lock released, in sema_wait on write_sem
    | Reader                     // outside pipe_read
    | ReadWants(n: nat)          // wants the pipe's lock
    | ReadTest(n: nat)           // lock held, at the loop that waits for data
    | ReadCopy(i: nat, n: nat)   // lock held, copying
    | ReadSleeps(n: nat)         // lock released, in sema_wait on read_sem

  /** `written` and `taken` record every byte that went in and came out; no step reads them. */
  datatype State = State(buf: seq<Byte>, readopen: bool, writeopen: bool, readTokens: nat, writeTokens: nat,
                         owner: set<Tid>, pcs: map<Tid, Pc>, written: seq<Byte>, taken: seq<Byte>)

  /** `pipe_alloc`. */
  ghost predicate Init(s: State)
  {
    && s.buf == s.written == s.taken == [] && s.readopen && s.writeopen && s.readTokens == s.writeTokens == 0
    && s.owner == {} && forall t :: t in s.pcs ==> s.pcs[t] == Writer || s.pcs[t] == Reader
  }

  /** What the step of a thread depends on beside the state: sizes, bytes, and whether the user copy faults. */
  datatype Event = Act(t: Tid, n: nat, ch: Byte, fault: bool) | Close(t: Tid)

  predicate HoldsLock(pc: Pc)
  {
    pc.WriteLoop? || pc.WriteEnd? || pc.ReadTest? || pc.ReadCopy?
  }

  predicate Enabled(s: State, e: Event)
  {
    && e.t in s.pcs
    && match e
       case Close(t) => s.owner == {} && ((s.pcs[t].Writer? && s.writeopen) || (s.pcs[t].Reader? && s.readopen))
       case Act(t, _, _, _) =>
         match s.pcs[t]
         case Writer => s.writeopen
         case Reader => s.readopen
         case WriteWants(_, _) => s.owner == {}
         case ReadWants(_) => s.owner == {}
         case WriteSleeps(_, _) => s.writeTokens > 0
         case ReadSleeps(_) => s.readTokens > 0
         case _ => true
  }

  function Goto(s: State, t: Tid, pc: Pc): State
  {
    s.(pcs := s.pcs[t := pc])
  }

  function Apply(s: State, e: Event): State
    requires Enabled(s, e)
  {
    match e
    case Close(t) =>
      if s.pcs[t].Writer? then s.(writeopen := false, readTokens := s.readTokens + 1)
      else s.(readopen := false, writeTokens := s.writeTokens + 1)
    case Act(t, n, ch, fault) =>
      match s.pcs[t]
      case Writer => Goto(s, t, WriteWants(0, n))
      case WriteWants(i, m) => Goto(s, t, WriteLoop(i, m)).(owner := {t})
      case WriteLoop(i, m) =>
        if i >= m then Goto(s, t, WriteEnd)
        else if !s.readopen then Goto(s, t, Writer).(owner := {})
        else if |s.buf| == PIPESIZE then Goto(s, t, WriteSleeps(i, m)).(readTokens := s.readTokens + 1, owner := {})
        else if fault then Goto(s, t, WriteEnd)
        else Goto(s, t, WriteLoop(i + 1, m)).(buf := s.buf + [ch], written := s.written + [ch])
      case WriteEnd => Goto(s, t, Writer).(readTokens := s.readTokens + 1, owner := {})
      case WriteSleeps(i, m) => Goto(s, t, WriteWants(i, m)).(writeTokens := s.writeTokens - 1)
      case Reader => Goto(s, t, ReadWants(n))
      case ReadWants(m) => Goto(s, t, ReadTest(m)).(owner := {t})
      case ReadTest(m) =>
        if s.buf == [] && s.writeopen then Goto(s, t, ReadSleeps(m)).(owner := {})
        else Goto(s, t, ReadCopy(0, m))
      case ReadCopy(i, m) =>
        if i >= m || s.buf == [] || fault then Goto(s, t, Reader).(writeTokens := s.writeTokens + 1, owner := {})
        else Goto(s, t, ReadCopy(i + 1, m)).(buf := s.buf[1..], taken := s.taken + [s.buf[0]])
      case ReadSleeps(m) => Goto(s, t, ReadWants(m)).(readTokens := s.readTokens - 1)
  }

  ghost predicate Reaches(init: State, events: seq<Event>, s: State)
  {
    if events == [] then s == init
    else
      var k := |events| - 1;
      exists mid :: Reaches(init, events[..k], mid) && Enabled(mid, events[k]) && s == Apply(mid, events[k])
  }

  // ---------------------------------------------------------------- any number of readers and writers

  ghost predicate Locked(s: State)
  {
    && (forall t :: t in s.pcs ==> (HoldsLock(s.pcs[t]) <==> t in s.owner))
    && (forall t, u :: t in s.owner && u in s.owner ==> t == u)
    && s.owner <= s.pcs.Keys
  }

  /** Nothing is lost, duplicated or reordered, and the buffer never overflows. */
  ghost predicate Conserved(s: State)
  {
    s.written == s.taken + s.buf && |s.buf| <= PIPESIZE
  }

  lemma LockedStep(s: State, e: Event)
    requires Locked(s) && Enabled(s, e)
    ensures Locked(Apply(s, e))
  {
  }

  lemma ConservedStep(s: State, e: Event)
    requires Conserved(s) && Enabled(s, e)
    ensures Conserved(Apply(s, e))
  {
    assert s.written == s.taken + s.buf;
    if s.buf != [] {
      assert s.taken + s.buf == s.taken + [s.buf[0]] + s.buf[1..];
    }
  }

  /** Whatever the interleaving, the bytes read are a prefix of the bytes written, at most PIPESIZE behind. */
  lemma {:induction false} PrefixOfWritten(init: State, events: seq<Event>, s: State)
    requires Init(init) && Reaches(init, events, s)
    ensures Locked(s) && Conserved(s)
    ensures s.taken <= s.written && |s.written| - |s.taken| <= PIPESIZE
  {
    if events != [] {
      hide Enabled, Apply, Locked;
      var k := |events| - 1;
      var mid :| Reaches(init, events[..k], mid) && Enabled(mid, events[k]) && s == Apply(mid, events[k]);
      PrefixOfWritten(init, events[..k], mid);
      LockedStep(mid, events[k]);
      ConservedStep(mid, events[k]);
    }
  }

  // ---------------------------------------------------------------- one reader and one writer

  predicate WriteSide(pc: Pc)
  {
    pc.Writer? || pc.WriteWants? || pc.WriteLoop? || pc.WriteEnd? || pc.WriteSleeps?
  }

  ghost predicate Pair(s: State, w: Tid, r: Tid)
  {
    w != r && s.pcs.Keys == {w, r} && WriteSide(s.pcs[w]) && !WriteSide(s.pcs[r])
  }

  /** A reader without a token sleeps only on an empty pipe whose write end is open. */
  ghost predicate ReaderOk(s: State, w: Tid, r: Tid)
    requires Pair(s, w, r)
  {
    && (!s.pcs[r].Reader? ==> s.readopen)
    && (s.pcs[r].ReadSleeps? && s.readTokens == 0 && !HoldsLock(s.pcs[w]) ==> s.buf == [] && s.writeopen)
  }

  /** A writer without a token sleeps only on a full pipe whose read end is open. */
  ghost predicate WriterOk(s: State, w: Tid, r: Tid)
    requires Pair(s, w, r)
  {
    && (!s.pcs[w].Writer? ==> s.writeopen)
    && (s.pcs[w].WriteSleeps? && s.writeTokens == 0 && !s.pcs[r].ReadCopy? ==> |s.buf| == PIPESIZE && s.readopen)
  }

  lemma PairKeys(s: State, e: Event, w: Tid, r: Tid)
    requires Pair(s, w, r) && Enabled(s, e)
    ensures e.t == w || e.t == r
  {
  }

  lemma ReaderOwnStep(s: State, e: Event, w: Tid, r: Tid)
    requires Pair(s, w, r) && Locked(s) && ReaderOk(s, w, r) && Enabled(s, e) && e.t == r
    ensures Pair(Apply(s, e), w, r) && ReaderOk(Apply(s, e), w, r)
  {
  }

  lemma ReaderOtherStep(s: State, e: Event, w: Tid, r: Tid)
    requires Pair(s, w, r) && Locked(s) && ReaderOk(s, w, r) && Enabled(s, e) && e.t == w
    ensures Pair(Apply(s, e), w, r) && ReaderOk(Apply(s, e), w, r)
  {
  }

  lemma WriterOwnStep(s: State, e: Event, w: Tid, r: Tid)
    requires Pair(s, w, r) && Locked(s) && WriterOk(s, w, r) && Enabled(s, e) && e.t == w
    ensures Pair(Apply(s, e), w, r) && WriterOk(Apply(s, e), w, r)
  {
  }

  lemma WriterOtherStep(s: State, e: Event, w: Tid, r: Tid)
    requires Pair(s, w, r) && Locked(s) && WriterOk(s, w, r) && Enabled(s, e) && e.t == r
    ensures Pair(Apply(s, e), w, r) && WriterOk(Apply(s, e), w, r)
  {
  }

  lemma {:induction false} PairSafety(init: State, events: seq<Event>, s: State, w: Tid, r: Tid)
    requires Init(init) && Pair(init, w, r) && Reaches(init, events, s)
    ensures Pair(s, w, r) && Locked(s) && ReaderOk(s, w, r) && WriterOk(s, w, r)
  {
    if events != [] {
      hide Enabled, Apply, Locked, Pair, ReaderOk, WriterOk;
      var k := |events| - 1;
      var mid :| Reaches(init, events[..k], mid) && Enabled(mid, events[k]) && s == Apply(mid, events[k]);
      PairSafety(init, events[..k], mid, w, r);
      LockedStep(mid, events[k]);
      PairKeys(mid, events[k], w, r);
      if events[k].t == w {
        ReaderOtherStep(mid, events[k], w, r);
        WriterOwnStep(mid, events[k], w, r);
      } else {
        ReaderOwnStep(mid, events[k], w, r);
        WriterOtherStep(mid, events[k], w, r);
      }
    }
  }

  /** Asleep with nothing to be woken by. */
  predicate Blocked(s: State, t: Tid)
  {
    && t in s.pcs
    && ((s.pcs[t].ReadSleeps? && s.readTokens == 0) || (s.pcs[t].WriteSleeps? && s.writeTokens == 0))
  }

  /** The reader and the writer are never both blocked. */
  lemma NeverBothBlocked(init: State, events: seq<Event>, s: State, w: Tid, r: Tid)
    requires Init(init) && Pair(init, w, r) && Reaches(init, events, s)
    ensures !(Blocked(s, w) && Blocked(s, r))
  {
    PairSafety(init, events, s, w, r);
  }

  /** With the lock free, a blocked reader has nothing to read and a writer to wait for; a blocked writer, no room and a reader. */
  lemma BlockedForAReason(init: State, events: seq<Event>, s: State, w: Tid, r: Tid)
    requires Init(init) && Pair(init, w, r) && Reaches(init, events, s) && s.owner == {}
    ensures Blocked(s, r) ==> s.buf == [] && s.writeopen
    ensures Blocked(s, w) ==> |s.buf| == PIPESIZE && s.readopen
  {
    PairSafety(init, events, s, w, r);
  }

  /** While both are inside the pipe's operations, one of them can take a step. */
  lemma NeverStuck(init: State, events: seq<Event>, s: State, w: Tid, r: Tid)
    requires Init(init) && Pair(init, w, r) && Reaches(init, events, s)
    requires w in s.pcs && r in s.pcs && !s.pcs[w].Writer? && !s.pcs[r].Reader?
    ensures exists t :: (t == w || t == r) && Enabled(s, Act(t, 0, 0, false))
  {
    hide Apply, Reaches, Init;
    PairSafety(init, events, s, w, r);
    if s.owner == {} {
      NeverBothBlocked(init, events, s, w, r);
      assert Enabled(s, Act(w, 0, 0, false)) || Enabled(s, Act(r, 0, 0, false));
    } else {
      var t :| t in s.owner;
      assert Enabled(s, Act(t, 0, 0, false));
    }
  }
}
