/**
 The sleep, wakeup and scheduling protocol of src/proc/sched.c, src/atomic/cond.c and src/lib/queue.c, as steps of
 any number of CPUs over any number of threads. Spinlocks are owned by a CPU. A CPU's steps are cut wherever
 another CPU could see the difference: at locks, at operations on the runnable and waiting queues, and at writes of
 a thread's state that others wait for. What is joined into one step, and why nobody sees it:

 - In `Popped`, taking the thread's lock and writing RUNNING: the state is read under that lock only.
 - In `SignalChecked`, the removal from the sleeping queue and the push to the runnable queue: no code looks into the
   sleeping queue, and the thread is locked.
 - In an external wakeup, everything between taking and giving back the thread's lock: the step stands at the moment
   of the removal from the waiting queue. Before it nothing has changed. After it the others can only pop the thread
   from the runnable queue, and then they wait for its lock.

 One thing is taken for granted: the push in `cond_wait` is atomic against a concurrent removal from the same waiting
 queue. It is done under the mutex and the thread's lock, and not under the queue's own lock.
 */
module Scheduler {
  import opened Common

  type Cpu = nat
  type Tid = nat
  type Cond = nat

  datatype ThreadState = RUNNABLE | RUNNING | SLEEPING

  /** Where a thread is, as an observer of all CPUs knows it; no step reads this. */
  datatype Home = InRunnable | InSleeping | PoppedBy(c: Cpu) | OnCpu(c: Cpu)

  /** Where a sleeping thread is in the waiting-queue protocol; no step reads this. */
  datatype Wait = NotWaiting | InQueue(k: Cond) | TakenBy(c: Cpu)

  /** `lock` is the owner of the thread's spinlock and `chan` its wait_chan_entry. */
  datatype Tcb = Tcb(state: ThreadState, lock: Option<Cpu>, chan: Option<Cond>, home: Home, wait: Wait)

  datatype Condition = Condition(mutex: Option<Cpu>, queue: seq<Tid>)

  /** What a CPU executes next; the first argument is the thread whose code it executes. */
  datatype Pc =
    | Loop                                   // thread_scheduler, before taking a thread
    | Popped(t: Tid)                         // t is out of the runnable queue, its lock is wanted
    | Resumed(t: Tid)                        // swtch has returned into t, lock held
    | Running(t: Tid)                        // t outside any of these locks
    | Yielding(t: Tid)                       // thread_yield holds t's lock
    | YieldQueued(t: Tid)                    // t is in the runnable queue, still marked RUNNING
    | Inside(t: Tid, k: Cond)                // t holds the condition's mutex
    | SleepLocked(t: Tid, k: Cond)           // cond_wait holds t's lock as well
    | SleepQueued(t: Tid, k: Cond)           // t is in the sleeping queue, still marked RUNNING
    | SleepMarked(t: Tid, k: Cond)           // t is marked SLEEPING
    | SleepWaiting(t: Tid, k: Cond)          // t is in the waiting queue
    | SleepReady(t: Tid, k: Cond)            // wait_chan_entry is set; the mutex goes next
    | SwitchOut(t: Tid)                      // thread_sched: only t's lock is held
    | Switched(t: Tid)                       // back in thread_scheduler, t's lock still held
    | SignalSeen(t: Tid, k: Cond)            // cond_signal saw a non-empty queue
    | SignalTaken(t: Tid, k: Cond, u: Tid)   // u is out of the waiting queue, its lock is wanted
    | SignalChecked(t: Tid, k: Cond, u: Tid) // u was SLEEPING; wait_chan_entry is cleared
    | SignalMoved(t: Tid, k: Cond, u: Tid)   // u is in the runnable queue, still marked SLEEPING
    | SignalMarked(t: Tid, k: Cond, u: Tid)  // u is marked RUNNABLE, its lock still held
    | NoThread(t: Tid, k: Cond)              // stopped: the queue was empty after all
    | NotSleeping(t: Tid, k: Cond, u: Tid)   // stopped: the "not sleeping" panic or the wait_chan_entry assertion

  datatype State = State(pc: map<Cpu, Pc>, threads: map<Tid, Tcb>, conds: map<Cond, Condition>,
                         runnable: seq<Tid>, sleeping: set<Tid>)

  /** What a thread's code chooses to do where it has a choice. */
  datatype Choice = Yield | Enter(k: Cond) | Exit | Sleep | Signal

  /** A CPU acts, or someone calls `thread_wakeup_atomic` on a sleeping thread. */
  datatype Event = Act(c: Cpu, choice: Choice) | External(u: Tid)

  // ---------------------------------------------------------------- which thread a CPU has to do with

  /** The CPU still executes the code of its thread, which is in a queue already. */
  predicate Leaving(pc: Pc)
  {
    pc.YieldQueued? || pc.SleepQueued? || pc.SleepMarked? || pc.SleepWaiting? || pc.SleepReady? || pc.SwitchOut?
  }

  /** The CPU executes the code of `t`, which is in no queue. */
  predicate Executes(pc: Pc, t: Tid)
  {
    !pc.Loop? && !pc.Popped? && !pc.Switched? && !Leaving(pc) && pc.t == t
  }

  predicate Leaves(pc: Pc, t: Tid)
  {
    Leaving(pc) && pc.t == t
  }

  predicate LocksOwn(pc: Pc)
  {
    pc.Resumed? || pc.Yielding? || pc.SleepLocked? || pc.Switched? || Leaving(pc)
  }

  predicate LocksOther(pc: Pc)
  {
    pc.SignalChecked? || pc.SignalMoved? || pc.SignalMarked? || pc.NotSleeping?
  }

  /** The CPU holds `t`'s spinlock. */
  predicate Locks(pc: Pc, t: Tid)
  {
    (LocksOwn(pc) && pc.t == t) || (LocksOther(pc) && pc.u == t)
  }

  predicate HasMutex(pc: Pc)
  {
    !(pc.Loop? || pc.Popped? || pc.Resumed? || pc.Running? || pc.Yielding? || pc.YieldQueued? || pc.SwitchOut? || pc.Switched?)
  }

  /** The CPU holds the mutex of condition `k`. */
  predicate Holds(pc: Pc, k: Cond)
  {
    HasMutex(pc) && pc.k == k
  }

  predicate Stopped(pc: Pc)
  {
    pc.NoThread? || pc.NotSleeping?
  }

  // ---------------------------------------------------------------- steps

  predicate Free(s: State, t: Tid)
  {
    t in s.threads && s.threads[t].lock == None
  }

  /** The CPU's next step is possible: locks it needs are free, the runnable queue has a thread. */
  predicate CanAct(s: State, c: Cpu, choice: Choice)
  {
    && c in s.pc
    && match s.pc[c]
       case Loop => s.runnable != [] && s.runnable[0] in s.threads
       case Popped(t) => Free(s, t)
       case Running(t) =>
         (choice == Yield && Free(s, t)) || (choice.Enter? && choice.k in s.conds && s.conds[choice.k].mutex == None)
       case Inside(t, k) =>
         && k in s.conds
         && (choice == Exit || choice == Signal || (choice == Sleep && Free(s, t)))
       case SignalSeen(_, k) => k in s.conds
       case SignalTaken(_, _, u) => Free(s, u)
       case NoThread(_, _) => false
       case NotSleeping(_, _, _) => false
       case pc =>
         && (LocksOwn(pc) ==> pc.t in s.threads)
         && (LocksOther(pc) ==> pc.u in s.threads)
         && (HasMutex(pc) ==> pc.k in s.conds)
  }

  predicate Enabled(s: State, e: Event)
  {
    match e
    case Act(c, choice) => CanAct(s, c, choice)
    case External(u) =>
      && Free(s, u) && s.threads[u].state == SLEEPING
      && s.threads[u].chan.Some? && s.threads[u].chan.value in s.conds
  }

  function Goto(s: State, c: Cpu, pc: Pc): State
  {
    s.(pc := s.pc[c := pc])
  }

  function SetThread(s: State, t: Tid, x: Tcb): State
  {
    s.(threads := s.threads[t := x])
  }

  function SetCond(s: State, k: Cond, x: Condition): State
  {
    s.(conds := s.conds[k := x])
  }

  function SetQueues(s: State, runnable: seq<Tid>, sleeping: set<Tid>): State
  {
    s.(runnable := runnable, sleeping := sleeping)
  }

  /** The schedule, yield and switch steps. */
  function ScheduleStep(s: State, c: Cpu): State
    requires CanAct(s, c, Yield)
    requires s.pc[c].Loop? || s.pc[c].Popped? || s.pc[c].Resumed? || s.pc[c].Running? || s.pc[c].Yielding? ||
             s.pc[c].YieldQueued? || s.pc[c].SwitchOut? || s.pc[c].Switched?
  {
    match s.pc[c]
    case Loop =>
      var t := s.runnable[0];
      SetQueues(SetThread(Goto(s, c, Popped(t)), t, s.threads[t].(home := PoppedBy(c))), s.runnable[1..], s.sleeping)
    case Popped(t) =>
      SetThread(Goto(s, c, Resumed(t)), t, s.threads[t].(lock := Some(c), state := RUNNING, home := OnCpu(c)))
    case Resumed(t) => SetThread(Goto(s, c, Running(t)), t, s.threads[t].(lock := None))
    case Running(t) => SetThread(Goto(s, c, Yielding(t)), t, s.threads[t].(lock := Some(c)))
    case Yielding(t) =>
      SetQueues(SetThread(Goto(s, c, YieldQueued(t)), t, s.threads[t].(home := InRunnable)), s.runnable + [t], s.sleeping)
    case YieldQueued(t) => SetThread(Goto(s, c, SwitchOut(t)), t, s.threads[t].(state := RUNNABLE))
    case SwitchOut(t) => Goto(s, c, Switched(t))
    case Switched(t) => SetThread(Goto(s, c, Loop), t, s.threads[t].(lock := None))
  }

  /** `cond_wait`, from taking the thread's lock to giving up the mutex. */
  function SleepStep(s: State, c: Cpu): State
    requires CanAct(s, c, Sleep)
    requires s.pc[c].Inside? || s.pc[c].SleepLocked? || s.pc[c].SleepQueued? || s.pc[c].SleepMarked? ||
             s.pc[c].SleepWaiting? || s.pc[c].SleepReady?
  {
    match s.pc[c]
    case Inside(t, k) => SetThread(Goto(s, c, SleepLocked(t, k)), t, s.threads[t].(lock := Some(c)))
    case SleepLocked(t, k) =>
      SetQueues(SetThread(Goto(s, c, SleepQueued(t, k)), t, s.threads[t].(home := InSleeping)), s.runnable, s.sleeping + {t})
    case SleepQueued(t, k) => SetThread(Goto(s, c, SleepMarked(t, k)), t, s.threads[t].(state := SLEEPING))
    case SleepMarked(t, k) =>
      SetCond(SetThread(Goto(s, c, SleepWaiting(t, k)), t, s.threads[t].(wait := InQueue(k))),
              k, s.conds[k].(queue := s.conds[k].queue + [t]))
    case SleepWaiting(t, k) => SetThread(Goto(s, c, SleepReady(t, k)), t, s.threads[t].(chan := Some(k)))
    case SleepReady(t, k) => SetCond(Goto(s, c, SwitchOut(t)), k, s.conds[k].(mutex := None))
  }

  /** `cond_signal`. */
  function SignalStep(s: State, c: Cpu): State
    requires CanAct(s, c, Signal)
    requires s.pc[c].Inside? || s.pc[c].SignalSeen? || s.pc[c].SignalTaken? || s.pc[c].SignalChecked? ||
             s.pc[c].SignalMoved? || s.pc[c].SignalMarked?
  {
    match s.pc[c]
    case Inside(t, k) => if s.conds[k].queue == [] then s else Goto(s, c, SignalSeen(t, k))
    case SignalSeen(t, k) =>
      var q := s.conds[k].queue;
      if q == [] || q[0] !in s.threads then Goto(s, c, NoThread(t, k))
      else
        SetCond(SetThread(Goto(s, c, SignalTaken(t, k, q[0])), q[0], s.threads[q[0]].(wait := TakenBy(c))),
                k, s.conds[k].(queue := q[1..]))
    case SignalTaken(t, k, u) =>
      var x := s.threads[u];
      if x.state != SLEEPING || x.chan == None then
        SetThread(Goto(s, c, NotSleeping(t, k, u)), u, x.(lock := Some(c)))
      else
        SetThread(Goto(s, c, SignalChecked(t, k, u)), u, x.(lock := Some(c), chan := None))
    case SignalChecked(t, k, u) =>
      SetQueues(SetThread(Goto(s, c, SignalMoved(t, k, u)), u, s.threads[u].(home := InRunnable, wait := NotWaiting)),
                s.runnable + [u], s.sleeping - {u})
    case SignalMoved(t, k, u) => SetThread(Goto(s, c, SignalMarked(t, k, u)), u, s.threads[u].(state := RUNNABLE))
    case SignalMarked(t, k, u) => SetThread(Goto(s, c, Inside(t, k)), u, s.threads[u].(lock := None))
  }

  /** `thread_wakeup_atomic`, under the woken thread's lock from beginning to end. */
  function WakeupStep(s: State, u: Tid): State
    requires Enabled(s, External(u))
  {
    var k := s.threads[u].chan.value;
    var x := s.threads[u].(state := RUNNABLE, chan := None, home := InRunnable, wait := NotWaiting);
    SetQueues(SetCond(SetThread(s, u, x), k, s.conds[k].(queue := Without(s.conds[k].queue, u))),
              s.runnable + [u], s.sleeping - {u})
  }

  function Apply(s: State, e: Event): State
    requires Enabled(s, e)
  {
    match e
    case External(u) => WakeupStep(s, u)
    case Act(c, choice) =>
      match s.pc[c]
      case Inside(t, k) =>
        if choice == Exit then SetCond(Goto(s, c, Running(t)), k, s.conds[k].(mutex := None))
        else if choice == Sleep then SleepStep(s, c)
        else SignalStep(s, c)
      case Running(t) =>
        if choice == Yield then ScheduleStep(s, c)
        else SetCond(Goto(s, c, Inside(t, choice.k)), choice.k, s.conds[choice.k].(mutex := Some(c)))
      case SleepLocked(_, _) => SleepStep(s, c)
      case SleepQueued(_, _) => SleepStep(s, c)
      case SleepMarked(_, _) => SleepStep(s, c)
      case SleepWaiting(_, _) => SleepStep(s, c)
      case SleepReady(_, _) => SleepStep(s, c)
      case SignalSeen(_, _) => SignalStep(s, c)
      case SignalTaken(_, _, _) => SignalStep(s, c)
      case SignalChecked(_, _, _) => SignalStep(s, c)
      case SignalMoved(_, _, _) => SignalStep(s, c)
      case SignalMarked(_, _, _) => SignalStep(s, c)
      case _ => ScheduleStep(s, c)
  }

  ghost predicate Reaches(init: State, events: seq<Event>, s: State)
  {
    if events == [] then s == init
    else
      var k := |events| - 1;
      exists mid :: Reaches(init, events[..k], mid) && Enabled(mid, events[k]) && s == Apply(mid, events[k])
  }

  predicate Step(s: State, e: Event, next: State)
  {
    Enabled(s, e) && next == Apply(s, e)
  }

  /** A run as the states it goes through. */
  ghost predicate Trace(states: seq<State>, events: seq<Event>)
  {
    |states| == |events| + 1 && forall i :: 0 <= i < |events| ==> Step(states[i], events[i], states[i + 1])
  }

  /** Every run has its states. */
  lemma {:induction false} TraceOf(init: State, events: seq<Event>, s: State) returns (states: seq<State>)
    requires Reaches(init, events, s)
    ensures Trace(states, events) && states[0] == init && states[|events|] == s
  {
    hide Enabled, Apply;
    if events == [] {
      states := [s];
    } else {
      var k := |events| - 1;
      var mid :| Reaches(init, events[..k], mid) && Enabled(mid, events[k]) && s == Apply(mid, events[k]);
      var before := TraceOf(init, events[..k], mid);
      states := before + [s];
      forall i | 0 <= i < |events|
        ensures Step(states[i], events[i], states[i + 1])
      {
        if i < k {
          assert Step(before[i], events[..k][i], before[i + 1]);
        }
      }
    }
  }

  /** All CPUs in the scheduler, all threads runnable, nobody waiting. */
  ghost predicate Init(s: State)
  {
    && (forall c :: c in s.pc ==> s.pc[c] == Loop)
    && (forall t :: t in s.threads ==> s.threads[t] == Tcb(RUNNABLE, None, None, InRunnable, NotWaiting))
    && (forall k :: k in s.conds ==> s.conds[k] == Condition(None, []))
    && (forall t :: t in s.threads <==> t in s.runnable) && Distinct(s.runnable) && s.sleeping == {}
  }

  // ---------------------------------------------------------------- invariants

  predicate InQueueOrPopped(h: Home)
  {
    h.InRunnable? || h.PoppedBy?
  }

  /** What a CPU's position says about the threads it deals with. */
  predicate CpuOk(c: Cpu, pc: Pc, threads: map<Tid, Tcb>)
  {
    && (LocksOwn(pc) ==> pc.t in threads && threads[pc.t].lock == Some(c))
    && (LocksOther(pc) ==> pc.u in threads && threads[pc.u].lock == Some(c))
    && (!pc.Loop? ==> pc.t in threads && OwnOk(c, pc, threads[pc.t]))
    && (LocksOther(pc) ==> OtherOk(pc, threads[pc.u]))
  }

  /** The thread a CPU executes, or is about to. */
  predicate OwnOk(c: Cpu, pc: Pc, x: Tcb)
  {
    match pc
    case Loop => true
    case Popped(_) => x.home == PoppedBy(c)
    case YieldQueued(_) => InQueueOrPopped(x.home) && x.state == RUNNING && x.chan == None
    case SleepQueued(_, _) => x.home == InSleeping && x.state == RUNNING && x.chan == None
    case SleepMarked(_, _) => x.home == InSleeping && x.state == SLEEPING && x.chan == None
    case SleepWaiting(_, _) => x.home == InSleeping && x.state == SLEEPING && x.chan == None
    case SleepReady(_, k) => x.home == InSleeping && x.state == SLEEPING && x.chan == Some(k)
    case SwitchOut(_) => Settled(x) && !x.home.OnCpu?
    case Switched(_) => Settled(x) && !x.home.OnCpu?
    case _ => x.home == OnCpu(c) && x.state == RUNNING && x.chan == None
  }

  /** The thread a signaller has locked. */
  predicate OtherOk(pc: Pc, x: Tcb)
  {
    match pc
    case SignalChecked(_, _, _) => x.home == InSleeping && x.state == SLEEPING && x.chan == None
    case SignalMoved(_, _, _) => InQueueOrPopped(x.home) && x.state == SLEEPING && x.chan == None
    case SignalMarked(_, _, _) => InQueueOrPopped(x.home) && x.state == RUNNABLE && x.chan == None
    case _ => true
  }

  /** The thread's state says which queue it is in. */
  predicate Settled(x: Tcb)
  {
    && (x.state == SLEEPING <==> x.chan.Some?)
    && (x.state == SLEEPING <==> x.home.InSleeping?)
    && (x.state == RUNNING <==> x.home.OnCpu?)
  }

  /** What a thread's record says about the CPUs. */
  predicate ThreadOk(t: Tid, x: Tcb, pc: map<Cpu, Pc>)
  {
    && (x.home.OnCpu? ==> x.home.c in pc && Executes(pc[x.home.c], t))
    && (x.home.PoppedBy? ==> x.home.c in pc && pc[x.home.c] == Popped(t))
    && (x.lock.Some? ==> x.lock.value in pc && Locks(pc[x.lock.value], t))
    && (x.lock.None? ==> Settled(x))
  }

  ghost predicate CpusOk(pc: map<Cpu, Pc>, threads: map<Tid, Tcb>)
  {
    forall c :: c in pc ==> CpuOk(c, pc[c], threads)
  }

  ghost predicate ThreadsOk(pc: map<Cpu, Pc>, threads: map<Tid, Tcb>)
  {
    forall t :: t in threads ==> ThreadOk(t, threads[t], pc)
  }

  /** A thread is in the queue its home names, once. */
  ghost predicate QueuesOk(runnable: seq<Tid>, sleeping: set<Tid>, threads: map<Tid, Tcb>)
  {
    && Distinct(runnable)
    && (forall t :: t in runnable <==> t in threads && threads[t].home == InRunnable)
    && (forall t :: t in sleeping <==> t in threads && threads[t].home == InSleeping)
  }

  ghost predicate MutexOk(pc: map<Cpu, Pc>, conds: map<Cond, Condition>)
  {
    && (forall c, k :: c in pc && Holds(pc[c], k) ==> k in conds && conds[k].mutex == Some(c))
    && (forall k :: k in conds && conds[k].mutex.Some? ==> conds[k].mutex.value in pc && Holds(pc[conds[k].mutex.value], k))
  }

  ghost predicate Inv(s: State)
  {
    && CpusOk(s.pc, s.threads) && ThreadsOk(s.pc, s.threads)
    && QueuesOk(s.runnable, s.sleeping, s.threads) && MutexOk(s.pc, s.conds)
  }

  // ---------------------------------------------------------------- local moves

  /** Nobody but `c` holds the thread's lock, and a CPU that executes or has popped the thread sees no difference. */
  predicate Mine(was: Tcb, now: Tcb, c: Cpu)
  {
    && (was.lock == None || was.lock == Some(c))
    && (was.home.OnCpu? ==> was.home.c == c || now.(lock := was.lock) == was)
    && (was.home.PoppedBy? ==> was.home.c == c || now.home == was.home)
  }

  /** Going from `p` to `q`, a CPU keeps its hold on every thread but `t`. */
  ghost predicate KeepsHold(p: Pc, q: Pc, t: Tid)
  {
    && (forall u :: u != t && Executes(p, u) ==> Executes(q, u))
    && (forall u :: u != t && p == Popped(u) ==> q == p)
    && (forall u :: u != t && Locks(p, u) ==> Locks(q, u))
  }

  lemma Facts(pc: map<Cpu, Pc>, threads: map<Tid, Tcb>, c: Cpu)
    requires CpusOk(pc, threads) && c in pc
    ensures CpuOk(c, pc[c], threads)
  {
  }

  lemma ThreadFacts(pc: map<Cpu, Pc>, threads: map<Tid, Tcb>, t: Tid)
    requires ThreadsOk(pc, threads) && t in threads
    ensures ThreadOk(t, threads[t], pc)
  {
  }

  /** A CPU moves and changes one thread nobody else deals with: only its own facts need a look. */
  lemma LocalMove(pc: map<Cpu, Pc>, threads: map<Tid, Tcb>, c: Cpu, q: Pc, t: Tid, x: Tcb)
    requires CpusOk(pc, threads) && ThreadsOk(pc, threads) && c in pc && t in threads
    requires Mine(threads[t], x, c) && KeepsHold(pc[c], q, t)
    requires CpuOk(c, q, threads[t := x]) && ThreadOk(t, x, pc[c := q])
    ensures CpusOk(pc[c := q], threads[t := x]) && ThreadsOk(pc[c := q], threads[t := x])
  {
    forall d | d in pc && d != c
      ensures CpuOk(d, pc[d], threads[t := x])
    {
    }
  }

  /** A CPU moves and changes no thread. */
  lemma QuietMove(pc: map<Cpu, Pc>, threads: map<Tid, Tcb>, c: Cpu, q: Pc)
    requires CpusOk(pc, threads) && ThreadsOk(pc, threads) && c in pc && CpuOk(c, q, threads)
    requires forall t :: KeepsHold(pc[c], q, t)
    ensures CpusOk(pc[c := q], threads) && ThreadsOk(pc[c := q], threads)
  {
    forall t | t in threads
      ensures ThreadOk(t, threads[t], pc[c := q])
    {
      assert KeepsHold(pc[c], q, t + 1);
    }
  }

  /** The scheduler takes a thread out of the runnable queue, whoever holds its lock. */
  lemma PopMove(pc: map<Cpu, Pc>, threads: map<Tid, Tcb>, c: Cpu, t: Tid)
    requires CpusOk(pc, threads) && ThreadsOk(pc, threads) && c in pc && pc[c] == Loop
    requires t in threads && threads[t].home == InRunnable
    ensures var x := threads[t].(home := PoppedBy(c));
            CpusOk(pc[c := Popped(t)], threads[t := x]) && ThreadsOk(pc[c := Popped(t)], threads[t := x])
  {
  }

  predicate Elsewhere(h: Home)
  {
    h.OnCpu? || h.PoppedBy?
  }

  lemma QueueStay(runnable: seq<Tid>, sleeping: set<Tid>, threads: map<Tid, Tcb>, t: Tid, x: Tcb)
    requires QueuesOk(runnable, sleeping, threads) && t in threads
    requires x.home == threads[t].home || (Elsewhere(x.home) && Elsewhere(threads[t].home))
    ensures QueuesOk(runnable, sleeping, threads[t := x])
  {
  }

  lemma QueuePop(runnable: seq<Tid>, sleeping: set<Tid>, threads: map<Tid, Tcb>, c: Cpu)
    requires QueuesOk(runnable, sleeping, threads) && runnable != []
    ensures var t := runnable[0];
            && t in threads && threads[t].home == InRunnable
            && QueuesOk(runnable[1..], sleeping, threads[t := threads[t].(home := PoppedBy(c))])
  {
    assert runnable == [runnable[0]] + runnable[1..];
  }

  /** A thread goes to the back of the runnable queue, from nowhere or from the sleeping queue. */
  lemma QueuePush(runnable: seq<Tid>, sleeping: set<Tid>, threads: map<Tid, Tcb>, t: Tid, x: Tcb)
    requires QueuesOk(runnable, sleeping, threads) && t in threads && !threads[t].home.InRunnable? && x.home == InRunnable
    ensures QueuesOk(runnable + [t], sleeping - {t}, threads[t := x])
    ensures !threads[t].home.InSleeping? ==> sleeping - {t} == sleeping
  {
  }

  lemma SleepPush(runnable: seq<Tid>, sleeping: set<Tid>, threads: map<Tid, Tcb>, t: Tid, x: Tcb)
    requires QueuesOk(runnable, sleeping, threads) && t in threads && !threads[t].home.InRunnable? && x.home == InSleeping
    ensures QueuesOk(runnable, sleeping + {t}, threads[t := x])
  {
  }

  lemma MutexStay(pc: map<Cpu, Pc>, conds: map<Cond, Condition>, c: Cpu, q: Pc)
    requires MutexOk(pc, conds) && c in pc && (HasMutex(q) <==> HasMutex(pc[c])) && (HasMutex(q) ==> q.k == pc[c].k)
    ensures MutexOk(pc[c := q], conds)
  {
  }

  lemma MutexQueue(pc: map<Cpu, Pc>, conds: map<Cond, Condition>, k: Cond, q: seq<Tid>)
    requires MutexOk(pc, conds) && k in conds
    ensures MutexOk(pc, conds[k := conds[k].(queue := q)])
  {
  }

  lemma MutexTake(pc: map<Cpu, Pc>, conds: map<Cond, Condition>, c: Cpu, q: Pc, k: Cond)
    requires MutexOk(pc, conds) && c in pc && !HasMutex(pc[c]) && k in conds && conds[k].mutex == None && Holds(q, k)
    ensures MutexOk(pc[c := q], conds[k := conds[k].(mutex := Some(c))])
  {
  }

  lemma MutexDrop(pc: map<Cpu, Pc>, conds: map<Cond, Condition>, c: Cpu, q: Pc, k: Cond)
    requires MutexOk(pc, conds) && c in pc && Holds(pc[c], k) && !HasMutex(q)
    ensures k in conds && MutexOk(pc[c := q], conds[k := conds[k].(mutex := None)])
  {
  }

  // ---------------------------------------------------------------- every step keeps the invariants

  lemma PopKeeps(s: State, c: Cpu)
    requires Inv(s) && CanAct(s, c, Yield) && s.pc[c].Loop?
    ensures Inv(ScheduleStep(s, c))
  {
    hide CpusOk, ThreadsOk, QueuesOk, MutexOk;
    MutexStay(s.pc, s.conds, c, Popped(s.runnable[0]));
    QueuePop(s.runnable, s.sleeping, s.threads, c);
    PopMove(s.pc, s.threads, c, s.runnable[0]);
  }

  lemma ScheduleKeeps(s: State, c: Cpu)
    requires Inv(s) && CanAct(s, c, Yield)
    requires s.pc[c].Popped? || s.pc[c].Resumed? || s.pc[c].Running? || s.pc[c].Yielding? || s.pc[c].YieldQueued?
    ensures Inv(ScheduleStep(s, c))
  {
    hide CpusOk, ThreadsOk, QueuesOk, MutexOk;
    var s' := ScheduleStep(s, c);
    MutexStay(s.pc, s.conds, c, s'.pc[c]);
    Facts(s.pc, s.threads, c);
    var t := s.pc[c].t;
    var x := s'.threads[t];
    ThreadFacts(s.pc, s.threads, t);
    LocalMove(s.pc, s.threads, c, s'.pc[c], t, x);
    if s.pc[c].Yielding? {
      QueuePush(s.runnable, s.sleeping, s.threads, t, x);
    } else {
      QueueStay(s.runnable, s.sleeping, s.threads, t, x);
    }
  }

  lemma SwitchKeeps(s: State, c: Cpu)
    requires Inv(s) && CanAct(s, c, Yield)
    requires s.pc[c].SwitchOut? || s.pc[c].Switched?
    ensures Inv(ScheduleStep(s, c))
  {
    hide CpusOk, ThreadsOk, QueuesOk, MutexOk;
    var s' := ScheduleStep(s, c);
    MutexStay(s.pc, s.conds, c, s'.pc[c]);
    Facts(s.pc, s.threads, c);
    var t := s.pc[c].t;
    var x := s'.threads[t];
    ThreadFacts(s.pc, s.threads, t);
    LocalMove(s.pc, s.threads, c, s'.pc[c], t, x);
    QueueStay(s.runnable, s.sleeping, s.threads, t, x);
    assert s'.threads == s.threads[t := x];
  }

  lemma MutexKeeps(s: State, c: Cpu, choice: Choice)
    requires Inv(s) && CanAct(s, c, choice)
    requires (s.pc[c].Running? && choice.Enter?) || (s.pc[c].Inside? && choice == Exit)
    ensures Inv(Apply(s, Act(c, choice)))
  {
    hide CpusOk, ThreadsOk, QueuesOk, MutexOk;
    var s' := Apply(s, Act(c, choice));
    Facts(s.pc, s.threads, c);
    var t := s.pc[c].t;
    ThreadFacts(s.pc, s.threads, t);
    QuietMove(s.pc, s.threads, c, s'.pc[c]);
    if choice.Enter? {
      MutexTake(s.pc, s.conds, c, s'.pc[c], choice.k);
    } else {
      MutexDrop(s.pc, s.conds, c, s'.pc[c], s.pc[c].k);
    }
  }

  lemma SleepKeeps(s: State, c: Cpu)
    requires Inv(s) && CanAct(s, c, Sleep)
    requires s.pc[c].Inside? || s.pc[c].SleepLocked? || s.pc[c].SleepQueued? || s.pc[c].SleepWaiting?
    ensures Inv(SleepStep(s, c))
  {
    hide CpusOk, ThreadsOk, QueuesOk, MutexOk;
    var s' := SleepStep(s, c);
    Facts(s.pc, s.threads, c);
    var t := s.pc[c].t;
    var x := s'.threads[t];
    ThreadFacts(s.pc, s.threads, t);
    LocalMove(s.pc, s.threads, c, s'.pc[c], t, x);
    MutexStay(s.pc, s.conds, c, s'.pc[c]);
    if s.pc[c].SleepLocked? {
      SleepPush(s.runnable, s.sleeping, s.threads, t, x);
    } else {
      QueueStay(s.runnable, s.sleeping, s.threads, t, x);
    }
  }

  lemma SleepOnQueueKeeps(s: State, c: Cpu)
    requires Inv(s) && CanAct(s, c, Sleep)
    requires s.pc[c].SleepMarked? || s.pc[c].SleepReady?
    ensures Inv(SleepStep(s, c))
  {
    hide CpusOk, ThreadsOk, QueuesOk, MutexOk;
    var s' := SleepStep(s, c);
    Facts(s.pc, s.threads, c);
    var t, k := s.pc[c].t, s.pc[c].k;
    var x := s'.threads[t];
    ThreadFacts(s.pc, s.threads, t);
    LocalMove(s.pc, s.threads, c, s'.pc[c], t, x);
    assert s'.threads == s.threads[t := x];
    QueueStay(s.runnable, s.sleeping, s.threads, t, x);
    if s.pc[c].SleepReady? {
      MutexDrop(s.pc, s.conds, c, s'.pc[c], k);
    } else {
      MutexStay(s.pc, s.conds, c, s'.pc[c]);
      MutexQueue(s'.pc, s.conds, k, s'.conds[k].queue);
    }
  }

  lemma SignalLockKeeps(s: State, c: Cpu)
    requires Inv(s) && CanAct(s, c, Signal) && s.pc[c].SignalTaken?
    ensures Inv(SignalStep(s, c))
  {
    hide CpusOk, ThreadsOk, QueuesOk, MutexOk;
    var s' := SignalStep(s, c);
    Facts(s.pc, s.threads, c);
    var t, u := s.pc[c].t, s.pc[c].u;
    var x := s'.threads[u];
    ThreadFacts(s.pc, s.threads, t);
    ThreadFacts(s.pc, s.threads, u);
    LocalMove(s.pc, s.threads, c, s'.pc[c], u, x);
    MutexStay(s.pc, s.conds, c, s'.pc[c]);
    QueueStay(s.runnable, s.sleeping, s.threads, u, x);
  }

  lemma SignalMoveKeeps(s: State, c: Cpu)
    requires Inv(s) && CanAct(s, c, Signal) && s.pc[c].SignalChecked?
    ensures Inv(SignalStep(s, c))
  {
    hide CpusOk, ThreadsOk, QueuesOk, MutexOk;
    var s' := SignalStep(s, c);
    Facts(s.pc, s.threads, c);
    var u := s.pc[c].u;
    ThreadFacts(s.pc, s.threads, u);
    LocalMove(s.pc, s.threads, c, s'.pc[c], u, s'.threads[u]);
    MutexStay(s.pc, s.conds, c, s'.pc[c]);
    QueuePush(s.runnable, s.sleeping, s.threads, u, s'.threads[u]);
  }

  lemma SignalKeeps(s: State, c: Cpu)
    requires Inv(s) && CanAct(s, c, Signal) && (s.pc[c].SignalMoved? || s.pc[c].SignalMarked?)
    ensures Inv(SignalStep(s, c))
  {
    hide CpusOk, ThreadsOk, QueuesOk, MutexOk;
    var s' := SignalStep(s, c);
    Facts(s.pc, s.threads, c);
    var u := s.pc[c].u;
    ThreadFacts(s.pc, s.threads, u);
    LocalMove(s.pc, s.threads, c, s'.pc[c], u, s'.threads[u]);
    MutexStay(s.pc, s.conds, c, s'.pc[c]);
    QueueStay(s.runnable, s.sleeping, s.threads, u, s'.threads[u]);
  }

  lemma SignalTakeKeeps(s: State, c: Cpu)
    requires Inv(s) && CanAct(s, c, Signal) && (s.pc[c].Inside? || s.pc[c].SignalSeen?)
    ensures Inv(SignalStep(s, c))
  {
    hide CpusOk, ThreadsOk, QueuesOk, MutexOk;
    var s' := SignalStep(s, c);
    Facts(s.pc, s.threads, c);
    ThreadFacts(s.pc, s.threads, s.pc[c].t);
    var k := s.pc[c].k;
    MutexStay(s.pc, s.conds, c, s'.pc[c]);
    MutexQueue(s'.pc, s.conds, k, s'.conds[k].queue);
    QuietMove(s.pc, s.threads, c, s'.pc[c]);
    if s'.pc[c].SignalTaken? {
      var u := s'.pc[c].u;
      Rewait(s'.pc, s.threads, u, TakenBy(c));
      QueueStay(s.runnable, s.sleeping, s.threads, u, s'.threads[u]);
    }
  }

  lemma Rewait(pc: map<Cpu, Pc>, threads: map<Tid, Tcb>, u: Tid, w: Wait)
    requires CpusOk(pc, threads) && ThreadsOk(pc, threads) && u in threads
    ensures var threads' := threads[u := threads[u].(wait := w)]; CpusOk(pc, threads') && ThreadsOk(pc, threads')
  {
  }

  lemma WakeupKeeps(s: State, u: Tid)
    requires Inv(s) && Enabled(s, External(u))
    ensures Inv(WakeupStep(s, u))
  {
    hide CpusOk, ThreadsOk, QueuesOk, MutexOk, Without;
    ThreadFacts(s.pc, s.threads, u);
    var s' := WakeupStep(s, u);
    var x := s'.threads[u];
    QueuePush(s.runnable, s.sleeping, s.threads, u, x);
    MutexQueue(s.pc, s.conds, s.threads[u].chan.value, s'.conds[s.threads[u].chan.value].queue);
    UnlockedMove(s.pc, s.threads, u, x);
  }

  /** A change under the thread's own lock, by someone who is none of the modelled CPUs' positions. */
  lemma UnlockedMove(pc: map<Cpu, Pc>, threads: map<Tid, Tcb>, u: Tid, x: Tcb)
    requires CpusOk(pc, threads) && ThreadsOk(pc, threads) && u in threads
    requires threads[u].lock == None && threads[u].home == InSleeping
    requires x.lock == None && x.home == InRunnable && Settled(x)
    ensures CpusOk(pc, threads[u := x]) && ThreadsOk(pc, threads[u := x])
  {
  }

  /** One step of any CPU, or one external wakeup, keeps the invariants. */
  lemma StepKeeps(s: State, e: Event)
    requires Inv(s) && Enabled(s, e)
    ensures Inv(Apply(s, e))
  {
    hide Inv;
    match e
    case External(u) => WakeupKeeps(s, u);
    case Act(c, choice) =>
      var pc := s.pc[c];
      if pc.Loop? {
        PopKeeps(s, c);
      } else if pc.SwitchOut? || pc.Switched? {
        SwitchKeeps(s, c);
      } else if (pc.Running? && choice.Enter?) || (pc.Inside? && choice == Exit) {
        MutexKeeps(s, c, choice);
      } else if pc.SignalSeen? || (pc.Inside? && choice == Signal) {
        SignalTakeKeeps(s, c);
      } else if pc.SignalTaken? {
        SignalLockKeeps(s, c);
      } else if pc.SignalChecked? {
        SignalMoveKeeps(s, c);
      } else if pc.SignalMoved? || pc.SignalMarked? {
        SignalKeeps(s, c);
      } else if pc.SleepMarked? || pc.SleepReady? {
        SleepOnQueueKeeps(s, c);
      } else if pc.Inside? || pc.SleepLocked? || pc.SleepQueued? || pc.SleepWaiting? {
        SleepKeeps(s, c);
      } else {
        ScheduleKeeps(s, c);
      }
  }

  // ---------------------------------------------------------------- whole runs

  lemma {:induction false} Safety(init: State, events: seq<Event>, s: State)
    requires Init(init) && Reaches(init, events, s)
    ensures Inv(s)
  {
    hide Enabled, Apply;
    if events != [] {
      var k := |events| - 1;
      var mid :| Reaches(init, events[..k], mid) && Enabled(mid, events[k]) && s == Apply(mid, events[k]);
      Safety(init, events[..k], mid);
      StepKeeps(mid, events[k]);
    }
  }

  /** A CPU executes the code of `t`, between the two context switches. */
  predicate On(pc: Pc, t: Tid)
  {
    Executes(pc, t) || Leaves(pc, t)
  }

  /** No thread is executed by two CPUs, and a lock has one owner. */
  lemma OneCpuPerThread(init: State, events: seq<Event>, s: State, c: Cpu, d: Cpu, t: Tid)
    requires Init(init) && Reaches(init, events, s) && c in s.pc && d in s.pc
    ensures On(s.pc[c], t) && On(s.pc[d], t) ==> c == d
    ensures Locks(s.pc[c], t) && Locks(s.pc[d], t) ==> c == d
    ensures forall k :: Holds(s.pc[c], k) && Holds(s.pc[d], k) ==> c == d
  {
    hide Reaches, Init, CpusOk, ThreadsOk, QueuesOk, MutexOk;
    Safety(init, events, s);
    Facts(s.pc, s.threads, c);
    Facts(s.pc, s.threads, d);
    MutexFacts(s.pc, s.conds, c, d);
  }

  lemma MutexFacts(pc: map<Cpu, Pc>, conds: map<Cond, Condition>, c: Cpu, d: Cpu)
    requires MutexOk(pc, conds) && c in pc && d in pc
    ensures forall k :: Holds(pc[c], k) && Holds(pc[d], k) ==> c == d
  {
    forall k | Holds(pc[c], k) && Holds(pc[d], k)
      ensures c == d
    {
      assert conds[k].mutex == Some(c) && conds[k].mutex == Some(d);
    }
  }

  /** A thread that runs outside its lock is RUNNING, in no state queue, and popped by no scheduler. */
  lemma RunningIsAlone(init: State, events: seq<Event>, s: State, c: Cpu, t: Tid)
    requires Init(init) && Reaches(init, events, s) && c in s.pc
    requires Executes(s.pc[c], t) && !Locks(s.pc[c], t)
    ensures t in s.threads && s.threads[t].state == RUNNING && t !in s.runnable && t !in s.sleeping
    ensures forall d :: d in s.pc ==> s.pc[d] != Popped(t)
  {
    Safety(init, events, s);
  }

  /** The panics of `thread_sched` are unreachable: at the switch only the thread's lock is held, and it is not RUNNING. */
  lemma SwitchIsSafe(init: State, events: seq<Event>, s: State, c: Cpu, t: Tid)
    requires Init(init) && Reaches(init, events, s) && c in s.pc && s.pc[c] == SwitchOut(t)
    ensures t in s.threads && s.threads[t].lock == Some(c) && s.threads[t].state != RUNNING
    ensures forall u :: u in s.threads && s.threads[u].lock == Some(c) ==> u == t
    ensures forall k :: k in s.conds ==> s.conds[k].mutex != Some(c)
    ensures t in s.runnable || t in s.sleeping || exists d :: d in s.pc && s.pc[d] == Popped(t)
  {
    Safety(init, events, s);
    Facts(s.pc, s.threads, c);
    ThreadFacts(s.pc, s.threads, t);
  }
}
