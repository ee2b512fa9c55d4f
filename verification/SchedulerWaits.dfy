/** When `cond_signal` finds what it expects: always, if and only if no external wakeup comes at a harmful moment. */
module SchedulerWaits {
  import opened Common
  import opened Scheduler

  ghost predicate WaitCpu(c: Cpu, pc: Pc, threads: map<Tid, Tcb>)
  {
    && !Stopped(pc)
    && (pc.SignalTaken? || pc.SignalChecked? ==> pc.u in threads && threads[pc.u].wait == TakenBy(c))
    && (pc.SleepQueued? || pc.SleepMarked? ==> pc.t in threads && threads[pc.t].wait == NotWaiting)
    && (pc.SleepWaiting? || pc.SleepReady? ==> pc.t in threads && threads[pc.t].wait == InQueue(pc.k))
    && (pc.SwitchOut? || pc.Switched? ==> pc.t in threads && Awaited(threads[pc.t]))
  }

  /** A thread in the sleeping queue is somewhere in the waiting protocol. */
  predicate Awaited(x: Tcb)
  {
    x.home == InSleeping ==> x.wait != NotWaiting
  }

  ghost predicate WaitThread(t: Tid, x: Tcb, pc: map<Cpu, Pc>)
  {
    && (x.wait != NotWaiting ==> x.home == InSleeping && x.state == SLEEPING)
    && (x.lock == None ==> Awaited(x))
    && (x.wait.InQueue? ==>
          x.chan == Some(x.wait.k) || (x.lock.Some? && x.lock.value in pc && pc[x.lock.value] == SleepWaiting(t, x.wait.k)))
    && (x.wait.TakenBy? ==>
          && x.wait.c in pc && (pc[x.wait.c].SignalTaken? || pc[x.wait.c].SignalChecked?) && pc[x.wait.c].u == t
          && (pc[x.wait.c].SignalTaken? ==> x.chan.Some?))
  }

  ghost predicate WaitCpus(pc: map<Cpu, Pc>, threads: map<Tid, Tcb>)
  {
    forall c :: c in pc ==> WaitCpu(c, pc[c], threads)
  }

  ghost predicate WaitThreads(pc: map<Cpu, Pc>, threads: map<Tid, Tcb>)
  {
    forall t :: t in threads ==> WaitThread(t, threads[t], pc)
  }

  /** A waiting queue holds exactly the threads that wait there, once. */
  ghost predicate WaitQueues(conds: map<Cond, Condition>, threads: map<Tid, Tcb>)
  {
    && (forall k :: k in conds ==> Distinct(conds[k].queue))
    && (forall k, t :: k in conds && t in conds[k].queue ==> t in threads && threads[t].wait == InQueue(k))
    && (forall t :: t in threads && threads[t].wait.InQueue? ==>
          threads[t].wait.k in conds && t in conds[threads[t].wait.k].queue)
  }

  /** Who saw a non-empty queue under the mutex still finds it so. */
  ghost predicate WaitSeen(pc: map<Cpu, Pc>, conds: map<Cond, Condition>)
  {
    forall c :: c in pc && pc[c].SignalSeen? ==> pc[c].k in conds && conds[pc[c].k].queue != []
  }

  ghost predicate WaitInv(s: State)
  {
    WaitCpus(s.pc, s.threads) && WaitThreads(s.pc, s.threads) && WaitQueues(s.conds, s.threads) && WaitSeen(s.pc, s.conds)
  }

  predicate SignalsOn(pc: Pc, u: Tid)
  {
    (pc.SignalTaken? || pc.SignalChecked?) && pc.u == u
  }

  /** No other CPU is about to leave thread `t` to its waiting queue. */
  ghost predicate NobodyParks(pc: map<Cpu, Pc>, c: Cpu, t: Tid)
  {
    forall d :: d in pc && d != c && (pc[d].SleepWaiting? || pc[d].SleepReady?) ==> pc[d].t != t
  }

  /** As `LocalMove`, for the facts about waiting. */
  lemma WaitMove(pc: map<Cpu, Pc>, threads: map<Tid, Tcb>, c: Cpu, q: Pc, t: Tid, x: Tcb)
    requires CpusOk(pc, threads) && WaitCpus(pc, threads) && WaitThreads(pc, threads) && c in pc && t in threads
    requires x.wait == threads[t].wait ||
             (threads[t].wait != NotWaiting && (threads[t].wait.TakenBy? ==> threads[t].wait.c == c)) ||
             (threads[t].wait == NotWaiting && threads[t].lock == Some(c))
    requires Awaited(threads[t]) && !Awaited(x) ==> threads[t].lock == Some(c)
    requires x.wait == threads[t].wait || threads[t].lock == Some(c) || NobodyParks(pc, c, t)
    requires forall u :: u != t && SignalsOn(pc[c], u) ==> SignalsOn(q, u) && (q.SignalTaken? ==> pc[c].SignalTaken?)
    requires pc[c].SleepWaiting? ==> pc[c].t == t
    requires WaitCpu(c, q, threads[t := x]) && WaitThread(t, x, pc[c := q])
    ensures WaitCpus(pc[c := q], threads[t := x]) && WaitThreads(pc[c := q], threads[t := x])
  {
    forall u | u in threads && u != t
      ensures WaitThread(u, threads[u], pc[c := q])
    {
      assert threads[u].wait == TakenBy(c) ==> SignalsOn(pc[c], u);
    }
    forall d | d in pc && d != c
      ensures WaitCpu(d, pc[d], threads[t := x])
    {
      assert CpuOk(d, pc[d], threads) && WaitCpu(d, pc[d], threads);
    }
  }

  lemma WaitFacts(pc: map<Cpu, Pc>, threads: map<Tid, Tcb>, c: Cpu, t: Tid)
    requires WaitCpus(pc, threads) && WaitThreads(pc, threads) && c in pc && t in threads
    ensures WaitCpu(c, pc[c], threads) && WaitThread(t, threads[t], pc)
  {
  }

  lemma WaitQueuesStay(conds: map<Cond, Condition>, threads: map<Tid, Tcb>, t: Tid, x: Tcb)
    requires WaitQueues(conds, threads) && t in threads
    requires x.wait == threads[t].wait || (!x.wait.InQueue? && !threads[t].wait.InQueue?)
    ensures WaitQueues(conds, threads[t := x])
  {
  }

  lemma WaitQueuesMutex(conds: map<Cond, Condition>, threads: map<Tid, Tcb>, k: Cond, m: Option<Cpu>)
    requires WaitQueues(conds, threads) && k in conds
    ensures WaitQueues(conds[k := conds[k].(mutex := m)], threads)
  {
  }

  lemma WaitQueuesPush(conds: map<Cond, Condition>, threads: map<Tid, Tcb>, k: Cond, t: Tid)
    requires WaitQueues(conds, threads) && k in conds && t in threads && threads[t].wait == NotWaiting
    ensures WaitQueues(conds[k := conds[k].(queue := conds[k].queue + [t])], threads[t := threads[t].(wait := InQueue(k))])
  {
  }

  lemma WaitQueuesPop(conds: map<Cond, Condition>, threads: map<Tid, Tcb>, k: Cond, c: Cpu)
    requires WaitQueues(conds, threads) && k in conds && conds[k].queue != []
    ensures var t := conds[k].queue[0];
            && t in threads && threads[t].wait == InQueue(k)
            && WaitQueues(conds[k := conds[k].(queue := conds[k].queue[1..])], threads[t := threads[t].(wait := TakenBy(c))])
  {
    var q := conds[k].queue;
    assert q == [q[0]] + q[1..];
  }

  lemma SeenStay(pc: map<Cpu, Pc>, conds: map<Cond, Condition>, c: Cpu, q: Pc)
    requires WaitSeen(pc, conds) && c in pc && (q.SignalSeen? ==> q.k in conds && conds[q.k].queue != [])
    ensures WaitSeen(pc[c := q], conds)
  {
  }

  /** Only the owner of a mutex touches the condition, and it is not one who has just seen the queue. */
  lemma SeenOwn(pc: map<Cpu, Pc>, conds: map<Cond, Condition>, c: Cpu, q: Pc, k: Cond, x: Condition)
    requires WaitSeen(pc, conds) && MutexOk(pc, conds) && c in pc && Holds(pc[c], k) && !q.SignalSeen?
    ensures WaitSeen(pc[c := q], conds[k := x])
  {
    forall d | d in pc && d != c && pc[d].SignalSeen?
      ensures pc[d].k != k
    {
      MutexFacts(pc, conds, c, d);
      assert Holds(pc[d], pc[d].k);
    }
  }

  lemma SeenTake(pc: map<Cpu, Pc>, conds: map<Cond, Condition>, c: Cpu, q: Pc, k: Cond, m: Option<Cpu>)
    requires WaitSeen(pc, conds) && c in pc && !q.SignalSeen? && k in conds
    ensures WaitSeen(pc[c := q], conds[k := conds[k].(mutex := m)])
  {
  }

  lemma ScheduleWaits(s: State, c: Cpu)
    requires Inv(s) && WaitInv(s) && CanAct(s, c, Yield)
    requires s.pc[c].Loop? || s.pc[c].Popped? || s.pc[c].Resumed? || s.pc[c].Running? || s.pc[c].Yielding? ||
             s.pc[c].YieldQueued? || s.pc[c].SwitchOut? || s.pc[c].Switched?
    ensures WaitInv(ScheduleStep(s, c))
  {
    hide CpusOk, ThreadsOk, QueuesOk, MutexOk, WaitCpus, WaitThreads, WaitQueues, WaitSeen;
    var s' := ScheduleStep(s, c);
    Facts(s.pc, s.threads, c);
    SeenStay(s.pc, s.conds, c, s'.pc[c]);
    if s.pc[c].Loop? {
      QueuePop(s.runnable, s.sleeping, s.threads, c);
    }
    var t := if s.pc[c].Loop? then s.runnable[0] else s.pc[c].t;
    var x := s'.threads[t];
    WaitFacts(s.pc, s.threads, c, t);
    WaitMove(s.pc, s.threads, c, s'.pc[c], t, x);
    WaitQueuesStay(s.conds, s.threads, t, x);
    assert s'.threads == s.threads[t := x];
  }

  lemma MutexWaits(s: State, c: Cpu, choice: Choice)
    requires Inv(s) && WaitInv(s) && CanAct(s, c, choice)
    requires (s.pc[c].Running? && choice.Enter?) || (s.pc[c].Inside? && choice == Exit)
    ensures WaitInv(Apply(s, Act(c, choice)))
  {
    hide CpusOk, ThreadsOk, QueuesOk, MutexOk, WaitCpus, WaitThreads, WaitQueues, WaitSeen;
    var s' := Apply(s, Act(c, choice));
    Facts(s.pc, s.threads, c);
    var t := s.pc[c].t;
    var k := if choice.Enter? then choice.k else s.pc[c].k;
    WaitFacts(s.pc, s.threads, c, t);
    WaitMove(s.pc, s.threads, c, s'.pc[c], t, s.threads[t]);
    assert s'.threads == s.threads[t := s.threads[t]];
    WaitQueuesMutex(s.conds, s.threads, k, s'.conds[k].mutex);
    SeenTake(s.pc, s.conds, c, s'.pc[c], k, s'.conds[k].mutex);
  }

  lemma SleepWaits(s: State, c: Cpu)
    requires Inv(s) && WaitInv(s) && CanAct(s, c, Sleep)
    requires s.pc[c].Inside? || s.pc[c].SleepLocked? || s.pc[c].SleepQueued? || s.pc[c].SleepWaiting?
    ensures WaitInv(SleepStep(s, c))
  {
    hide CpusOk, ThreadsOk, QueuesOk, MutexOk, WaitCpus, WaitThreads, WaitQueues, WaitSeen;
    var s' := SleepStep(s, c);
    Facts(s.pc, s.threads, c);
    var t := s.pc[c].t;
    var x := s'.threads[t];
    WaitFacts(s.pc, s.threads, c, t);
    WaitMove(s.pc, s.threads, c, s'.pc[c], t, x);
    WaitQueuesStay(s.conds, s.threads, t, x);
    SeenStay(s.pc, s.conds, c, s'.pc[c]);
  }

  lemma SleepOnQueueWaits(s: State, c: Cpu)
    requires Inv(s) && WaitInv(s) && CanAct(s, c, Sleep)
    requires s.pc[c].SleepMarked? || s.pc[c].SleepReady?
    ensures WaitInv(SleepStep(s, c))
  {
    hide CpusOk, ThreadsOk, QueuesOk, MutexOk, WaitCpus, WaitThreads, WaitQueues, WaitSeen;
    var s' := SleepStep(s, c);
    Facts(s.pc, s.threads, c);
    var t, k := s.pc[c].t, s.pc[c].k;
    var x := s'.threads[t];
    WaitFacts(s.pc, s.threads, c, t);
    WaitMove(s.pc, s.threads, c, s'.pc[c], t, x);
    assert s'.threads == s.threads[t := x];
    SeenOwn(s.pc, s.conds, c, s'.pc[c], k, s'.conds[k]);
    if s.pc[c].SleepMarked? {
      WaitQueuesPush(s.conds, s.threads, k, t);
    } else {
      WaitQueuesMutex(s.conds, s.threads, k, None);
    }
  }

  lemma SignalWaits(s: State, c: Cpu)
    requires Inv(s) && WaitInv(s) && CanAct(s, c, Signal)
    requires s.pc[c].SignalTaken? || s.pc[c].SignalChecked? || s.pc[c].SignalMoved? || s.pc[c].SignalMarked?
    ensures WaitInv(SignalStep(s, c))
  {
    hide CpusOk, ThreadsOk, QueuesOk, MutexOk, WaitCpus, WaitThreads, WaitQueues, WaitSeen;
    var s' := SignalStep(s, c);
    Facts(s.pc, s.threads, c);
    var u := s.pc[c].u;
    var x := s'.threads[u];
    WaitFacts(s.pc, s.threads, c, u);
    WaitMove(s.pc, s.threads, c, s'.pc[c], u, x);
    WaitQueuesStay(s.conds, s.threads, u, x);
    SeenStay(s.pc, s.conds, c, s'.pc[c]);
  }

  /** Whoever parks in a waiting queue holds its mutex, so the signaller does not meet it there. */
  lemma OwnerIsAlone(s: State, c: Cpu, k: Cond, u: Tid)
    requires Inv(s) && WaitInv(s) && c in s.pc && Holds(s.pc[c], k) && u in s.threads && s.threads[u].wait == InQueue(k)
    ensures NobodyParks(s.pc, c, u)
  {
    hide CpusOk, ThreadsOk, QueuesOk, MutexOk, WaitCpus, WaitThreads, WaitQueues, WaitSeen;
    forall d | d in s.pc && d != c && (s.pc[d].SleepWaiting? || s.pc[d].SleepReady?)
      ensures s.pc[d].t != u
    {
      WaitFacts(s.pc, s.threads, d, u);
      MutexFacts(s.pc, s.conds, c, d);
      assert Holds(s.pc[d], s.pc[d].k);
    }
  }

  lemma SignalTakeWaits(s: State, c: Cpu)
    requires Inv(s) && WaitInv(s) && CanAct(s, c, Signal) && s.pc[c].SignalSeen?
    ensures WaitInv(SignalStep(s, c))
  {
    hide CpusOk, ThreadsOk, QueuesOk, MutexOk, WaitCpus, WaitThreads, WaitQueues, WaitSeen;
    var k := s.pc[c].k;
    SeenFacts(s.pc, s.conds, c);
    WaitQueuesPop(s.conds, s.threads, k, c);
    var s' := SignalStep(s, c);
    var u := s'.pc[c].u;
    Facts(s.pc, s.threads, c);
    WaitFacts(s.pc, s.threads, c, u);
    if s.threads[u].lock.Some? && s.threads[u].lock.value in s.pc {
      MutexFacts(s.pc, s.conds, c, s.threads[u].lock.value);
      assert Holds(s.pc[c], k);
    }
    OwnerIsAlone(s, c, k, u);
    WaitMove(s.pc, s.threads, c, s'.pc[c], u, s'.threads[u]);
    SeenOwn(s.pc, s.conds, c, s'.pc[c], k, s'.conds[k]);
  }

  lemma SeenFacts(pc: map<Cpu, Pc>, conds: map<Cond, Condition>, c: Cpu)
    requires WaitSeen(pc, conds) && c in pc && pc[c].SignalSeen?
    ensures pc[c].k in conds && conds[pc[c].k].queue != []
  {
  }

  lemma SignalSeenWaits(s: State, c: Cpu)
    requires Inv(s) && WaitInv(s) && CanAct(s, c, Signal) && s.pc[c].Inside?
    ensures WaitInv(SignalStep(s, c))
  {
    hide CpusOk, ThreadsOk, QueuesOk, MutexOk, WaitCpus, WaitThreads, WaitQueues, WaitSeen;
    var s' := SignalStep(s, c);
    var t := s.pc[c].t;
    Facts(s.pc, s.threads, c);
    WaitFacts(s.pc, s.threads, c, t);
    WaitMove(s.pc, s.threads, c, s'.pc[c], t, s.threads[t]);
    assert s'.threads == s.threads[t := s.threads[t]];
    assert s'.pc == s.pc[c := s'.pc[c]];
    SeenStay(s.pc, s.conds, c, s'.pc[c]);
  }

  lemma ActWaits(s: State, c: Cpu, choice: Choice)
    requires Inv(s) && WaitInv(s) && CanAct(s, c, choice)
    ensures WaitInv(Apply(s, Act(c, choice)))
  {
    hide Inv, WaitInv;
    var pc := s.pc[c];
    if (pc.Running? && choice.Enter?) || (pc.Inside? && choice == Exit) {
      MutexWaits(s, c, choice);
    } else if pc.SignalSeen? {
      SignalTakeWaits(s, c);
    } else if pc.Inside? && choice == Signal {
      SignalSeenWaits(s, c);
    } else if pc.SignalTaken? || pc.SignalChecked? || pc.SignalMoved? || pc.SignalMarked? {
      SignalWaits(s, c);
    } else if pc.SleepMarked? || pc.SleepReady? {
      SleepOnQueueWaits(s, c);
    } else if pc.Inside? || pc.SleepLocked? || pc.SleepQueued? || pc.SleepWaiting? {
      SleepWaits(s, c);
    } else {
      ScheduleWaits(s, c);
    }
  }

  // ---------------------------------------------------------------- external wakeups

  /**
   A wakeup that does no harm: the thread is still in the waiting queue its wait_chan_entry names, and it is not the
   only one there while a signaller has seen the queue and not yet taken a thread.
   */
  predicate Harmless(s: State, e: Event)
  {
    match e
    case Act(_, _) => true
    case External(u) =>
      && u in s.threads && s.threads[u].chan.Some? && s.threads[u].chan.value in s.conds
      && var k := s.threads[u].chan.value;
         u in s.conds[k].queue && forall c :: c in s.pc && s.pc[c].SignalSeen? && s.pc[c].k == k ==> s.conds[k].queue != [u]
  }

  /** Removing a thread from a longer queue leaves it non-empty. */
  lemma WithoutSome(q: seq<Tid>, u: Tid)
    requires Distinct(q) && q != [] && q != [u]
    ensures Without(q, u) != []
  {
    WithoutMembers(q, u);
    if |q| == 1 {
      assert q[0] in Without(q, u);
    } else {
      var x := if q[0] == u then q[1] else q[0];
      assert x in Without(q, u);
    }
  }

  lemma WakeupMove(pc: map<Cpu, Pc>, threads: map<Tid, Tcb>, u: Tid, x: Tcb)
    requires CpusOk(pc, threads) && WaitCpus(pc, threads) && WaitThreads(pc, threads) && u in threads
    requires threads[u].lock == None && threads[u].wait.InQueue?
    requires x.lock == None && x.home == InRunnable && x.wait == NotWaiting
    ensures WaitCpus(pc, threads[u := x]) && WaitThreads(pc, threads[u := x])
  {
    forall d | d in pc
      ensures WaitCpu(d, pc[d], threads[u := x])
    {
      assert CpuOk(d, pc[d], threads) && WaitCpu(d, pc[d], threads);
    }
  }

  lemma WaitQueuesRemove(conds: map<Cond, Condition>, threads: map<Tid, Tcb>, k: Cond, u: Tid, x: Tcb)
    requires WaitQueues(conds, threads) && k in conds && u in conds[k].queue && x.wait == NotWaiting
    ensures WaitQueues(conds[k := conds[k].(queue := Without(conds[k].queue, u))], threads[u := x])
  {
    hide Distinct, Without;
    WithoutMembers(conds[k].queue, u);
    var conds', threads' := conds[k := conds[k].(queue := Without(conds[k].queue, u))], threads[u := x];
    forall j, t | j in conds' && t in conds'[j].queue
      ensures t in threads' && threads'[t].wait == InQueue(j)
    {
      assert t in conds[j].queue && threads[u].wait == InQueue(k);
      assert j == k ==> t in Without(conds[k].queue, u);
    }
    forall t | t in threads' && threads'[t].wait.InQueue?
      ensures threads'[t].wait.k in conds' && t in conds'[threads'[t].wait.k].queue
    {
      assert t in conds[threads[t].wait.k].queue;
    }
  }

  lemma SeenRemove(pc: map<Cpu, Pc>, conds: map<Cond, Condition>, k: Cond, u: Tid)
    requires WaitSeen(pc, conds) && k in conds && Distinct(conds[k].queue)
    requires forall c :: c in pc && pc[c].SignalSeen? && pc[c].k == k ==> conds[k].queue != [u]
    ensures WaitSeen(pc, conds[k := conds[k].(queue := Without(conds[k].queue, u))])
  {
    hide Distinct, Without;
    if conds[k].queue != [] && conds[k].queue != [u] {
      WithoutSome(conds[k].queue, u);
    }
  }

  lemma WaitQueueFacts(conds: map<Cond, Condition>, threads: map<Tid, Tcb>, k: Cond, u: Tid)
    requires WaitQueues(conds, threads) && k in conds && u in threads
    ensures Distinct(conds[k].queue)
    ensures u in conds[k].queue <==> threads[u].wait == InQueue(k)
  {
  }

  /** A harmless wakeup keeps what the signallers rely on. */
  lemma WakeupWaits(s: State, u: Tid)
    requires Inv(s) && WaitInv(s) && Enabled(s, External(u)) && Harmless(s, External(u))
    ensures WaitInv(WakeupStep(s, u))
  {
    hide CpusOk, ThreadsOk, QueuesOk, MutexOk, WaitCpus, WaitThreads, WaitQueues, WaitSeen, Distinct, Without;
    var s' := WakeupStep(s, u);
    var k := s.threads[u].chan.value;
    WaitQueueFacts(s.conds, s.threads, k, u);
    WakeupMove(s.pc, s.threads, u, s'.threads[u]);
    WaitQueuesRemove(s.conds, s.threads, k, u, s'.threads[u]);
    SeenRemove(s.pc, s.conds, k, u);
  }

  /** After any other wakeup there is a signaller whose next step stops it. */
  lemma HarmfulStops(s: State, u: Tid) returns (c: Cpu)
    requires Inv(s) && WaitInv(s) && Enabled(s, External(u)) && !Harmless(s, External(u))
    ensures StopsNext(WakeupStep(s, u), c)
  {
    hide CpusOk, ThreadsOk, QueuesOk, MutexOk, WaitCpus, WaitThreads, WaitQueues, WaitSeen, Distinct, Without;
    var s' := WakeupStep(s, u);
    var k := s.threads[u].chan.value;
    ThreadFacts(s.pc, s.threads, u);
    WaitQueueFacts(s.conds, s.threads, k, u);
    if u in s.conds[k].queue {
      c :| c in s.pc && s.pc[c].SignalSeen? && s.pc[c].k == k && s.conds[k].queue == [u];
      WithoutOnly(u);
      assert s'.conds[k].queue == [] && CanAct(s', c, Signal) && Apply(s', Act(c, Signal)).pc[c].NoThread?;
    } else {
      WaitThreadFacts(s.pc, s.threads, u);
      c := Taker(s, u);
      assert CanAct(s', c, Signal) && Apply(s', Act(c, Signal)).pc[c].NotSleeping?;
    }
  }

  lemma WithoutOnly(u: Tid)
    ensures Without([u], u) == []
  {
  }

  lemma WaitThreadFacts(pc: map<Cpu, Pc>, threads: map<Tid, Tcb>, t: Tid)
    requires WaitThreads(pc, threads) && t in threads
    ensures WaitThread(t, threads[t], pc)
  {
  }

  /** A sleeper outside the queue its wait_chan_entry names is in the hands of a signaller. */
  lemma Taker(s: State, u: Tid) returns (c: Cpu)
    requires Inv(s) && WaitInv(s) && u in s.threads && s.threads[u].lock == None && s.threads[u].state == SLEEPING
    requires s.threads[u].chan.Some? && s.threads[u].wait != InQueue(s.threads[u].chan.value)
    ensures c in s.pc && s.pc[c].SignalTaken? && s.pc[c].u == u
  {
    hide CpusOk, QueuesOk, MutexOk, WaitCpus, WaitQueues, WaitSeen;
    ThreadFacts(s.pc, s.threads, u);
    WaitThreadFacts(s.pc, s.threads, u);
    c := s.threads[u].wait.c;
    if s.pc[c].SignalChecked? {
      CheckedHoldsLock(s, c);
      assert false;
    }
  }

  /** The CPU is stopped, or its next step stops it. */
  ghost predicate StopsNext(s: State, c: Cpu)
  {
    && c in s.pc
    && (Stopped(s.pc[c]) || exists choice :: CanAct(s, c, choice) && Stopped(Apply(s, Act(c, choice)).pc[c]))
  }

  lemma NobodyStops(s: State, c: Cpu)
    requires Inv(s) && WaitInv(s)
    ensures !StopsNext(s, c)
  {
    hide Inv, WaitInv;
    if c in s.pc {
      WaitCpuFacts(s, c);
      forall choice | CanAct(s, c, choice)
        ensures !Stopped(Apply(s, Act(c, choice)).pc[c])
      {
        ActWaits(s, c, choice);
        WaitCpuFacts(Apply(s, Act(c, choice)), c);
      }
    }
  }

  // ---------------------------------------------------------------- whole runs

  lemma StepWaits(s: State, e: Event)
    requires Inv(s) && WaitInv(s) && Enabled(s, e) && Harmless(s, e)
    ensures Inv(Apply(s, e)) && WaitInv(Apply(s, e))
  {
    hide Inv, WaitInv, CanAct, Harmless;
    StepKeeps(s, e);
    match e
    case External(u) => WakeupWaits(s, u);
    case Act(c, choice) => ActWaits(s, c, choice);
  }

  lemma InitWaits(s: State)
    requires Init(s)
    ensures Inv(s) && WaitInv(s)
  {
  }

  /** As long as every wakeup is harmless, the waiting queues hold exactly the threads that wait there. */
  lemma {:induction false} WaitSafety(states: seq<State>, events: seq<Event>, n: nat)
    requires Trace(states, events) && Init(states[0]) && n <= |events|
    requires forall i :: 0 <= i < n ==> Harmless(states[i], events[i])
    ensures Inv(states[n]) && WaitInv(states[n])
  {
    hide Inv, WaitInv, Init, Enabled, Apply, Harmless;
    if n == 0 {
      InitWaits(states[0]);
    } else {
      WaitSafety(states, events, n - 1);
      assert Step(states[n - 1], events[n - 1], states[n]);
      StepWaits(states[n - 1], events[n - 1]);
    }
  }

  /** If nobody ever is a step from stopping, every wakeup has been harmless. */
  lemma {:induction false} NoStopNoHarm(states: seq<State>, events: seq<Event>, n: nat)
    requires Trace(states, events) && Init(states[0]) && n <= |events|
    requires forall i, c :: 0 <= i <= |events| ==> !StopsNext(states[i], c)
    ensures forall i :: 0 <= i < n ==> Harmless(states[i], events[i])
  {
    hide Inv, WaitInv, Init, Enabled, Apply, Harmless, StopsNext;
    if n > 0 {
      var k := n - 1;
      NoStopNoHarm(states, events, k);
      WaitSafety(states, events, k);
      assert Step(states[k], events[k], states[n]);
      if !Harmless(states[k], events[k]) {
        var c := HarmIsSeen(states[k], events[k]);
      }
    }
  }

  lemma HarmIsSeen(s: State, e: Event) returns (c: Cpu)
    requires Inv(s) && WaitInv(s) && Enabled(s, e) && !Harmless(s, e)
    ensures StopsNext(Apply(s, e), c)
  {
    hide Inv, WaitInv;
    c := HarmfulStops(s, e.u);
  }

  /**
   The exact condition: in a run nobody is ever stopped or a step from stopping if and only if every external wakeup
   of the run is harmless.
   */
  lemma StopsExactly(states: seq<State>, events: seq<Event>)
    requires Trace(states, events) && Init(states[0])
    ensures (forall i :: 0 <= i < |events| ==> Harmless(states[i], events[i])) <==>
            (forall i, c :: 0 <= i <= |events| ==> !StopsNext(states[i], c))
  {
    hide Step, Inv, WaitInv, Init, Harmless, StopsNext;
    if forall i :: 0 <= i < |events| ==> Harmless(states[i], events[i]) {
      forall i, c | 0 <= i <= |events|
        ensures !StopsNext(states[i], c)
      {
        WaitSafety(states, events, i);
        NobodyStops(states[i], c);
      }
    }
    if forall i, c :: 0 <= i <= |events| ==> !StopsNext(states[i], c) {
      NoStopNoHarm(states, events, |events|);
    }
  }

  /** With harmless wakeups only, `cond_signal` always finds a thread, and that thread is SLEEPING. */
  lemma SignalNeverPanics(states: seq<State>, events: seq<Event>, n: nat, c: Cpu)
    requires Trace(states, events) && Init(states[0]) && n <= |events| && c in states[n].pc
    requires forall i :: 0 <= i < n ==> Harmless(states[i], events[i])
    ensures var s := states[n]; var pc := s.pc[c];
            && !Stopped(pc)
            && (pc.SignalSeen? ==> pc.k in s.conds && s.conds[pc.k].queue != [])
            && (pc.SignalTaken? ==> pc.u in s.threads && s.threads[pc.u].state == SLEEPING && s.threads[pc.u].chan.Some?)
  {
    hide Step, Init, Harmless;
    WaitSafety(states, events, n);
    WaitCpuFacts(states[n], c);
  }

  lemma WaitCpuFacts(s: State, c: Cpu)
    requires WaitInv(s) && c in s.pc
    ensures var pc := s.pc[c];
            && !Stopped(pc)
            && (pc.SignalSeen? ==> pc.k in s.conds && s.conds[pc.k].queue != [])
            && (pc.SignalTaken? ==> pc.u in s.threads && s.threads[pc.u].state == SLEEPING && s.threads[pc.u].chan.Some?)
  {
    hide WaitQueues;
    assert WaitCpu(c, s.pc[c], s.threads);
  }

  /** Nor is any sleeper forgotten: it waits in the queue its wait_chan_entry names, or a signaller has it. */
  lemma NoSleeperForgotten(states: seq<State>, events: seq<Event>, n: nat, t: Tid)
    requires Trace(states, events) && Init(states[0]) && n <= |events|
    requires forall i :: 0 <= i < n ==> Harmless(states[i], events[i])
    requires var s := states[n]; t in s.threads && s.threads[t].state == SLEEPING && s.threads[t].lock == None
    ensures var s := states[n];
            || (exists k :: k in s.conds && t in s.conds[k].queue && s.threads[t].chan == Some(k))
            || (exists c :: c in s.pc && s.pc[c].SignalTaken? && s.pc[c].u == t)
  {
    hide Step, Init, Harmless;
    WaitSafety(states, events, n);
    SleeperPlace(states[n], t);
  }

  lemma SleeperPlace(s: State, t: Tid)
    requires Inv(s) && WaitInv(s) && t in s.threads && s.threads[t].state == SLEEPING && s.threads[t].lock == None
    ensures (exists k :: k in s.conds && t in s.conds[k].queue && s.threads[t].chan == Some(k)) ||
            (exists c :: c in s.pc && s.pc[c].SignalTaken? && s.pc[c].u == t)
  {
    hide CpusOk, QueuesOk, MutexOk, WaitCpus, WaitSeen;
    ThreadFacts(s.pc, s.threads, t);
    var x := s.threads[t];
    assert WaitThread(t, x, s.pc);
    if x.wait.InQueue? {
      assert t in s.conds[x.wait.k].queue;
    } else if s.pc[x.wait.c].SignalChecked? {
      CheckedHoldsLock(s, x.wait.c);
      assert false;
    }
  }

  lemma CheckedHoldsLock(s: State, c: Cpu)
    requires Inv(s) && c in s.pc && s.pc[c].SignalChecked?
    ensures s.pc[c].u in s.threads && s.threads[s.pc[c].u].lock == Some(c)
  {
    Facts(s.pc, s.threads, c);
  }
}
