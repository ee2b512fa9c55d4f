/** One external wakeup at the wrong moment: runs that end in the two stops of `cond_signal`. */
module SchedulerRace {
  import opened Common
  import opened Scheduler

  /** Two CPUs of which the second idles, threads 0 and 1, condition 0. */
  function Scene(pc: Pc, x0: Tcb, x1: Tcb, mutex: Option<Cpu>, queue: seq<Tid>, runnable: seq<Tid>, sleeping: set<Tid>): State
  {
    State(map[0 := pc, 1 := Loop], map[0 := x0, 1 := x1], map[0 := Condition(mutex, queue)], runnable, sleeping)
  }

  const READY := Tcb(RUNNABLE, None, None, InRunnable, NotWaiting)
  const BUSY := Tcb(RUNNING, None, None, OnCpu(0), NotWaiting)
  const DROWSY := Tcb(SLEEPING, Some(0), None, InSleeping, NotWaiting)
  const ASLEEP := Tcb(SLEEPING, None, Some(0), InSleeping, InQueue(0))

  lemma SceneFields()
    ensures forall p, x0, x1, m, q, r, z :: var s := Scene(p, x0, x1, m, q, r, z);
              && 0 in s.pc && s.pc[0] == p && 0 in s.threads && 1 in s.threads && s.threads[0] == x0 && s.threads[1] == x1
              && 0 in s.conds && s.conds[0] == Condition(m, q) && s.runnable == r && s.sleeping == z
  {
  }

  lemma SceneUpdates()
    ensures forall p, x0, x1, m, q, r, z, p2 :: Goto(Scene(p, x0, x1, m, q, r, z), 0, p2) == Scene(p2, x0, x1, m, q, r, z)
    ensures forall p, x0, x1, m, q, r, z, x2 :: SetThread(Scene(p, x0, x1, m, q, r, z), 0, x2) == Scene(p, x2, x1, m, q, r, z)
    ensures forall p, x0, x1, m, q, r, z, x2 :: SetThread(Scene(p, x0, x1, m, q, r, z), 1, x2) == Scene(p, x0, x2, m, q, r, z)
    ensures forall p, x0, x1, m, q, r, z, y :: SetCond(Scene(p, x0, x1, m, q, r, z), 0, y) == Scene(p, x0, x1, y.mutex, y.queue, r, z)
    ensures forall p, x0, x1, m, q, r, z, r2, z2 :: SetQueues(Scene(p, x0, x1, m, q, r, z), r2, z2) == Scene(p, x0, x1, m, q, r2, z2)
  {
  }

  lemma Displays()
    ensures {} + {1 as Tid} == {1} && {1 as Tid} - {1} == {}
    ensures [] + [1 as Tid] == [1] && Without([], 1 as Tid) == [] && Without([1 as Tid], 1) == []
  {
  }

  lemma Extend(init: State, events: seq<Event>, mid: State, e: Event, s: State)
    requires Reaches(init, events, mid) && Enabled(mid, e) && s == Apply(mid, e)
    ensures Reaches(init, events + [e], s)
  {
    assert (events + [e])[..|events|] == events;
  }

  /** CPU 0 dispatches the only runnable thread among 0 and 1 that is first in the queue. */
  lemma Dispatch1(init: State, events: seq<Event>) returns (more: seq<Event>)
    requires Reaches(init, events, Scene(Loop, READY, READY, None, [], [1, 0], {}))
    ensures Reaches(init, more, Scene(Running(1), READY, BUSY, None, [], [0], {}))
  {
    hide Reaches, Scene, Goto, SetThread, SetCond, SetQueues;
    SceneFields();
    SceneUpdates();
    Displays();
    var e := Act(0, Yield);
    var s0 := Scene(Loop, READY, READY, None, [], [1, 0], {});
    var s1 := Scene(Popped(1), READY, READY.(home := PoppedBy(0)), None, [], [0], {});
    var s2 := Scene(Resumed(1), READY, BUSY.(lock := Some(0)), None, [], [0], {});
    var s3 := Scene(Running(1), READY, BUSY, None, [], [0], {});
    Extend(init, events, s0, e, s1);
    Extend(init, events + [e], s1, e, s2);
    Extend(init, events + [e] + [e], s2, e, s3);
    more := events + [e] + [e] + [e];
  }

  lemma BeginSleep(init: State, events: seq<Event>) returns (more: seq<Event>)
    requires Reaches(init, events, Scene(Running(1), READY, BUSY, None, [], [0], {}))
    ensures Reaches(init, more, Scene(SleepLocked(1, 0), READY, BUSY.(lock := Some(0)), Some(0), [], [0], {}))
  {
    hide Reaches, Scene, Goto, SetThread, SetCond, SetQueues;
    SceneFields();
    SceneUpdates();
    Displays();
    var s0 := Scene(Running(1), READY, BUSY, None, [], [0], {});
    var s1 := Scene(Inside(1, 0), READY, BUSY, Some(0), [], [0], {});
    var s2 := Scene(SleepLocked(1, 0), READY, BUSY.(lock := Some(0)), Some(0), [], [0], {});
    Extend(init, events, s0, Act(0, Enter(0)), s1);
    Extend(init, events + [Act(0, Enter(0))], s1, Act(0, Sleep), s2);
    more := events + [Act(0, Enter(0))] + [Act(0, Sleep)];
  }

  lemma QueueSleep(init: State, events: seq<Event>) returns (more: seq<Event>)
    requires Reaches(init, events, Scene(SleepLocked(1, 0), READY, BUSY.(lock := Some(0)), Some(0), [], [0], {}))
    ensures Reaches(init, more, Scene(SleepQueued(1, 0), READY, DROWSY.(state := RUNNING), Some(0), [], [0], {1}))
  {
    hide Reaches, Scene, Goto, SetThread, SetCond, SetQueues;
    SceneFields();
    SceneUpdates();
    Displays();
    var s0 := Scene(SleepLocked(1, 0), READY, BUSY.(lock := Some(0)), Some(0), [], [0], {});
    var s1 := Scene(SleepQueued(1, 0), READY, DROWSY.(state := RUNNING), Some(0), [], [0], {1});
    Extend(init, events, s0, Act(0, Sleep), s1);
    more := events + [Act(0, Sleep)];
  }

  lemma MarkSleep(init: State, events: seq<Event>) returns (more: seq<Event>)
    requires Reaches(init, events, Scene(SleepQueued(1, 0), READY, DROWSY.(state := RUNNING), Some(0), [], [0], {1}))
    ensures Reaches(init, more, Scene(SleepMarked(1, 0), READY, DROWSY, Some(0), [], [0], {1}))
  {
    hide Reaches, Scene, Goto, SetThread, SetCond, SetQueues;
    SceneFields();
    SceneUpdates();
    Displays();
    var s0 := Scene(SleepQueued(1, 0), READY, DROWSY.(state := RUNNING), Some(0), [], [0], {1});
    var s1 := Scene(SleepMarked(1, 0), READY, DROWSY, Some(0), [], [0], {1});
    Extend(init, events, s0, Act(0, Sleep), s1);
    more := events + [Act(0, Sleep)];
  }

  lemma JoinQueue(init: State, events: seq<Event>) returns (more: seq<Event>)
    requires Reaches(init, events, Scene(SleepMarked(1, 0), READY, DROWSY, Some(0), [], [0], {1}))
    ensures Reaches(init, more, Scene(SleepWaiting(1, 0), READY, DROWSY.(wait := InQueue(0)), Some(0), [1], [0], {1}))
  {
    hide Reaches, Scene, Goto, SetThread, SetCond, SetQueues;
    SceneFields();
    SceneUpdates();
    Displays();
    var s0 := Scene(SleepMarked(1, 0), READY, DROWSY, Some(0), [], [0], {1});
    var s1 := Scene(SleepWaiting(1, 0), READY, DROWSY.(wait := InQueue(0)), Some(0), [1], [0], {1});
    Extend(init, events, s0, Act(0, Sleep), s1);
    more := events + [Act(0, Sleep)];
  }

  lemma SetChannel(init: State, events: seq<Event>) returns (more: seq<Event>)
    requires Reaches(init, events, Scene(SleepWaiting(1, 0), READY, DROWSY.(wait := InQueue(0)), Some(0), [1], [0], {1}))
    ensures Reaches(init, more, Scene(SleepReady(1, 0), READY, ASLEEP.(lock := Some(0)), Some(0), [1], [0], {1}))
  {
    hide Reaches, Scene, Goto, SetThread, SetCond, SetQueues;
    SceneFields();
    SceneUpdates();
    Displays();
    var s0 := Scene(SleepWaiting(1, 0), READY, DROWSY.(wait := InQueue(0)), Some(0), [1], [0], {1});
    var s1 := Scene(SleepReady(1, 0), READY, ASLEEP.(lock := Some(0)), Some(0), [1], [0], {1});
    Extend(init, events, s0, Act(0, Sleep), s1);
    more := events + [Act(0, Sleep)];
  }

  lemma LeaveMutex(init: State, events: seq<Event>) returns (more: seq<Event>)
    requires Reaches(init, events, Scene(SleepReady(1, 0), READY, ASLEEP.(lock := Some(0)), Some(0), [1], [0], {1}))
    ensures Reaches(init, more, Scene(SwitchOut(1), READY, ASLEEP.(lock := Some(0)), None, [1], [0], {1}))
  {
    hide Reaches, Scene, Goto, SetThread, SetCond, SetQueues;
    SceneFields();
    SceneUpdates();
    var s0 := Scene(SleepReady(1, 0), READY, ASLEEP.(lock := Some(0)), Some(0), [1], [0], {1});
    var s1 := Scene(SwitchOut(1), READY, ASLEEP.(lock := Some(0)), None, [1], [0], {1});
    Extend(init, events, s0, Act(0, Sleep), s1);
    more := events + [Act(0, Sleep)];
  }

  lemma LeaveCpu(init: State, events: seq<Event>) returns (more: seq<Event>)
    requires Reaches(init, events, Scene(SwitchOut(1), READY, ASLEEP.(lock := Some(0)), None, [1], [0], {1}))
    ensures Reaches(init, more, Scene(Switched(1), READY, ASLEEP.(lock := Some(0)), None, [1], [0], {1}))
  {
    hide Reaches, Scene, Goto, SetThread, SetCond, SetQueues;
    SceneFields();
    SceneUpdates();
    var s0 := Scene(SwitchOut(1), READY, ASLEEP.(lock := Some(0)), None, [1], [0], {1});
    var s1 := Scene(Switched(1), READY, ASLEEP.(lock := Some(0)), None, [1], [0], {1});
    Extend(init, events, s0, Act(0, Yield), s1);
    more := events + [Act(0, Yield)];
  }

  lemma LeaveLock(init: State, events: seq<Event>) returns (more: seq<Event>)
    requires Reaches(init, events, Scene(Switched(1), READY, ASLEEP.(lock := Some(0)), None, [1], [0], {1}))
    ensures Reaches(init, more, Scene(Loop, READY, ASLEEP, None, [1], [0], {1}))
  {
    hide Reaches, Scene, Goto, SetThread, SetCond, SetQueues;
    SceneFields();
    SceneUpdates();
    var s0 := Scene(Switched(1), READY, ASLEEP.(lock := Some(0)), None, [1], [0], {1});
    var s1 := Scene(Loop, READY, ASLEEP, None, [1], [0], {1});
    Extend(init, events, s0, Act(0, Yield), s1);
    more := events + [Act(0, Yield)];
  }

  lemma Dispatch0(init: State, events: seq<Event>) returns (more: seq<Event>)
    requires Reaches(init, events, Scene(Loop, READY, ASLEEP, None, [1], [0], {1}))
    ensures Reaches(init, more, Scene(Running(0), BUSY, ASLEEP, None, [1], [], {1}))
  {
    hide Reaches, Scene, Goto, SetThread, SetCond, SetQueues;
    SceneFields();
    SceneUpdates();
    Displays();
    var e := Act(0, Yield);
    var s0 := Scene(Loop, READY, ASLEEP, None, [1], [0], {1});
    var s1 := Scene(Popped(0), READY.(home := PoppedBy(0)), ASLEEP, None, [1], [], {1});
    var s2 := Scene(Resumed(0), BUSY.(lock := Some(0)), ASLEEP, None, [1], [], {1});
    var s3 := Scene(Running(0), BUSY, ASLEEP, None, [1], [], {1});
    Extend(init, events, s0, e, s1);
    Extend(init, events + [e], s1, e, s2);
    Extend(init, events + [e] + [e], s2, e, s3);
    more := events + [e] + [e] + [e];
  }

  lemma BeginSignal(init: State, events: seq<Event>) returns (more: seq<Event>)
    requires Reaches(init, events, Scene(Running(0), BUSY, ASLEEP, None, [1], [], {1}))
    ensures Reaches(init, more, Scene(SignalSeen(0, 0), BUSY, ASLEEP, Some(0), [1], [], {1}))
  {
    hide Reaches, Scene, Goto, SetThread, SetCond, SetQueues;
    SceneFields();
    SceneUpdates();
    Displays();
    var s0 := Scene(Running(0), BUSY, ASLEEP, None, [1], [], {1});
    var s1 := Scene(Inside(0, 0), BUSY, ASLEEP, Some(0), [1], [], {1});
    var s2 := Scene(SignalSeen(0, 0), BUSY, ASLEEP, Some(0), [1], [], {1});
    Extend(init, events, s0, Act(0, Enter(0)), s1);
    Extend(init, events + [Act(0, Enter(0))], s1, Act(0, Signal), s2);
    more := events + [Act(0, Enter(0))] + [Act(0, Signal)];
  }

  lemma TakeSleeper(init: State, events: seq<Event>) returns (more: seq<Event>)
    requires Reaches(init, events, Scene(SignalSeen(0, 0), BUSY, ASLEEP, Some(0), [1], [], {1}))
    ensures Reaches(init, more, Scene(SignalTaken(0, 0, 1), BUSY, READY, Some(0), [], [1], {}))
  {
    hide Reaches, Scene, Goto, SetThread, SetCond, SetQueues;
    SceneFields();
    SceneUpdates();
    Displays();
    var s0 := Scene(SignalSeen(0, 0), BUSY, ASLEEP, Some(0), [1], [], {1});
    var s1 := Scene(SignalTaken(0, 0, 1), BUSY, ASLEEP.(wait := TakenBy(0)), Some(0), [], [], {1});
    var s2 := Scene(SignalTaken(0, 0, 1), BUSY, READY, Some(0), [], [1], {});
    Extend(init, events, s0, Act(0, Signal), s1);
    Extend(init, events + [Act(0, Signal)], s1, External(1), s2);
    more := events + [Act(0, Signal)] + [External(1)];
  }

  lemma Panic(init: State, events: seq<Event>) returns (more: seq<Event>)
    requires Reaches(init, events, Scene(SignalTaken(0, 0, 1), BUSY, READY, Some(0), [], [1], {}))
    ensures Reaches(init, more, Scene(NotSleeping(0, 0, 1), BUSY, READY.(lock := Some(0)), Some(0), [], [1], {}))
  {
    hide Reaches, Scene, Goto, SetThread, SetCond, SetQueues;
    SceneFields();
    SceneUpdates();
    Displays();
    var s0 := Scene(SignalTaken(0, 0, 1), BUSY, READY, Some(0), [], [1], {});
    var s1 := Scene(NotSleeping(0, 0, 1), BUSY, READY.(lock := Some(0)), Some(0), [], [1], {});
    Extend(init, events, s0, Act(0, Signal), s1);
    more := events + [Act(0, Signal)];
  }

  /** The wakeup takes the only waiting thread away after the signaller has seen it. */
  lemma FindNobody(init: State, events: seq<Event>) returns (more: seq<Event>)
    requires Reaches(init, events, Scene(SignalSeen(0, 0), BUSY, ASLEEP, Some(0), [1], [], {1}))
    ensures Reaches(init, more, Scene(NoThread(0, 0), BUSY, READY, Some(0), [], [1], {}))
  {
    hide Reaches, Scene, Goto, SetThread, SetCond, SetQueues;
    SceneFields();
    SceneUpdates();
    Displays();
    var s0 := Scene(SignalSeen(0, 0), BUSY, ASLEEP, Some(0), [1], [], {1});
    var s1 := Scene(SignalSeen(0, 0), BUSY, READY, Some(0), [], [1], {});
    var s2 := Scene(NoThread(0, 0), BUSY, READY, Some(0), [], [1], {});
    Extend(init, events, s0, External(1), s1);
    Extend(init, events + [External(1)], s1, Act(0, Signal), s2);
    more := events + [External(1)] + [Act(0, Signal)];
  }

  /** Thread 1 sleeps, and thread 0 has seen it in the queue. */
  lemma Prelude() returns (init: State, events: seq<Event>)
    ensures Init(init) && Reaches(init, events, Scene(SignalSeen(0, 0), BUSY, ASLEEP, Some(0), [1], [], {1}))
  {
    hide Reaches, Scene, Init;
    init := Start();
    events := Dispatch1(init, []);
    events := BeginSleep(init, events);
    events := QueueSleep(init, events);
    events := MarkSleep(init, events);
    events := JoinQueue(init, events);
    events := SetChannel(init, events);
    events := LeaveMutex(init, events);
    events := LeaveCpu(init, events);
    events := LeaveLock(init, events);
    events := Dispatch0(init, events);
    events := BeginSignal(init, events);
  }

  /** With one external wakeup between the dequeue and the lock, `cond_signal` reaches its panic. */
  lemma ExternalWakeupPanics() returns (init: State, events: seq<Event>, s: State)
    ensures Init(init) && Reaches(init, events, s) && 0 in s.pc && s.pc[0] == NotSleeping(0, 0, 1)
  {
    hide Reaches, Scene, Init;
    init, events := Prelude();
    events := TakeSleeper(init, events);
    events := Panic(init, events);
    SceneFields();
    s := Scene(NotSleeping(0, 0, 1), BUSY, READY.(lock := Some(0)), Some(0), [], [1], {});
  }

  /** With one between the test of the queue and the dequeue, it takes a thread from an empty queue. */
  lemma ExternalWakeupEmptiesQueue() returns (init: State, events: seq<Event>, s: State)
    ensures Init(init) && Reaches(init, events, s) && 0 in s.pc && s.pc[0] == NoThread(0, 0)
  {
    hide Reaches, Scene, Init;
    init, events := Prelude();
    events := FindNobody(init, events);
    SceneFields();
    s := Scene(NoThread(0, 0), BUSY, READY, Some(0), [], [1], {});
  }

  lemma Start() returns (init: State)
    ensures init == Scene(Loop, READY, READY, None, [], [1, 0], {}) && Init(init) && Reaches(init, [], init)
  {
    init := Scene(Loop, READY, READY, None, [], [1, 0], {});
  }
}
