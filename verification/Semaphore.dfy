/**
 The counting semaphore of src/atomic/semaphore.c over the condition variable of src/atomic/cond.c, as the steps
 of any number of threads. A step is what a thread does between two points where others may act: everything a
 thread does while it holds the semaphore's lock is cut at its writes, a sleeping thread may be woken by anyone
 (`thread_wakeup_atomic`), and the lock is an explicit owner.
 */
module Semaphore {
  import opened Common
  import opened Counting

  type Tid = nat

  /** Where a thread is inside `sema_wait` or `sema_signal`. */
  datatype Pc =
    | Outside
    | Waiting       // sema_wait holds the lock, value not yet decremented
    | Parking       // value was decremented below zero; about to sleep in cond_wait, lock held
    | Queued        // asleep in the waiting queue
    | Woken         // out of the waiting queue, wants the lock back
    | Rechecking    // cond_wait has returned with the lock; wakeup is tested next
    | Leaving       // sema_wait has what it came for; lock held
    | Signalling    // sema_signal holds the lock, value not yet incremented
    | Notifying     // wakeup was incremented; cond_signal comes next, lock held
    | SignalLeaving // about to release the lock

  datatype State = State(value: int, wakeup: nat, owner: set<Tid>, queue: seq<Tid>, pcs: map<Tid, Pc>,
                         started: nat, finished: nat, signals: nat)

  /** `sema_init`. */
  ghost predicate Init(s: State, value: nat)
  {
    && s.value == value && s.wakeup == 0 && s.owner == {} && s.queue == []
    && s.started == s.finished == s.signals == 0
    && forall t :: t in s.pcs ==> s.pcs[t] == Outside
  }

  datatype Event = Act(t: Tid, wait: bool) | Spurious(t: Tid)

  predicate HoldsLock(pc: Pc)
  {
    pc.Waiting? || pc.Parking? || pc.Rechecking? || pc.Leaving? || pc.Signalling? || pc.Notifying? || pc.SignalLeaving?
  }

  /** Past the decrement that made the value negative, and not finished. */
  predicate Unfinished(pc: Pc)
  {
    pc.Parking? || pc.Queued? || pc.Woken? || pc.Rechecking?
  }

  /** Unfinished, out of the waiting queue, and about to look at `wakeup`. */
  predicate OnItsWay(pc: Pc)
  {
    pc.Woken? || pc.Rechecking?
  }

  predicate IsLeaving(pc: Pc)
  {
    pc.Leaving?
  }

  predicate IsNotifying(pc: Pc)
  {
    pc.Notifying?
  }

  predicate WantsLock(pc: Pc)
  {
    pc.Outside? || pc.Woken?
  }

  predicate Enabled(s: State, e: Event)
  {
    && e.t in s.pcs
    && match e
       case Act(t, _) => s.pcs[t] != Queued && (WantsLock(s.pcs[t]) ==> s.owner == {})
       case Spurious(t) => s.pcs[t] == Queued
  }

  function Goto(s: State, t: Tid, pc: Pc): State
  {
    s.(pcs := s.pcs[t := pc])
  }

  /** One step of the thread named by the event. */
  function Apply(s: State, e: Event): State
    requires Enabled(s, e)
  {
    match e
    case Spurious(t) => Goto(s, t, Woken).(queue := Without(s.queue, t))
    case Act(t, wait) =>
      match s.pcs[t]
      case Outside => Goto(s, t, if wait then Waiting else Signalling).(owner := {t})
      case Waiting =>
        Goto(s, t, if s.value - 1 < 0 then Parking else Leaving).(value := s.value - 1, started := s.started + 1)
      case Parking => Goto(s, t, Queued).(queue := s.queue + [t], owner := {})
      case Woken => Goto(s, t, Rechecking).(owner := {t})
      case Rechecking => if s.wakeup == 0 then Goto(s, t, Parking) else Goto(s, t, Leaving).(wakeup := s.wakeup - 1)
      case Leaving => Goto(s, t, Outside).(owner := {}, finished := s.finished + 1)
      case Signalling =>
        if s.value + 1 <= 0 then
          Goto(s, t, Notifying).(value := s.value + 1, wakeup := s.wakeup + 1, signals := s.signals + 1)
        else
          Goto(s, t, SignalLeaving).(value := s.value + 1, signals := s.signals + 1)
      case Notifying =>
        if s.queue == [] then Goto(s, t, SignalLeaving)
        else Goto(s.(pcs := s.pcs[s.queue[0] := Woken]), t, SignalLeaving).(queue := s.queue[1..])
      case SignalLeaving => Goto(s, t, Outside).(owner := {})
      case Queued => s
  }

  /** `s` is reached from `init` by the events, each enabled where it happens. */
  ghost predicate Reaches(init: State, events: seq<Event>, s: State)
  {
    if events == [] then s == init
    else
      var k := |events| - 1;
      exists mid :: Reaches(init, events[..k], mid) && Enabled(mid, events[k]) && s == Apply(mid, events[k])
  }

  function Max0(x: int): nat
  {
    if x < 0 then 0 else x
  }

  /** Exactly the lock's owner is inside, and exactly the sleeping threads are queued, each once. */
  ghost predicate Locked(s: State)
  {
    && (forall t :: t in s.pcs ==> (HoldsLock(s.pcs[t]) <==> t in s.owner))
    && (forall t, u :: t in s.owner && u in s.owner ==> t == u)
    && s.owner <= s.pcs.Keys
  }

  ghost predicate QueueHolds(q: seq<Tid>, pcs: map<Tid, Pc>)
  {
    && (forall t :: t in q <==> t in pcs && pcs[t] == Queued)
    && Distinct(q)
  }

  ghost predicate QueueOk(s: State)
  {
    QueueHolds(s.queue, s.pcs)
  }

  ghost predicate Balance(s: State, init: nat)
  {
    && Count(s.pcs, Unfinished) == Max0(-s.value) + s.wakeup
    && s.value == init + s.signals - s.started
    && s.started == s.finished + Count(s.pcs, Unfinished) + Count(s.pcs, IsLeaving)
  }

  /** Every wakeup that was granted has a thread on its way to take it, or one about to be sent. */
  ghost predicate NoneLost(s: State)
  {
    s.wakeup <= Count(s.pcs, OnItsWay) + Count(s.pcs, IsNotifying)
  }

  ghost predicate Inv(s: State, init: nat)
  {
    Locked(s) && QueueOk(s) && Balance(s, init) && NoneLost(s)
  }

  lemma LockedStep(s: State, e: Event)
    requires Locked(s) && QueueOk(s) && Enabled(s, e)
    ensures Locked(Apply(s, e))
  {
    hide Distinct, Without;
  }

  lemma QueueSame(q: seq<Tid>, pcs: map<Tid, Pc>, t: Tid, pc: Pc)
    requires QueueHolds(q, pcs) && t in pcs && pcs[t] != Queued && pc != Queued
    ensures QueueHolds(q, pcs[t := pc])
  {
  }

  lemma QueuePush(q: seq<Tid>, pcs: map<Tid, Pc>, t: Tid)
    requires QueueHolds(q, pcs) && t in pcs && pcs[t] != Queued
    ensures QueueHolds(q + [t], pcs[t := Queued])
  {
  }

  lemma QueuePop(q: seq<Tid>, pcs: map<Tid, Pc>)
    requires QueueHolds(q, pcs) && q != []
    ensures q[0] in pcs && pcs[q[0]] == Queued && QueueHolds(q[1..], pcs[q[0] := Woken])
  {
    assert q == [q[0]] + q[1..];
  }

  lemma QueueRemove(q: seq<Tid>, pcs: map<Tid, Pc>, t: Tid)
    requires QueueHolds(q, pcs) && t in pcs && pcs[t] == Queued
    ensures QueueHolds(Without(q, t), pcs[t := Woken])
  {
    WithoutMembers(q, t);
  }

  lemma QueueStep(s: State, e: Event)
    requires QueueOk(s) && Enabled(s, e)
    ensures QueueOk(Apply(s, e))
  {
    hide QueueHolds, Without;
    var t, s' := e.t, Apply(s, e);
    if e.Spurious? {
      QueueRemove(s.queue, s.pcs, t);
    } else if s.pcs[t] == Parking {
      QueuePush(s.queue, s.pcs, t);
    } else if s.pcs[t] == Notifying && s.queue != [] {
      QueuePop(s.queue, s.pcs);
      QueueSame(s.queue[1..], s.pcs[s.queue[0] := Woken], t, SignalLeaving);
    } else {
      QueueSame(s.queue, s.pcs, t, s'.pcs[t]);
    }
  }

  /** The counts before and after one thread moves. */
  lemma CountsMoved(pcs: map<Tid, Pc>, t: Tid, pc: Pc)
    requires t in pcs
    ensures Count(pcs[t := pc], Unfinished) == Count(pcs, Unfinished) - One(Unfinished(pcs[t])) + One(Unfinished(pc))
    ensures Count(pcs[t := pc], IsLeaving) == Count(pcs, IsLeaving) - One(IsLeaving(pcs[t])) + One(IsLeaving(pc))
    ensures Count(pcs[t := pc], OnItsWay) == Count(pcs, OnItsWay) - One(OnItsWay(pcs[t])) + One(OnItsWay(pc))
    ensures Count(pcs[t := pc], IsNotifying) == Count(pcs, IsNotifying) - One(IsNotifying(pcs[t])) + One(IsNotifying(pc))
  {
    Moved(pcs, t, pc, Unfinished);
    Moved(pcs, t, pc, IsLeaving);
    Moved(pcs, t, pc, OnItsWay);
    Moved(pcs, t, pc, IsNotifying);
  }

  /** When a signaller finds the queue empty, every unfinished thread is on its way. */
  lemma EmptyQueue(s: State, t: Tid)
    requires Locked(s) && QueueOk(s) && t in s.pcs && s.pcs[t] == Notifying && s.queue == []
    ensures Count(s.pcs, Unfinished) <= Count(s.pcs, OnItsWay)
  {
    assert t in s.owner;
    Weaker(s.pcs, Unfinished, OnItsWay);
  }

  lemma NotifyCounts(s: State, e: Event, init: nat)
    requires Inv(s, init) && Enabled(s, e) && e.Act? && s.pcs[e.t] == Notifying
    ensures Balance(Apply(s, e), init) && NoneLost(Apply(s, e))
  {
    hide Count, Locked, QueueHolds, Without;
    var t := e.t;
    if s.queue != [] {
      var u := s.queue[0];
      QueuePop(s.queue, s.pcs);
      CountsMoved(s.pcs, u, Woken);
      CountsMoved(s.pcs[u := Woken], t, SignalLeaving);
    } else {
      CountsMoved(s.pcs, t, SignalLeaving);
      EmptyQueue(s, t);
    }
  }

  lemma CountStep(s: State, e: Event, init: nat)
    requires Inv(s, init) && Enabled(s, e)
    ensures Balance(Apply(s, e), init) && NoneLost(Apply(s, e))
  {
    hide Count, Locked, QueueHolds, Without;
    var t, s' := e.t, Apply(s, e);
    if e.Act? && s.pcs[t] == Notifying {
      NotifyCounts(s, e, init);
    } else {
      CountsMoved(s.pcs, t, s'.pcs[t]);
    }
  }

  /** Every reachable state keeps the lock, the queue, the books and the wakeups. */
  lemma {:induction false} Safety(init: State, value: nat, events: seq<Event>, s: State)
    requires Init(init, value) && Reaches(init, events, s)
    ensures Inv(s, value)
  {
    if events == [] {
      assert Where(s.pcs, Unfinished) == Where(s.pcs, IsLeaving) == {};
    } else {
      var k := |events| - 1;
      var mid :| Reaches(init, events[..k], mid) && Enabled(mid, events[k]) && s == Apply(mid, events[k]);
      Safety(init, value, events[..k], mid);
      LockedStep(mid, events[k]);
      QueueStep(mid, events[k]);
      CountStep(mid, events[k], value);
    }
  }

  /** Mutual exclusion, exact accounting of waits against tokens, and no lost wakeup. */
  lemma WaitsAndTokens(init: State, value: nat, events: seq<Event>, s: State)
    requires Init(init, value) && Reaches(init, events, s)
    ensures forall t, u :: t in s.pcs && u in s.pcs && HoldsLock(s.pcs[t]) && HoldsLock(s.pcs[u]) ==> t == u
    ensures Count(s.pcs, Unfinished) == Max0(-s.value) + s.wakeup
    ensures s.finished + Count(s.pcs, IsLeaving) + Max0(s.value) + s.wakeup == value + s.signals
    ensures s.finished <= value + s.signals
  {
    Safety(init, value, events, s);
  }

  /** A granted wakeup that nobody is about to send has a thread on its way to take it. */
  lemma NoLostWakeup(init: State, value: nat, events: seq<Event>, s: State)
    requires Init(init, value) && Reaches(init, events, s)
    requires s.wakeup > 0 && forall t :: t in s.pcs ==> s.pcs[t] != Notifying
    ensures exists t :: t in s.pcs && OnItsWay(s.pcs[t])
  {
    Safety(init, value, events, s);
    Counted(s.pcs, IsNotifying);
    Counted(s.pcs, OnItsWay);
  }

  /** When every thread is either outside or asleep, exactly the waits that no token can serve are asleep. */
  lemma Quiescent(init: State, value: nat, events: seq<Event>, s: State)
    requires Init(init, value) && Reaches(init, events, s)
    requires forall t :: t in s.pcs ==> s.pcs[t] == Outside || s.pcs[t] == Queued
    ensures |s.queue| == Max0(s.started - (value + s.signals))
    ensures s.finished == if s.started < value + s.signals then s.started else value + s.signals
  {
    Safety(init, value, events, s);
    Counted(s.pcs, IsNotifying);
    Counted(s.pcs, OnItsWay);
    Counted(s.pcs, IsLeaving);
    QueueLength(s.queue, Where(s.pcs, Unfinished));
  }

  lemma {:induction false} QueueLength(q: seq<Tid>, members: set<Tid>)
    requires Distinct(q)
    requires forall t :: t in q <==> t in members
    ensures |q| == |members|
  {
    if q != [] {
      assert q == [q[0]] + q[1..];
      QueueLength(q[1..], members - {q[0]});
    } else {
      assert members == {};
    }
  }

  /** Whenever a wakeup is granted and the lock is free, two steps of some thread complete its wait. */
  lemma WakeupIsTaken(init: State, value: nat, events: seq<Event>, s: State) returns (t: Tid)
    requires Init(init, value) && Reaches(init, events, s)
    requires s.wakeup > 0 && s.owner == {}
    ensures Enabled(s, Act(t, true)) && s.pcs[t] == Woken
    ensures var s1 := Apply(s, Act(t, true)); Enabled(s1, Act(t, true)) && Apply(s1, Act(t, true)).pcs[t] == Leaving
  {
    Safety(init, value, events, s);
    NoLostWakeup(init, value, events, s);
    t :| t in s.pcs && OnItsWay(s.pcs[t]);
  }

  // ---------------------------------------------------------------- a counter of tokens

  /** What a user of the semaphore sees of a thread: inside a wait, past it, inside a signal, past that. */
  datatype Status = Idle | InWait | Passed | InSignal | Signalled

  /** The semaphore as its users think of it. */
  datatype Counter = Counter(tokens: nat, threads: map<Tid, Status>)

  function StatusOf(pc: Pc): Status
  {
    match pc
    case Outside => Idle
    case Leaving => Passed
    case Signalling => InSignal
    case Notifying => Signalled
    case SignalLeaving => Signalled
    case _ => InWait
  }

  /** The tokens are those nobody has asked for and those that were granted to a waiter. */
  function CounterOf(s: State): Counter
  {
    Counter(Max0(s.value) + s.wakeup, Statuses(s.pcs))
  }

  function Statuses(pcs: map<Tid, Pc>): map<Tid, Status>
  {
    map t | t in pcs :: StatusOf(pcs[t])
  }

  lemma StatusesMoved(pcs: map<Tid, Pc>, t: Tid, pc: Pc)
    requires t in pcs
    ensures t in Statuses(pcs) && Statuses(pcs)[t] == StatusOf(pcs[t])
    ensures Statuses(pcs[t := pc]) == Statuses(pcs)[t := StatusOf(pc)]
    ensures StatusOf(pc) == StatusOf(pcs[t]) ==> Statuses(pcs[t := pc]) == Statuses(pcs)
  {
  }

  /** Thread `t` begins or ends a call, completes its wait by taking a token, or signals by adding one. */
  predicate Move(c: Counter, next: Counter, t: Tid)
  {
    && t in c.threads && t in next.threads && next.threads == c.threads[t := next.threads[t]]
    && match c.threads[t]
       case Idle => (next.threads[t].InWait? || next.threads[t].InSignal?) && next.tokens == c.tokens
       case InWait => next.threads[t].Passed? && c.tokens > 0 && next.tokens == c.tokens - 1
       case InSignal => next.threads[t].Signalled? && next.tokens == c.tokens + 1
       case _ => next.threads[t].Idle? && next.tokens == c.tokens
  }

  /** Every step of the implementation is a step of the counter, or none. */
  lemma StepRefines(s: State, e: Event, init: nat)
    requires Inv(s, init) && Enabled(s, e)
    ensures var c, next := CounterOf(s), CounterOf(Apply(s, e)); next == c || Move(c, next, e.t)
  {
    hide Count, Locked, Balance, NoneLost, Without, QueueHolds, Statuses;
    var t, s' := e.t, Apply(s, e);
    if e.Act? && s.pcs[t] == Notifying && s.queue != [] {
      QueuePop(s.queue, s.pcs);
      StatusesMoved(s.pcs, s.queue[0], Woken);
      StatusesMoved(s.pcs[s.queue[0] := Woken], t, SignalLeaving);
    } else {
      StatusesMoved(s.pcs, t, s'.pcs[t]);
    }
  }

  ghost predicate CounterStep(c: Counter, next: Counter)
  {
    next == c || exists t :: Move(c, next, t)
  }

  /** The counter goes from `c0` to `c` in `n` steps, some of which may do nothing. */
  ghost predicate CounterReaches(c0: Counter, n: nat, c: Counter)
  {
    if n == 0 then c == c0
    else exists mid :: CounterReaches(c0, n - 1, mid) && CounterStep(mid, c)
  }

  /** So any run of threads inside `sema_wait` and `sema_signal` is a run of a counter that starts with the initial value. */
  lemma {:induction false} RunRefines(init: State, value: nat, events: seq<Event>, s: State)
    requires Init(init, value) && Reaches(init, events, s)
    ensures CounterOf(init).tokens == value && forall t :: t in init.pcs ==> CounterOf(init).threads[t] == Idle
    ensures CounterReaches(CounterOf(init), |events|, CounterOf(s))
  {
    hide Enabled, Apply, Move, Inv;
    if events != [] {
      var k := |events| - 1;
      var mid :| Reaches(init, events[..k], mid) && Enabled(mid, events[k]) && s == Apply(mid, events[k]);
      RunRefines(init, value, events[..k], mid);
      Safety(init, value, events[..k], mid);
      StepRefines(mid, events[k], value);
      assert CounterStep(CounterOf(mid), CounterOf(s));
    }
  }

  /** And a token does not lie idle: while some thread waits and the lock is free, two steps complete a wait. */
  lemma TokenIsTaken(init: State, value: nat, events: seq<Event>, s: State) returns (t: Tid)
    requires Init(init, value) && Reaches(init, events, s) && s.owner == {} && CounterOf(s).tokens > 0
    requires exists u :: u in s.pcs && StatusOf(s.pcs[u]) == InWait
    ensures Enabled(s, Act(t, true)) && StatusOf(s.pcs[t]) == InWait
    ensures var s1 := Apply(s, Act(t, true)); Enabled(s1, Act(t, true)) && StatusOf(Apply(s1, Act(t, true)).pcs[t]) == Passed
  {
    Safety(init, value, events, s);
    var u :| u in s.pcs && StatusOf(s.pcs[u]) == InWait;
    assert Unfinished(s.pcs[u]);
    Counted(s.pcs, Unfinished);
    t := WakeupIsTaken(init, value, events, s);
  }
}
