/**
 Clone, exit, reparent and waitpid (src/proc/pcb_life.c) as interleaved steps of any number of processes, one
 thread each. A list of children stands for the sibling ring that refines it (module SiblingRing), a semaphore for
 its tokens (`Semaphore.RunRefines`). A step is what a process does under the locks it holds together.
 */
module ProcessTree {
  import opened Common
  import opened Counting

  type Pid = nat

  datatype Pc =
    | Unused
    | Alive
    | Waiting(want: Pid)                     // in sema_wait on its own sem_wait_chan_parent
    | Scanning(want: Pid, i: nat, n: nat)    // walks its children; the next one is the i-th of n
    | Checking(want: Pid, i: nat, n: nat)    // about to lock the i-th child and look at its state
    | Exiting                                // reparent is handing its children over
    | Marked                                 // PCB_ZOMBIE, its parent not yet signalled; own lock held
    | Dead                                   // PCB_ZOMBIE, parent signalled
    | Panicked                               // "invalid wakeup for semaphore"

  /** `tokens` are those of sem_wait_chan_parent, `self` those of sem_wait_chan_self. */
  datatype Proc = Proc(pc: Pc, parent: Pid, kids: seq<Pid>, tokens: nat, self: nat)

  datatype State = State(init: Pid, procs: map<Pid, Proc>)

  ghost predicate Init(s: State)
  {
    && s.init in s.procs
    && forall p :: p in s.procs ==> s.procs[p] == Proc(if p == s.init then Alive else Unused, s.init, [], 0, 0)
  }

  datatype Event = Clone(p: Pid, child: Pid) | Wait(p: Pid, want: Pid) | Take(p: Pid) | Look(p: Pid) | Check(p: Pid)
                 | Exit(p: Pid) | HandOver(p: Pid) | Mark(p: Pid) | Report(p: Pid)

  predicate Is(s: State, p: Pid, pc: Pc)
  {
    p in s.procs && s.procs[p].pc == pc
  }

  /** The child the walk has reached. */
  predicate AtChild(s: State, p: Pid)
  {
    && p in s.procs && (s.procs[p].pc.Scanning? || s.procs[p].pc.Checking?)
    && s.procs[p].pc.i < |s.procs[p].kids| && s.procs[p].kids[s.procs[p].pc.i] in s.procs
  }

  predicate Enabled(s: State, e: Event)
  {
    match e
    case Clone(p, child) => Is(s, p, Alive) && Is(s, child, Unused)
    case Wait(p, _) => Is(s, p, Alive)
    case Take(p) => p in s.procs && s.procs[p].pc.Waiting? && s.procs[p].tokens > 0
    case Look(p) =>
      && p in s.procs && s.procs[p].pc.Scanning?
      && (s.procs[p].pc.i < s.procs[p].pc.n ==>
            AtChild(s, p) && var c := s.procs[p].kids[s.procs[p].pc.i]; (c == s.procs[p].pc.want ==> s.procs[c].self > 0))
    case Check(p) => AtChild(s, p) && s.procs[p].pc.Checking? && s.procs[s.procs[p].kids[s.procs[p].pc.i]].pc != Marked
    case Exit(p) => Is(s, p, Alive) && p != s.init
    case HandOver(p) =>
      && Is(s, p, Exiting) && s.procs[p].kids != [] && p != s.init && s.init in s.procs
      && s.procs[p].kids[0] in s.procs && s.procs[s.procs[p].kids[0]].pc != Marked
    case Mark(p) => Is(s, p, Exiting) && s.procs[p].kids == []
    case Report(p) => Is(s, p, Marked) && s.procs[p].parent in s.procs
  }

  function Set(s: State, p: Pid, x: Proc): State
  {
    s.(procs := s.procs[p := x])
  }

  function Goto(s: State, p: Pid, pc: Pc): State
    requires p in s.procs
  {
    Set(s, p, s.procs[p].(pc := pc))
  }

  function Apply(s: State, e: Event): State
    requires Enabled(s, e)
  {
    match e
    case Clone(p, child) =>
      var x := s.procs[p];
      Set(Set(s, child, Proc(Alive, p, [], 0, 0)), p, x.(kids := x.kids + [child]))
    case Wait(p, want) => if s.procs[p].kids == [] then s else Goto(s, p, Waiting(want))
    case Take(p) =>
      var x := s.procs[p];
      Set(s, p, x.(tokens := x.tokens - 1, pc := Scanning(x.pc.want, 0, |x.kids|)))
    case Look(p) =>
      var x := s.procs[p];
      if x.pc.i >= x.pc.n then Goto(s, p, Panicked)
      else
        var c := x.kids[x.pc.i];
        var s' := if c == x.pc.want then Set(s, c, s.procs[c].(self := s.procs[c].self - 1)) else s;
        Goto(s', p, Checking(x.pc.want, x.pc.i, x.pc.n))
    case Check(p) =>
      var x := s.procs[p];
      var c := x.kids[x.pc.i];
      if s.procs[c].pc == Dead then
        Set(Set(s, c, s.procs[c].(pc := Unused)), p, x.(pc := Alive, kids := Removed(x.kids, x.pc.i)))
      else Goto(s, p, Scanning(x.pc.want, x.pc.i + 1, x.pc.n))
    case Exit(p) => Goto(s, p, Exiting)
    case HandOver(p) =>
      var x, y := s.procs[p], s.procs[s.init];
      var c := x.kids[0];
      var z := s.procs[c];
      Set(Set(Set(s, p, x.(kids := x.kids[1..])),
              s.init, y.(kids := y.kids + [c], tokens := y.tokens + One(z.pc == Dead))),
          c, z.(parent := s.init))
    case Mark(p) => Goto(s, p, Marked)
    case Report(p) =>
      var q := s.procs[p].parent;
      Set(Set(s, q, s.procs[q].(tokens := s.procs[q].tokens + 1)), p, s.procs[p].(pc := Dead, self := s.procs[p].self + 1))
  }

  ghost predicate Reaches(start: State, events: seq<Event>, s: State)
  {
    if events == [] then s == start
    else
      var k := |events| - 1;
      exists mid :: Reaches(start, events[..k], mid) && Enabled(mid, events[k]) && s == Apply(mid, events[k])
  }

  // ---------------------------------------------------------------- invariants

  predicate InWaitpid(pc: Pc)
  {
    pc.Scanning? || pc.Checking?
  }

  /** Neither gone nor going. */
  predicate Live(pc: Pc)
  {
    pc.Alive? || pc.Waiting? || InWaitpid(pc)
  }

  predicate Childless(pc: Pc)
  {
    pc.Unused? || pc.Marked? || pc.Dead?
  }

  /** A child points to the parent whose list it is in. */
  ghost predicate DownOk(init: Pid, procs: map<Pid, Proc>)
  {
    forall p, c :: p in procs && c in procs[p].kids ==> IsChild(init, procs, p, c)
  }

  predicate IsChild(init: Pid, procs: map<Pid, Proc>, p: Pid, c: Pid)
  {
    c in procs && !procs[c].pc.Unused? && procs[c].parent == p && c != init && c != p
  }

  /** Every process but init is in the list of its parent. */
  ghost predicate UpOk(init: Pid, procs: map<Pid, Proc>)
  {
    forall c :: c in procs && !procs[c].pc.Unused? && c != init ==> Listed(c, procs[c].parent, procs)
  }

  predicate Listed(c: Pid, p: Pid, procs: map<Pid, Proc>)
  {
    p in procs && c in procs[p].kids
  }

  ghost predicate ListsOk(init: Pid, procs: map<Pid, Proc>)
  {
    && init in procs && (Live(procs[init].pc) || procs[init].pc.Panicked?)
    && (forall p :: p in procs ==> Distinct(procs[p].kids) && (Childless(procs[p].pc) ==> procs[p].kids == []))
  }

  /** Lists of children and parent pointers describe the same tree. */
  ghost predicate TreeOk(init: Pid, procs: map<Pid, Proc>)
  {
    DownOk(init, procs) && UpOk(init, procs) && ListsOk(init, procs)
  }

  /** The zombies among the children whose parent was told. */
  ghost function DeadOf(kids: seq<Pid>, procs: map<Pid, Proc>): set<Pid>
  {
    set c | c in kids && c in procs && procs[c].pc == Dead
  }

  ghost predicate Balanced(x: Proc, procs: map<Pid, Proc>)
  {
    Live(x.pc) ==> |DeadOf(x.kids, procs)| == x.tokens + One(InWaitpid(x.pc))
  }

  ghost predicate CountOk(procs: map<Pid, Proc>)
  {
    forall p :: p in procs ==> Balanced(procs[p], procs)
  }

  /** The walk still has a zombie before it, among the children it set out to visit. */
  ghost predicate Ahead(x: Proc, procs: map<Pid, Proc>)
  {
    InWaitpid(x.pc) ==>
      x.pc.n <= |x.kids| && exists j :: x.pc.i <= j < x.pc.n && x.kids[j] in procs && procs[x.kids[j]].pc == Dead
  }

  ghost predicate ScanOk(procs: map<Pid, Proc>)
  {
    forall p :: p in procs ==> Ahead(procs[p], procs) && !procs[p].pc.Panicked?
  }

  ghost predicate Inv(s: State)
  {
    TreeOk(s.init, s.procs) && CountOk(s.procs) && ScanOk(s.procs)
  }

  // ---------------------------------------------------------------- steps that move no process in the tree

  /** The record `x` puts `p` at the same place in the tree, neither dying nor being reused. */
  predicate Quiet(init: Pid, procs: map<Pid, Proc>, p: Pid, x: Proc)
  {
    && p in procs && x.kids == procs[p].kids && x.parent == procs[p].parent
    && (x.pc.Dead? <==> procs[p].pc.Dead?) && (x.pc.Unused? <==> procs[p].pc.Unused?)
    && (Childless(x.pc) ==> x.kids == []) && (p == init ==> Live(x.pc))
  }

  lemma QuietTree(init: Pid, procs: map<Pid, Proc>, p: Pid, x: Proc)
    requires TreeOk(init, procs) && Quiet(init, procs, p, x)
    ensures TreeOk(init, procs[p := x])
  {
    var procs' := procs[p := x];
    assert UpOk(init, procs') by {
      hide DownOk, ListsOk, Live, Childless;
      forall c | c in procs' && !procs'[c].pc.Unused? && c != init
        ensures Listed(c, procs'[c].parent, procs')
      {
        assert Listed(c, procs[c].parent, procs);
      }
    }
    assert DownOk(init, procs') by {
      hide UpOk, ListsOk, Live, Childless;
      forall q, c | q in procs' && c in procs'[q].kids
        ensures IsChild(init, procs', q, c)
      {
        assert IsChild(init, procs, q, c);
      }
    }
  }

  lemma SameDead(kids: seq<Pid>, procs: map<Pid, Proc>, procs': map<Pid, Proc>)
    requires forall c :: c in kids ==> ((c in procs && procs[c].pc == Dead) <==> (c in procs' && procs'[c].pc == Dead))
    ensures DeadOf(kids, procs') == DeadOf(kids, procs)
  {
  }

  lemma QuietCount(init: Pid, procs: map<Pid, Proc>, p: Pid, x: Proc)
    requires CountOk(procs) && Quiet(init, procs, p, x) && Balanced(x, procs)
    ensures CountOk(procs[p := x])
  {
    var procs' := procs[p := x];
    forall q | q in procs'
      ensures Balanced(procs'[q], procs')
    {
      SameDead(procs'[q].kids, procs, procs');
      assert q != p ==> Balanced(procs[q], procs);
    }
  }

  lemma SameAhead(x: Proc, procs: map<Pid, Proc>, procs': map<Pid, Proc>)
    requires Ahead(x, procs)
    requires forall c :: c in x.kids && c in procs && procs[c].pc == Dead ==> c in procs' && procs'[c].pc == Dead
    ensures Ahead(x, procs')
  {
    if InWaitpid(x.pc) {
      var j :| x.pc.i <= j < x.pc.n && x.kids[j] in procs && procs[x.kids[j]].pc == Dead;
      assert x.kids[j] in x.kids;
      assert x.kids[j] in procs' && procs'[x.kids[j]].pc == Dead;
    }
  }

  lemma QuietScan(init: Pid, procs: map<Pid, Proc>, p: Pid, x: Proc)
    requires ScanOk(procs) && Quiet(init, procs, p, x) && Ahead(x, procs) && !x.pc.Panicked?
    ensures ScanOk(procs[p := x])
  {
    hide Ahead;
    var procs' := procs[p := x];
    forall q | q in procs'
      ensures Ahead(procs'[q], procs')
    {
      SameAhead(procs'[q], procs, procs');
    }
  }

  lemma QuietKeeps(s: State, p: Pid, x: Proc)
    requires Inv(s) && Quiet(s.init, s.procs, p, x) && Balanced(x, s.procs) && Ahead(x, s.procs) && !x.pc.Panicked?
    ensures Inv(Set(s, p, x))
  {
    hide TreeOk, CountOk, ScanOk, Quiet, Ahead, Balanced;
    QuietTree(s.init, s.procs, p, x);
    QuietCount(s.init, s.procs, p, x);
    QuietScan(s.init, s.procs, p, x);
  }

  lemma Facts(s: State, p: Pid)
    requires Inv(s) && p in s.procs
    ensures Balanced(s.procs[p], s.procs) && Ahead(s.procs[p], s.procs) && !s.procs[p].pc.Panicked?
    ensures Live(s.procs[s.init].pc)
    ensures Distinct(s.procs[p].kids) && (Childless(s.procs[p].pc) ==> s.procs[p].kids == [])
  {
    hide Ahead, Balanced;
  }

  /** A token means a zombie child, so the walk has one before it. */
  lemma TokenMeansZombie(x: Proc, procs: map<Pid, Proc>, want: Pid)
    requires |DeadOf(x.kids, procs)| > 0
    ensures Ahead(x.(pc := Scanning(want, 0, |x.kids|)), procs)
  {
    var c :| c in DeadOf(x.kids, procs);
    var j :| 0 <= j < |x.kids| && x.kids[j] == c;
    assert procs[x.kids[j]].pc == Dead;
  }

  lemma PlainKeeps(s: State, e: Event)
    requires Inv(s) && Enabled(s, e) && (e.Wait? || e.Exit? || e.Mark?)
    ensures Inv(Apply(s, e))
  {
    hide TreeOk, CountOk, ScanOk, DeadOf;
    var x := s.procs[e.p];
    Facts(s, e.p);
    var x' := Apply(s, e).procs[e.p];
    QuietKeeps(s, e.p, x');
  }

  lemma TakeKeeps(s: State, e: Event)
    requires Inv(s) && Enabled(s, e) && e.Take?
    ensures Inv(Apply(s, e))
  {
    hide TreeOk, CountOk, ScanOk, DeadOf, Ahead;
    var x := s.procs[e.p];
    Facts(s, e.p);
    var x' := Apply(s, e).procs[e.p];
    TokenMeansZombie(x.(tokens := x.tokens - 1), s.procs, x.pc.want);
    QuietKeeps(s, e.p, x');
  }

  /** The walk never runs past its zombie. */
  lemma LookKeeps(s: State, e: Event)
    requires Inv(s) && Enabled(s, e) && e.Look?
    ensures Inv(Apply(s, e))
  {
    hide TreeOk, CountOk, ScanOk, DeadOf;
    var x := s.procs[e.p];
    Facts(s, e.p);
    assert x.pc.i < x.pc.n;
    var c := x.kids[x.pc.i];
    var y := s.procs[c];
    var s' := if c == x.pc.want then Set(s, c, y.(self := y.self - 1)) else s;
    if c == x.pc.want {
      Facts(s, c);
      QuietKeeps(s, c, y.(self := y.self - 1));
    }
    Facts(s', e.p);
    QuietKeeps(s', e.p, s'.procs[e.p].(pc := Checking(x.pc.want, x.pc.i, x.pc.n)));
  }

  lemma PassKeeps(s: State, e: Event)
    requires Inv(s) && Enabled(s, e) && e.Check? && s.procs[s.procs[e.p].kids[s.procs[e.p].pc.i]].pc != Dead
    ensures Inv(Apply(s, e))
  {
    hide TreeOk, CountOk, ScanOk, DeadOf;
    var x := s.procs[e.p];
    Facts(s, e.p);
    var j :| x.pc.i <= j < x.pc.n && x.kids[j] in s.procs && s.procs[x.kids[j]].pc == Dead;
    assert j > x.pc.i;
    QuietKeeps(s, e.p, x.(pc := Scanning(x.pc.want, x.pc.i + 1, x.pc.n)));
  }

  // ---------------------------------------------------------------- steps that change the tree

  lemma CloneTree(s: State, e: Event)
    requires TreeOk(s.init, s.procs) && Enabled(s, e) && e.Clone?
    ensures TreeOk(s.init, Apply(s, e).procs)
  {
    hide ListsOk;
    UnusedFacts(s, e.child);
    var procs' := Apply(s, e).procs;
    forall p, c | p in procs' && c in procs'[p].kids
      ensures IsChild(s.init, procs', p, c)
    {
      assert (p == e.p && c == e.child) || IsChild(s.init, s.procs, p, c);
    }
    forall c | c in procs' && !procs'[c].pc.Unused? && c != s.init
      ensures Listed(c, procs'[c].parent, procs')
    {
      assert c == e.child || Listed(c, s.procs[c].parent, s.procs);
    }
    CloneLists(s, e);
  }

  lemma UnusedFacts(s: State, c: Pid)
    requires TreeOk(s.init, s.procs) && Is(s, c, Unused)
    ensures c != s.init && s.procs[c].kids == []
  {
  }

  lemma CloneLists(s: State, e: Event)
    requires TreeOk(s.init, s.procs) && Enabled(s, e) && e.Clone?
    ensures ListsOk(s.init, Apply(s, e).procs)
  {
    hide UpOk;
    assert e.child !in s.procs[e.p].kids;
  }

  lemma CloneRest(s: State, e: Event)
    requires Inv(s) && Enabled(s, e) && e.Clone?
    ensures CountOk(Apply(s, e).procs) && ScanOk(Apply(s, e).procs)
  {
    hide Ahead, TreeOk;
    var procs' := Apply(s, e).procs;
    UnusedIsNobodysChild(s, e.child);
    forall q | q in procs'
      ensures Balanced(procs'[q], procs') && Ahead(procs'[q], procs')
    {
      if q != e.child {
        Facts(s, q);
        SameDead(s.procs[q].kids, s.procs, procs');
        SameAhead(s.procs[q], s.procs, procs');
        if q == e.p {
          AheadOutside(procs'[q], procs');
          assert DeadOf(procs'[q].kids, procs') == DeadOf(s.procs[q].kids, procs');
        }
      } else {
        assert DeadOf(procs'[q].kids, procs') == {};
        AheadOutside(procs'[q], procs');
      }
    }
  }

  lemma AheadOutside(x: Proc, procs: map<Pid, Proc>)
    requires !InWaitpid(x.pc)
    ensures Ahead(x, procs)
  {
  }

  lemma UnusedIsNobodysChild(s: State, c: Pid)
    requires Inv(s) && Is(s, c, Unused)
    ensures forall p :: p in s.procs ==> c !in s.procs[p].kids
  {
  }

  lemma OneParent(s: State, p: Pid, c: Pid)
    requires TreeOk(s.init, s.procs) && p in s.procs && c in s.procs[p].kids
    ensures IsChild(s.init, s.procs, p, c)
    ensures forall q :: q in s.procs && q != p ==> c !in s.procs[q].kids
  {
    hide UpOk, ListsOk;
  }

  lemma ReapTree(s: State, e: Event)
    requires Inv(s) && Enabled(s, e) && e.Check? && s.procs[s.procs[e.p].kids[s.procs[e.p].pc.i]].pc == Dead
    ensures TreeOk(s.init, Apply(s, e).procs)
  {
    hide CountOk, ScanOk, Removed, Live, Childless, ListsOk;
    var x, procs' := s.procs[e.p], Apply(s, e).procs;
    var d := x.kids[x.pc.i];
    Facts(s, e.p);
    OneParent(s, e.p, d);
    RemovedMembers(x.kids, x.pc.i);
    forall p, c | p in procs' && c in procs'[p].kids
      ensures IsChild(s.init, procs', p, c)
    {
      assert IsChild(s.init, s.procs, p, c);
    }
    forall c | c in procs' && !procs'[c].pc.Unused? && c != s.init
      ensures Listed(c, procs'[c].parent, procs')
    {
      assert Listed(c, s.procs[c].parent, s.procs);
    }
    ReapLists(s, e);
  }

  lemma ReapLists(s: State, e: Event)
    requires Inv(s) && Enabled(s, e) && e.Check? && s.procs[s.procs[e.p].kids[s.procs[e.p].pc.i]].pc == Dead
    ensures ListsOk(s.init, Apply(s, e).procs)
  {
    hide CountOk, ScanOk, Removed, UpOk;
    var x := s.procs[e.p];
    RemovedMembers(x.kids, x.pc.i);
    OneParent(s, e.p, x.kids[x.pc.i]);
  }

  lemma ReapRest(s: State, e: Event)
    requires Inv(s) && Enabled(s, e) && e.Check? && s.procs[s.procs[e.p].kids[s.procs[e.p].pc.i]].pc == Dead
    ensures CountOk(Apply(s, e).procs) && ScanOk(Apply(s, e).procs)
  {
    hide Ahead, TreeOk, Removed;
    var x, procs' := s.procs[e.p], Apply(s, e).procs;
    var c := x.kids[x.pc.i];
    OneParent(s, e.p, c);
    Facts(s, e.p);
    Facts(s, c);
    RemovedMembers(x.kids, x.pc.i);
    forall q | q in procs'
      ensures Balanced(procs'[q], procs') && Ahead(procs'[q], procs')
    {
      if q == e.p {
        AheadOutside(procs'[q], procs');
        Delta(DeadOf(x.kids, s.procs), DeadOf(procs'[q].kids, procs'), c);
      } else if q == c {
        AheadOutside(procs'[q], procs');
      } else {
        Facts(s, q);
        SameDead(s.procs[q].kids, s.procs, procs');
        SameAhead(s.procs[q], s.procs, procs');
      }
    }
  }

  lemma HandOverTree(s: State, e: Event)
    requires Inv(s) && Enabled(s, e) && e.HandOver?
    ensures TreeOk(s.init, Apply(s, e).procs)
  {
    hide CountOk, ScanOk, Live, Childless, ListsOk;
    var x, procs' := s.procs[e.p], Apply(s, e).procs;
    var d := x.kids[0];
    OneParent(s, e.p, d);
    Facts(s, e.p);
    assert x.kids == [d] + x.kids[1..] && d !in x.kids[1..];
    forall p, c | p in procs' && c in procs'[p].kids
      ensures IsChild(s.init, procs', p, c)
    {
      assert (p == s.init && c == d) || IsChild(s.init, s.procs, p, c);
    }
    forall c | c in procs' && !procs'[c].pc.Unused? && c != s.init
      ensures Listed(c, procs'[c].parent, procs')
    {
      assert Listed(c, s.procs[c].parent, s.procs);
    }
    HandOverLists(s, e);
  }

  lemma HandOverLists(s: State, e: Event)
    requires Inv(s) && Enabled(s, e) && e.HandOver?
    ensures ListsOk(s.init, Apply(s, e).procs)
  {
    hide CountOk, ScanOk, UpOk;
    OneParent(s, e.p, s.procs[e.p].kids[0]);
    assert s.procs[e.p].kids[0] !in s.procs[s.init].kids;
  }

  lemma HandOverRest(s: State, e: Event)
    requires Inv(s) && Enabled(s, e) && e.HandOver?
    ensures CountOk(Apply(s, e).procs) && ScanOk(Apply(s, e).procs)
  {
    hide Ahead, TreeOk;
    var x, y, procs' := s.procs[e.p], s.procs[s.init], Apply(s, e).procs;
    var c := x.kids[0];
    OneParent(s, e.p, c);
    forall q | q in procs'
      ensures Balanced(procs'[q], procs') && Ahead(procs'[q], procs') && !procs'[q].pc.Panicked?
    {
      Facts(s, q);
      SameDead(s.procs[q].kids, s.procs, procs');
      SameAhead(s.procs[q], s.procs, procs');
      if q == s.init {
        Delta(DeadOf(y.kids, s.procs), DeadOf(procs'[q].kids, procs'), c);
        AheadMore(y, procs'[q], procs');
      } else if q == e.p {
        AheadOutside(procs'[q], procs');
      } else if q == c {
        AheadMore(s.procs[q], procs'[q], procs');
      }
    }
  }

  /** Children appended behind the walk's back do not hide its zombie. */
  lemma AheadMore(x: Proc, x': Proc, procs: map<Pid, Proc>)
    requires Ahead(x, procs) && x'.pc == x.pc && x.kids <= x'.kids
    ensures Ahead(x', procs)
  {
    if InWaitpid(x.pc) {
      var j :| x.pc.i <= j < x.pc.n && x.kids[j] in procs && procs[x.kids[j]].pc == Dead;
      assert x'.kids[j] == x.kids[j];
    }
  }

  lemma ReportTree(s: State, e: Event)
    requires Inv(s) && Enabled(s, e) && e.Report?
    ensures TreeOk(s.init, Apply(s, e).procs)
  {
    hide CountOk, ScanOk, Live, Childless, ListsOk;
    var procs' := Apply(s, e).procs;
    MarkedHasParent(s, e.p);
    forall p, c | p in procs' && c in procs'[p].kids
      ensures IsChild(s.init, procs', p, c)
    {
      assert IsChild(s.init, s.procs, p, c);
    }
    forall c | c in procs' && !procs'[c].pc.Unused? && c != s.init
      ensures Listed(c, procs'[c].parent, procs')
    {
      assert Listed(c, s.procs[c].parent, s.procs);
    }
    ReportLists(s, e);
  }

  lemma MarkedHasParent(s: State, p: Pid)
    requires TreeOk(s.init, s.procs) && Is(s, p, Marked)
    ensures p != s.init && Listed(p, s.procs[p].parent, s.procs) && s.procs[p].parent != p
  {
    assert Listed(p, s.procs[p].parent, s.procs);
    assert IsChild(s.init, s.procs, s.procs[p].parent, p);
  }

  lemma ReportLists(s: State, e: Event)
    requires Inv(s) && Enabled(s, e) && e.Report?
    ensures ListsOk(s.init, Apply(s, e).procs)
  {
    hide CountOk, ScanOk, UpOk, DownOk;
    MarkedHasParent(s, e.p);
  }

  lemma ReportRest(s: State, e: Event)
    requires Inv(s) && Enabled(s, e) && e.Report?
    ensures CountOk(Apply(s, e).procs) && ScanOk(Apply(s, e).procs)
  {
    hide Ahead, TreeOk;
    var p := e.p;
    var q, procs' := s.procs[p].parent, Apply(s, e).procs;
    MarkedHasParent(s, p);
    OneParent(s, q, p);
    forall r | r in procs'
      ensures Balanced(procs'[r], procs') && Ahead(procs'[r], procs') && !procs'[r].pc.Panicked?
    {
      Facts(s, r);
      SameAhead(s.procs[r], s.procs, procs');
      if r == q {
        Delta(DeadOf(s.procs[q].kids, s.procs), DeadOf(s.procs[q].kids, procs'), p);
        AheadMore(s.procs[r], procs'[r], procs');
      } else if r == p {
        AheadOutside(procs'[r], procs');
      } else {
        SameDead(s.procs[r].kids, s.procs, procs');
      }
    }
  }

  lemma StepKeeps(s: State, e: Event)
    requires Inv(s) && Enabled(s, e)
    ensures Inv(Apply(s, e))
  {
    hide TreeOk, CountOk, ScanOk;
    match e
    case Clone(_, _) => CloneTree(s, e); CloneRest(s, e);
    case Wait(_, _) => PlainKeeps(s, e);
    case Take(_) => TakeKeeps(s, e);
    case Look(_) => LookKeeps(s, e);
    case Check(p) =>
      if s.procs[s.procs[p].kids[s.procs[p].pc.i]].pc == Dead {
        ReapTree(s, e);
        ReapRest(s, e);
      } else {
        PassKeeps(s, e);
      }
    case Exit(_) => PlainKeeps(s, e);
    case HandOver(_) => HandOverTree(s, e); HandOverRest(s, e);
    case Mark(_) => PlainKeeps(s, e);
    case Report(_) => ReportTree(s, e); ReportRest(s, e);
  }

  // ---------------------------------------------------------------- whole runs

  lemma {:induction false} Safety(start: State, events: seq<Event>, s: State)
    requires Init(start) && Reaches(start, events, s)
    ensures Inv(s)
  {
    hide Enabled, Apply;
    if events != [] {
      var k := |events| - 1;
      var mid :| Reaches(start, events[..k], mid) && Enabled(mid, events[k]) && s == Apply(mid, events[k]);
      Safety(start, events[..k], mid);
      StepKeeps(mid, events[k]);
    } else {
      assert forall p :: p in s.procs ==> DeadOf(s.procs[p].kids, s.procs) == {};
    }
  }

  /** In every reachable state: zombie children = tokens + one between the wait and the reap, and nobody has panicked. */
  lemma ZombiesAreTokens(start: State, events: seq<Event>, s: State, p: Pid)
    requires Init(start) && Reaches(start, events, s) && p in s.procs
    ensures Live(s.procs[p].pc) ==> |DeadOf(s.procs[p].kids, s.procs)| == s.procs[p].tokens + One(InWaitpid(s.procs[p].pc))
    ensures !s.procs[p].pc.Panicked?
  {
    Safety(start, events, s);
    Facts(s, p);
  }

  /** Whoever waits gets past the semaphore as soon as a child is a zombie, and not before. */
  lemma WaitEndsWithAZombie(start: State, events: seq<Event>, s: State, p: Pid)
    requires Init(start) && Reaches(start, events, s) && p in s.procs && s.procs[p].pc.Waiting?
    ensures Enabled(s, Take(p)) <==> exists c :: c in s.procs[p].kids && Is(s, c, Dead)
  {
    hide Reaches, Init, TreeOk, CountOk, ScanOk, DeadOf;
    Safety(start, events, s);
    Facts(s, p);
    SomeDead(s, s.procs[p].kids);
  }

  lemma SomeDead(s: State, kids: seq<Pid>)
    ensures |DeadOf(kids, s.procs)| > 0 <==> exists c :: c in kids && Is(s, c, Dead)
  {
    var dead := DeadOf(kids, s.procs);
    assert forall c :: c in dead <==> c in kids && Is(s, c, Dead);
    if |dead| > 0 {
      var c :| c in dead;
    }
  }

  /** A process that has exited has no children, and everyone but init is in the list of the parent it points to. */
  lemma OrphansAreAdopted(start: State, events: seq<Event>, s: State, p: Pid)
    requires Init(start) && Reaches(start, events, s) && p in s.procs
    ensures Childless(s.procs[p].pc) ==> s.procs[p].kids == []
    ensures !s.procs[p].pc.Unused? && p != s.init ==>
              var q := s.procs[p].parent; q in s.procs && p in s.procs[q].kids && !Childless(s.procs[q].pc)
  {
    Safety(start, events, s);
    Facts(s, p);
    if !s.procs[p].pc.Unused? && p != s.init {
      HasParent(s, p);
      Facts(s, s.procs[p].parent);
    }
  }

  lemma HasParent(s: State, p: Pid)
    requires TreeOk(s.init, s.procs) && p in s.procs && !s.procs[p].pc.Unused? && p != s.init
    ensures Listed(p, s.procs[p].parent, s.procs)
  {
  }

  // ---------------------------------------------------------------- waiting for one child

  /** The walk of `p` stands at its wanted child `c`, whose token it has taken. */
  predicate Claimed(procs: map<Pid, Proc>, p: Pid, c: Pid)
  {
    && p in procs && procs[p].pc.Checking? && procs[p].pc.want == c
    && procs[p].pc.i < |procs[p].kids| && procs[p].kids[procs[p].pc.i] == c
  }

  /** A process has its own token exactly when it has exited and nobody has taken it. */
  predicate SelfOf(c: Pid, x: Proc, procs: map<Pid, Proc>)
  {
    && (x.pc.Dead? ==> x.self == if Claimed(procs, x.parent, c) then 0 else 1)
    && (!x.pc.Dead? && !x.pc.Unused? ==> x.self == 0 && !Claimed(procs, x.parent, c))
  }

  ghost predicate SelfOk(procs: map<Pid, Proc>)
  {
    forall c :: c in procs ==> SelfOf(c, procs[c], procs)
  }

  lemma SelfStep(s: State, e: Event)
    requires Inv(s) && SelfOk(s.procs) && Enabled(s, e)
    ensures SelfOk(Apply(s, e).procs)
  {
    hide CountOk, ScanOk, Removed;
    match e
    case Clone(_, _) => SelfClone(s, e);
    case Look(_) => SelfLook(s, e);
    case Check(_) => SelfCheck(s, e);
    case HandOver(_) => SelfHandOver(s, e);
    case Report(_) => SelfReport(s, e);
    case _ => SelfPlain(s, e);
  }

  lemma SelfPlain(s: State, e: Event)
    requires Inv(s) && SelfOk(s.procs) && Enabled(s, e) && (e.Wait? || e.Take? || e.Exit? || e.Mark?)
    ensures SelfOk(Apply(s, e).procs)
  {
    hide Inv;
    var procs' := Apply(s, e).procs;
    forall c | c in procs'
      ensures SelfOf(c, procs'[c], procs')
    {
      assert SelfOf(c, s.procs[c], s.procs);
    }
  }

  lemma SelfClone(s: State, e: Event)
    requires Inv(s) && SelfOk(s.procs) && Enabled(s, e) && e.Clone?
    ensures SelfOk(Apply(s, e).procs)
  {
    hide Inv;
    var procs' := Apply(s, e).procs;
    forall c | c in procs'
      ensures SelfOf(c, procs'[c], procs')
    {
      assert SelfOf(c, s.procs[c], s.procs);
    }
  }

  lemma SelfLook(s: State, e: Event)
    requires Inv(s) && SelfOk(s.procs) && Enabled(s, e) && e.Look?
    ensures SelfOk(Apply(s, e).procs)
  {
    hide TreeOk, CountOk, ScanOk;
    Facts(s, e.p);
    var x, procs' := s.procs[e.p], Apply(s, e).procs;
    var d := x.kids[x.pc.i];
    OneParent(s, e.p, d);
    forall c | c in procs'
      ensures SelfOf(c, procs'[c], procs')
    {
      assert SelfOf(c, s.procs[c], s.procs);
    }
  }

  /** A check ends the claim on the child it looks at, and touches no other. */
  lemma CheckClaims(s: State, e: Event, q: Pid, c: Pid)
    requires Inv(s) && Enabled(s, e) && e.Check?
    ensures var d := s.procs[e.p].kids[s.procs[e.p].pc.i];
            if q == e.p then !Claimed(Apply(s, e).procs, q, c) && (Claimed(s.procs, q, c) ==> c == d)
            else if q == d && s.procs[d].pc == Dead then !Claimed(Apply(s, e).procs, q, c) && !Claimed(s.procs, q, c)
            else Claimed(Apply(s, e).procs, q, c) <==> Claimed(s.procs, q, c)
  {
    hide TreeOk, CountOk, ScanOk, Removed;
    OneParent(s, e.p, s.procs[e.p].kids[s.procs[e.p].pc.i]);
  }

  lemma SelfCheck(s: State, e: Event)
    requires Inv(s) && SelfOk(s.procs) && Enabled(s, e) && e.Check?
    ensures SelfOk(Apply(s, e).procs)
  {
    hide TreeOk, CountOk, ScanOk, Removed, Claimed;
    var x, procs' := s.procs[e.p], Apply(s, e).procs;
    var d := x.kids[x.pc.i];
    OneParent(s, e.p, d);
    forall c | c in procs'
      ensures SelfOf(c, procs'[c], procs')
    {
      assert SelfOf(c, s.procs[c], s.procs);
      CheckClaims(s, e, s.procs[c].parent, c);
    }
  }

  lemma SelfHandOver(s: State, e: Event)
    requires Inv(s) && SelfOk(s.procs) && Enabled(s, e) && e.HandOver?
    ensures SelfOk(Apply(s, e).procs)
  {
    hide TreeOk, CountOk, ScanOk, Claimed;
    var procs' := Apply(s, e).procs;
    var d := s.procs[e.p].kids[0];
    OneParent(s, e.p, d);
    forall c | c in procs'
      ensures SelfOf(c, procs'[c], procs')
    {
      assert SelfOf(c, s.procs[c], s.procs);
      ClaimsKept(s, e, if c == d then e.p else s.procs[c].parent, c);
    }
  }

  /** Walks stand at children that were there when they set out, so handing one over moves none of them. */
  lemma ClaimsKept(s: State, e: Event, q: Pid, c: Pid)
    requires Inv(s) && Enabled(s, e) && e.HandOver?
    ensures var d := s.procs[e.p].kids[0];
            if c == d then !Claimed(Apply(s, e).procs, s.init, c) && !Claimed(s.procs, e.p, c)
            else Claimed(Apply(s, e).procs, q, c) <==> Claimed(s.procs, q, c)
  {
    hide TreeOk, CountOk, ScanOk;
    var d := s.procs[e.p].kids[0];
    OneParent(s, e.p, d);
    Facts(s, s.init);
  }

  lemma SelfReport(s: State, e: Event)
    requires Inv(s) && SelfOk(s.procs) && Enabled(s, e) && e.Report?
    ensures SelfOk(Apply(s, e).procs)
  {
    hide CountOk, ScanOk, TreeOk;
    MarkedHasParent(s, e.p);
    var procs' := Apply(s, e).procs;
    forall c | c in procs'
      ensures SelfOf(c, procs'[c], procs')
    {
      assert SelfOf(c, s.procs[c], s.procs);
    }
  }

  lemma {:induction false} SelfSafety(start: State, events: seq<Event>, s: State)
    requires Init(start) && Reaches(start, events, s)
    ensures Inv(s) && SelfOk(s.procs)
  {
    hide Enabled, Apply;
    Safety(start, events, s);
    if events != [] {
      var k := |events| - 1;
      var mid :| Reaches(start, events[..k], mid) && Enabled(mid, events[k]) && s == Apply(mid, events[k]);
      SelfSafety(start, events[..k], mid);
      SelfStep(mid, events[k]);
    }
  }

  /** A walk that has reached the child it wants waits there exactly until that child has exited; at any other it does not wait. */
  lemma WaitsForTheWantedChild(start: State, events: seq<Event>, s: State, p: Pid)
    requires Init(start) && Reaches(start, events, s) && AtChild(s, p) && s.procs[p].pc.Scanning?
    ensures var c := s.procs[p].kids[s.procs[p].pc.i];
            Enabled(s, Look(p)) <==> (c == s.procs[p].pc.want ==> Is(s, c, Dead))
  {
    hide Reaches, Init, TreeOk, CountOk, ScanOk;
    SelfSafety(start, events, s);
    var x := s.procs[p];
    var c := x.kids[x.pc.i];
    Facts(s, p);
    OneParent(s, p, c);
    assert SelfOf(c, s.procs[c], s.procs);
  }

  // ---------------------------------------------------------------- which child is reaped

  /** A walk has not passed the child it wants. */
  predicate NotPast(x: Proc)
  {
    InWaitpid(x.pc) ==> forall j :: 0 <= j < x.pc.i && j < |x.kids| ==> x.kids[j] != x.pc.want
  }

  ghost predicate NobodyPast(procs: map<Pid, Proc>)
  {
    forall p :: p in procs ==> NotPast(procs[p])
  }

  /** Whoever stands at its wanted child after waiting for it finds it exited. */
  lemma ClaimedIsDead(s: State, p: Pid, c: Pid)
    requires Inv(s) && SelfOk(s.procs) && Claimed(s.procs, p, c)
    ensures Is(s, c, Dead)
  {
    hide CountOk, ScanOk, UpOk, ListsOk;
    assert c in s.procs[p].kids;
    assert IsChild(s.init, s.procs, p, c);
    assert SelfOf(c, s.procs[c], s.procs);
  }

  lemma PastStep(s: State, e: Event)
    requires Inv(s) && SelfOk(s.procs) && NobodyPast(s.procs) && Enabled(s, e)
    ensures NobodyPast(Apply(s, e).procs)
  {
    hide TreeOk, CountOk, SelfOk, Removed;
    var procs' := Apply(s, e).procs;
    if e.Check? {
      var x := s.procs[e.p];
      if x.kids[x.pc.i] == x.pc.want {
        ClaimedIsDead(s, e.p, x.pc.want);
      }
    }
    forall p | p in procs'
      ensures NotPast(procs'[p])
    {
      assert NotPast(s.procs[p]) && Ahead(s.procs[p], s.procs);
    }
  }

  lemma {:induction false} PastSafety(start: State, events: seq<Event>, s: State)
    requires Init(start) && Reaches(start, events, s)
    ensures Inv(s) && SelfOk(s.procs) && NobodyPast(s.procs)
  {
    hide Enabled, Apply;
    SelfSafety(start, events, s);
    if events != [] {
      var k := |events| - 1;
      var mid :| Reaches(start, events[..k], mid) && Enabled(mid, events[k]) && s == Apply(mid, events[k]);
      PastSafety(start, events[..k], mid);
      PastStep(mid, events[k]);
    }
  }

  predicate Step(s: State, e: Event, next: State)
  {
    Enabled(s, e) && next == Apply(s, e)
  }

  /** A run as the states it goes through. */
  ghost predicate Trace(states: seq<State>, events: seq<Event>)
  {
    |states| == |events| + 1 && forall i :: 0 <= i < |events| ==> Step(states[i], events[i], states[i + 1])
  }

  lemma {:induction false} TraceReaches(states: seq<State>, events: seq<Event>, n: nat)
    requires Trace(states, events) && n <= |events|
    ensures Reaches(states[0], events[..n], states[n])
  {
    hide Enabled, Apply;
    if n > 0 {
      TraceReaches(states, events, n - 1);
      assert events[..n][..n - 1] == events[..n - 1];
      assert Step(states[n - 1], events[n - 1], states[n]);
    }
  }

  /** From `a` to `b` process `p` is on one walk, for `want`, over the children that it had at the start. */
  ghost predicate OnWalk(states: seq<State>, p: Pid, a: nat, b: nat, want: Pid)
  {
    && a <= b < |states| && p in states[a].procs && states[a].procs[p].pc == Scanning(want, 0, |states[a].procs[p].kids|)
    && forall t :: a <= t <= b ==> p in states[t].procs && InWaitpid(states[t].procs[p].pc)
  }

  /** One step leaves the walk's target and the children it visits as they are. */
  lemma WalkStep(s: State, e: Event, p: Pid)
    requires Inv(s) && Enabled(s, e) && p in s.procs && p in Apply(s, e).procs
    requires InWaitpid(s.procs[p].pc) && InWaitpid(Apply(s, e).procs[p].pc)
    ensures var x, y := s.procs[p], Apply(s, e).procs[p];
            x.pc.want == y.pc.want && x.pc.n == y.pc.n <= |x.kids| && x.kids <= y.kids
  {
    hide TreeOk, CountOk, SelfOk, Removed;
    assert Ahead(s.procs[p], s.procs);
  }

  lemma {:induction false} WalkKept(states: seq<State>, events: seq<Event>, p: Pid, a: nat, b: nat, want: Pid)
    requires Trace(states, events) && Init(states[0]) && OnWalk(states, p, a, b, want)
    ensures states[b].procs[p].pc.want == want && states[a].procs[p].kids <= states[b].procs[p].kids
    decreases b
  {
    hide Enabled, Apply, Init, Inv;
    if a < b {
      WalkKept(states, events, p, a, b - 1, want);
      TraceReaches(states, events, b - 1);
      Safety(states[0], events[..b - 1], states[b - 1]);
      assert Step(states[b - 1], events[b - 1], states[b]);
      WalkStep(states[b - 1], events[b - 1], p);
    }
  }

  /** The child at which a walk stands. */
  function Visited(x: Proc): Pid
    requires InWaitpid(x.pc) && x.pc.i < |x.kids|
  {
    x.kids[x.pc.i]
  }

  /** At time `t` the walk checks a child that comes before the `w`-th, and finds that it has exited. */
  predicate FoundEarlier(s: State, e: Event, p: Pid, w: nat)
  {
    e == Check(p) && AtChild(s, p) && s.procs[p].pc.i < w && Is(s, Visited(s.procs[p]), Dead)
  }

  /**
   A walk for one child, the `w`-th, reaps that child if and only if no child before it in the list has exited when
   the walk looks at it; otherwise it reaps the first that has.
   */
  lemma ReapsTheWanted(states: seq<State>, events: seq<Event>, p: Pid, a: nat, b: nat, want: Pid, w: nat)
    requires Trace(states, events) && Init(states[0]) && b < |events| && OnWalk(states, p, a, b, want)
    requires w < |states[a].procs[p].kids| && states[a].procs[p].kids[w] == want
    requires events[b] == Check(p) && AtChild(states[b], p) && Is(states[b], Visited(states[b].procs[p]), Dead)
    ensures Visited(states[b].procs[p]) == want <==> forall t :: a <= t <= b ==> !FoundEarlier(states[t], events[t], p, w)
    ensures forall t :: a <= t < b ==> !FoundEarlier(states[t], events[t], p, |states[a].procs[p].kids|)
  {
    hide Init, Inv, NobodyPast, SelfOk;
    var kids := states[b].procs[p].kids;
    var x := states[b].procs[p];
    TraceReaches(states, events, b);
    PastSafety(states[0], events[..b], states[b]);
    WalkKept(states, events, p, a, b, want);
    assert kids[w] == want;
    AtTheWanted(states[b], p, w);
    forall t | a <= t < b
      ensures forall v: nat :: !FoundEarlier(states[t], events[t], p, v)
    {
      assert Step(states[t], events[t], states[t + 1]);
      assert InWaitpid(states[t + 1].procs[p].pc);
    }
  }

  lemma AtTheWanted(s: State, p: Pid, w: nat)
    requires Inv(s) && NobodyPast(s.procs) && p in s.procs && InWaitpid(s.procs[p].pc)
    requires s.procs[p].pc.i < |s.procs[p].kids| && w < |s.procs[p].kids| && s.procs[p].kids[w] == s.procs[p].pc.want
    ensures s.procs[p].pc.i <= w && (Visited(s.procs[p]) == s.procs[p].pc.want <==> s.procs[p].pc.i == w)
  {
    hide TreeOk, CountOk, ScanOk;
    Facts(s, p);
    assert NotPast(s.procs[p]);
  }

  // ---------------------------------------------------------------- another child is reaped

  /** Init is 0, and there are two more processes. */
  function Three(x0: Proc, x1: Proc, x2: Proc): State
  {
    State(0, map[0 := x0, 1 := x1, 2 := x2])
  }

  lemma ThreeFacts()
    ensures forall x0, x1, x2 :: var s := Three(x0, x1, x2);
              && s.init == 0 && s.procs.Keys == {0, 1, 2} && s.procs[0] == x0 && s.procs[1] == x1 && s.procs[2] == x2
    ensures forall x0, x1, x2, y :: Set(Three(x0, x1, x2), 0, y) == Three(y, x1, x2)
    ensures forall x0, x1, x2, y :: Set(Three(x0, x1, x2), 1, y) == Three(x0, y, x2)
    ensures forall x0, x1, x2, y :: Set(Three(x0, x1, x2), 2, y) == Three(x0, x1, y)
  {
  }

  lemma Extend(start: State, events: seq<Event>, mid: State, e: Event, s: State)
    requires Reaches(start, events, mid) && Enabled(mid, e) && s == Apply(mid, e)
    ensures Reaches(start, events + [e], s)
  {
    assert (events + [e])[..|events|] == events;
  }

  const NOBODY := Proc(Unused, 0, [], 0, 0)
  const CHILD := Proc(Alive, 0, [], 0, 0)
  const BOTH: seq<Pid> := [1, 2]

  /** Init has children 1 and 2, and waits for 2. */
  lemma WaitForSecond(start: State) returns (events: seq<Event>)
    requires start == Three(CHILD, NOBODY, NOBODY)
    ensures Reaches(start, events, Three(Proc(Waiting(2), 0, BOTH, 0, 0), CHILD, CHILD))
  {
    hide Reaches, Three, Set;
    ThreeFacts();
    assert [] + [1 as Pid] == [1] && [1 as Pid] + [2] == BOTH;
    var s1 := Three(CHILD.(kids := [1]), CHILD, NOBODY);
    var s2 := Three(CHILD.(kids := BOTH), CHILD, CHILD);
    var s3 := Three(Proc(Waiting(2), 0, BOTH, 0, 0), CHILD, CHILD);
    assert Reaches(start, [], start) by {
      Begin(start);
    }
    Extend(start, [], start, Clone(0, 1), s1);
    Extend(start, [] + [Clone(0, 1)], s1, Clone(0, 2), s2);
    Extend(start, [] + [Clone(0, 1)] + [Clone(0, 2)], s2, Wait(0, 2), s3);
    events := [] + [Clone(0, 1)] + [Clone(0, 2)] + [Wait(0, 2)];
  }

  lemma Begin(start: State)
    ensures Reaches(start, [], start)
  {
  }

  /** Child 1 exits. */
  lemma FirstExits(start: State, events: seq<Event>) returns (more: seq<Event>)
    requires Reaches(start, events, Three(Proc(Waiting(2), 0, BOTH, 0, 0), CHILD, CHILD))
    ensures Reaches(start, more, Three(Proc(Waiting(2), 0, BOTH, 1, 0), CHILD.(pc := Dead, self := 1), CHILD))
  {
    hide Reaches, Three, Set;
    ThreeFacts();
    var x := Proc(Waiting(2), 0, BOTH, 0, 0);
    var s0, s1, s2 := Three(x, CHILD, CHILD), Three(x, CHILD.(pc := Exiting), CHILD), Three(x, CHILD.(pc := Marked), CHILD);
    var s3 := Three(x.(tokens := 1), CHILD.(pc := Dead, self := 1), CHILD);
    Extend(start, events, s0, Exit(1), s1);
    Extend(start, events + [Exit(1)], s1, Mark(1), s2);
    Extend(start, events + [Exit(1)] + [Mark(1)], s2, Report(1), s3);
    more := events + [Exit(1)] + [Mark(1)] + [Report(1)];
  }

  /** The walk of init comes to child 1 first. */
  lemma WalkBegins(start: State, events: seq<Event>) returns (more: seq<Event>)
    requires Reaches(start, events, Three(Proc(Waiting(2), 0, BOTH, 1, 0), CHILD.(pc := Dead, self := 1), CHILD))
    ensures Reaches(start, more, Three(Proc(Checking(2, 0, 2), 0, BOTH, 0, 0), CHILD.(pc := Dead, self := 1), CHILD))
  {
    hide Reaches, Three, Set;
    ThreeFacts();
    var z := CHILD.(pc := Dead, self := 1);
    var s0, s1 := Three(Proc(Waiting(2), 0, BOTH, 1, 0), z, CHILD), Three(Proc(Scanning(2, 0, 2), 0, BOTH, 0, 0), z, CHILD);
    var s2 := Three(Proc(Checking(2, 0, 2), 0, BOTH, 0, 0), z, CHILD);
    Extend(start, events, s0, Take(0), s1);
    Extend(start, events + [Take(0)], s1, Look(0), s2);
    more := events + [Take(0)] + [Look(0)];
  }

  /** waitpid for child 2, while it is alive, returns with child 1 reaped. */
  lemma AnotherIsReaped() returns (start: State, events: seq<Event>, s: State, after: State)
    ensures Init(start) && Reaches(start, events, s) && 0 in s.procs && s.procs[0].pc == Checking(2, 0, 2)
    ensures Enabled(s, Check(0)) && after == Apply(s, Check(0)) && Is(after, 0, Alive) && Is(after, 1, Unused) && Is(after, 2, Alive)
  {
    hide Reaches, Three, Set;
    ThreeFacts();
    start := Three(CHILD, NOBODY, NOBODY);
    events := WaitForSecond(start);
    events := FirstExits(start, events);
    events := WalkBegins(start, events);
    s := Three(Proc(Checking(2, 0, 2), 0, BOTH, 0, 0), CHILD.(pc := Dead, self := 1), CHILD);
    after := Apply(s, Check(0));
  }
}
