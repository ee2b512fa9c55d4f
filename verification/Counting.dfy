/** Counting the threads whose program counter satisfies a condition. */
module Counting {

  ghost function Where<T(!new), P(!new)>(pcs: map<T, P>, f: P -> bool): set<T>
  {
    set t | t in pcs && f(pcs[t])
  }

  ghost function Count<T(!new), P(!new)>(pcs: map<T, P>, f: P -> bool): nat
  {
    |Where(pcs, f)|
  }

  function One(b: bool): nat
  {
    if b then 1 else 0
  }

  /** Two sets that agree outside `t` differ in size by what `t` contributes. */
  lemma Delta<T(!new)>(was: set<T>, now: set<T>, t: T)
    requires forall u :: u != t ==> (u in was <==> u in now)
    ensures |now| == |was| - One(t in was) + One(t in now)
    ensures t in was ==> |was| > 0
  {
    var rest := was - {t};
    assert rest == now - {t};
    assert was == if t in was then rest + {t} else rest;
    assert now == if t in now then rest + {t} else rest;
  }

  /** Moving one thread changes a count by what that thread contributes. */
  lemma Moved<T(!new), P(!new)>(pcs: map<T, P>, t: T, pc: P, f: P -> bool)
    requires t in pcs
    ensures Count(pcs[t := pc], f) == Count(pcs, f) - One(f(pcs[t])) + One(f(pc))
    ensures f(pcs[t]) ==> Count(pcs, f) > 0
  {
    var was, now := Where(pcs, f), Where(pcs[t := pc], f);
    forall u | u != t
      ensures u in was <==> u in now
    {
    }
    Delta(was, now, t);
  }

  /** A count is positive exactly when some thread is counted. */
  lemma Counted<T(!new), P(!new)>(pcs: map<T, P>, f: P -> bool)
    ensures Count(pcs, f) > 0 <==> exists t :: t in pcs && f(pcs[t])
  {
    if Count(pcs, f) > 0 {
      var t :| t in Where(pcs, f);
      assert t in pcs && f(pcs[t]);
    } else {
      assert Where(pcs, f) == {};
      forall t | t in pcs
        ensures !f(pcs[t])
      {
        assert t !in Where(pcs, f);
      }
    }
  }

  /** A weaker condition counts at least as many. */
  lemma Weaker<T(!new), P(!new)>(pcs: map<T, P>, f: P -> bool, g: P -> bool)
    requires forall t :: t in pcs && f(pcs[t]) ==> g(pcs[t])
    ensures Count(pcs, f) <= Count(pcs, g)
  {
    Subset(Where(pcs, f), Where(pcs, g));
  }

  lemma Subset<T>(a: set<T>, b: set<T>)
    requires a <= b
    ensures |a| <= |b|
  {
    assert |b| == |a| + |b - a| by {
      assert b == a + (b - a);
    }
  }
}
