/** What several modules share: optional values, the page size, an allocator's supply, and lists without repetition. */
module Common {

  const PGSIZE := 4096

  datatype Option<T> = None | Some(value: T)

  /**
   The allocator has found memory in all calls of an interval. `starved` are the calls that find none; it is any set,
   so that what is proved holds however memory runs out.
   */
  ghost predicate Supplied(starved: set<nat>, from: nat, to: nat)
  {
    forall i :: from <= i < to ==> i !in starved
  }

  lemma SuppliedJoin(starved: set<nat>, a: nat, b: nat, c: nat)
    requires a <= b <= c
    ensures Supplied(starved, a, c) <==> Supplied(starved, a, b) && Supplied(starved, b, c)
    ensures Supplied(starved, a, a)
  {
  }

  ghost predicate Distinct<T>(q: seq<T>)
  {
    forall i, j :: 0 <= i < j < |q| ==> q[i] != q[j]
  }

  /** The list without the first occurrence of `x`. */
  function Without<T(==)>(q: seq<T>, x: T): seq<T>
  {
    if q == [] then [] else if q[0] == x then q[1..] else [q[0]] + Without(q[1..], x)
  }

  lemma {:induction false} WithoutMembers<T>(q: seq<T>, x: T)
    requires Distinct(q)
    ensures Distinct(Without(q, x)) && forall y :: y in Without(q, x) <==> y in q && y != x
  {
    if q != [] {
      var rest := q[1..];
      WithoutMembers(rest, x);
      assert q == [q[0]] + rest && q[0] !in rest;
    }
  }

  function Removed<T>(q: seq<T>, i: nat): seq<T>
    requires i < |q|
  {
    q[..i] + q[i + 1..]
  }

  /** Where the j-th remaining element was. */
  function Origin(i: nat, j: nat): nat
  {
    if j < i then j else j + 1
  }

  lemma RemovedMembers<T>(q: seq<T>, i: nat)
    requires Distinct(q) && i < |q|
    ensures Distinct(Removed(q, i)) && forall y :: y in Removed(q, i) <==> y in q && y != q[i]
  {
    var r := Removed(q, i);
    assert q == q[..i] + [q[i]] + q[i + 1..];
    assert forall j :: 0 <= j < |r| ==> r[j] == q[Origin(i, j)];
  }
}
