/** What several modules use: an optional value, the number of priorities, bytes, and sequences of numbers. */
module Common {

  datatype Option<+T> = None | Some(value: T)

  // Internal priorities run from 0 to NUM_PRI - 1; NUM_PRI itself stands for no demand or no task.
  const NUM_PRI := 140

  newtype byte = x: int | 0 <= x < 256

  ghost predicate Distinct(q: seq<nat>) {
    forall i, j :: 0 <= i < j < |q| ==> q[i] != q[j]
  }

  /** The position of t in q, or |q| when it is not there. */
  function IndexOf(q: seq<nat>, t: nat): (k: nat)
    ensures k <= |q|
    ensures k < |q| ==> q[k] == t
    ensures k == |q| <==> t !in q
  {
    if q == [] then 0 else if q[0] == t then 0 else 1 + IndexOf(q[1..], t)
  }

  function Without(q: seq<nat>, t: nat): seq<nat> {
    var k := IndexOf(q, t);
    if k == |q| then q else q[..k] + q[k + 1..]
  }

  /** q with t put in at position k. */
  function InsertAt(q: seq<nat>, k: nat, t: nat): seq<nat>
    requires k <= |q|
  {
    q[..k] + [t] + q[k..]
  }

  lemma InsertedAt(q: seq<nat>, k: nat, t: nat)
    requires k <= |q|
    ensures |InsertAt(q, k, t)| == |q| + 1
    ensures forall i :: 0 <= i <= |q| ==> InsertAt(q, k, t)[i] == if i < k then q[i] else if i == k then t else q[i - 1]
    ensures multiset(InsertAt(q, k, t)) == multiset(q) + multiset{t}
  {
    assert q == q[..k] + q[k..];
  }

  lemma InsertFacts(q: seq<nat>, k: nat, t: nat)
    requires k <= |q|
    ensures forall x :: x in InsertAt(q, k, t) <==> x == t || x in q
    ensures multiset(InsertAt(q, k, t)) == multiset(q) + multiset{t}
    ensures Distinct(q) && t !in q ==> Distinct(InsertAt(q, k, t))
  {
    InsertedAt(q, k, t);
    var r := InsertAt(q, k, t);
    forall x | x in q ensures x in r {
      var i :| 0 <= i < |q| && q[i] == x;
      assert r[if i < k then i else i + 1] == x;
    }
    assert r[k] == t;
  }

  lemma WithoutFacts(q: seq<nat>, t: nat)
    requires Distinct(q)
    ensures t !in Without(q, t) && Distinct(Without(q, t))
    ensures forall x :: x in Without(q, t) <==> x in q && x != t
    ensures t in q ==> multiset(q) == multiset(Without(q, t)) + multiset{t}
    ensures q != [] && q[0] != t ==> Without(q, t) != [] && Without(q, t)[0] == q[0]
  {
    var k := IndexOf(q, t);
    if k < |q| {
      var r := Without(q, t);
      assert q == q[..k] + [t] + q[k + 1..];
      forall x ensures x in r <==> x in q && x != t {
        if x in q && x != t {
          var i :| 0 <= i < |q| && q[i] == x;
          assert r[if i < k then i else i - 1] == x;
        }
      }
    }
  }
}
