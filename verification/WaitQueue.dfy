/**
 Wait queues of kernel objects. A waiter has a task, its priority (a smaller number is more urgent) and
 what it asks for; an object with attribute TA_TPRI keeps its queue in order of priority, any other in
 order of arrival.
 */
module WaitQueue {

  datatype Waiter<R> = Waiter(tid: nat, pri: int, req: R)

  ghost predicate InOrder<R>(q: seq<Waiter<R>>) {
    forall i, j :: 0 <= i < j < |q| ==> q[i].pri <= q[j].pri
  }

  ghost predicate Tasks<R>(q: seq<Waiter<R>>) {
    forall i, j :: 0 <= i < j < |q| ==> q[i].tid != q[j].tid
  }

  ghost predicate QueueOk<R>(q: seq<Waiter<R>>, tpri: bool) {
    Tasks(q) && (tpri ==> InOrder(q))
  }

  ghost predicate Absent<R>(q: seq<Waiter<R>>, tid: nat) {
    forall i :: 0 <= i < |q| ==> q[i].tid != tid
  }

  /** Behind all waiters that are at least as urgent. */
  function Place<R>(q: seq<Waiter<R>>, pri: int): (k: nat)
    ensures k <= |q|
    ensures forall i :: 0 <= i < k ==> q[i].pri <= pri
    ensures k < |q| ==> pri < q[k].pri
  {
    if q == [] || pri < q[0].pri then 0 else 1 + Place(q[1..], pri)
  }

  /** The queue after w has joined it. */
  function Joined<R>(q: seq<Waiter<R>>, w: Waiter<R>, tpri: bool): (r: seq<Waiter<R>>)
    ensures |r| == |q| + 1
  {
    var k := if tpri then Place(q, w.pri) else |q|;
    q[..k] + [w] + q[k..]
  }

  function Left<R>(q: seq<Waiter<R>>, i: nat): (r: seq<Waiter<R>>)
    requires i < |q|
    ensures |r| == |q| - 1
  {
    q[..i] + q[i + 1..]
  }

  /** The place of task tid, or |q| when it is not in the queue. */
  function QueueIndex<R>(q: seq<Waiter<R>>, tid: nat): (k: nat)
    ensures k <= |q|
    ensures k < |q| ==> q[k].tid == tid
    ensures k == |q| ==> Absent(q, tid)
  {
    if q == [] then 0 else if q[0].tid == tid then 0 else 1 + QueueIndex(q[1..], tid)
  }

  /** gcb_change_priority: a waiter takes the place of its new priority. */
  function Moved<R>(q: seq<Waiter<R>>, i: nat, pri: int): (r: seq<Waiter<R>>)
    requires i < |q|
    ensures |r| == |q|
  {
    Joined(Left(q, i), q[i].(pri := pri), true)
  }

  /** gcb_top_of_wait_queue answers with the calling task itself. */
  predicate OnTop<R>(q: seq<Waiter<R>>, pri: int, tpri: bool) {
    q == [] || (tpri && pri < q[0].pri)
  }

  /** queue_insert_tpri, and QueInsert at the end for other objects. */
  method Join<R>(q: seq<Waiter<R>>, w: Waiter<R>, tpri: bool) returns (r: seq<Waiter<R>>)
    ensures r == Joined(q, w, tpri)
    ensures !tpri ==> r == q + [w]
    ensures tpri ==> exists k: nat :: (
              && k <= |q| && r == q[..k] + [w] + q[k..]
              && (forall i :: 0 <= i < k ==> q[i].pri <= w.pri) && (k < |q| ==> w.pri < q[k].pri))
  {
    if !tpri {
      r := q + [w];
      assert q[..|q|] == q && q[|q|..] == [];
      return;
    }
    var i := 0;
    while i < |q|
      invariant i <= |q|
      invariant forall j :: 0 <= j < i ==> q[j].pri <= w.pri
    {
      if q[i].pri > w.pri {
        break;
      }
      i := i + 1;
    }
    r := q[..i] + [w] + q[i..];
    PlaceUnique(q, w.pri, i);
  }

  lemma PlaceUnique<R>(q: seq<Waiter<R>>, pri: int, k: nat)
    requires k <= |q| && (forall i :: 0 <= i < k ==> q[i].pri <= pri) && (k < |q| ==> pri < q[k].pri)
    ensures Place(q, pri) == k
  {
    var p := Place(q, pri);
    assert p < |q| ==> pri < q[p].pri;
  }

  lemma JoinedAt<R>(q: seq<Waiter<R>>, w: Waiter<R>, tpri: bool)
    ensures var k := if tpri then Place(q, w.pri) else |q|;
            forall i :: 0 <= i <= |q| ==>
              Joined(q, w, tpri)[i] == (if i < k then q[i] else if i == k then w else q[i - 1])
  {
    var k := if tpri then Place(q, w.pri) else |q|;
    assert Joined(q, w, tpri) == q[..k] + [w] + q[k..];
  }

  lemma JoinedMembers<R>(q: seq<Waiter<R>>, w: Waiter<R>, tpri: bool)
    ensures forall x :: x in Joined(q, w, tpri) <==> x in q || x == w
  {
    JoinedAt(q, w, tpri);
    var k := if tpri then Place(q, w.pri) else |q|;
    var r := Joined(q, w, tpri);
    forall x | x in q || x == w ensures x in r {
      if x == w {
        assert r[k] == w;
      } else {
        var i :| 0 <= i < |q| && q[i] == x;
        assert r[if i < k then i else i + 1] == x;
      }
    }
  }

  lemma JoinedInOrder<R>(q: seq<Waiter<R>>, w: Waiter<R>)
    requires InOrder(q)
    ensures InOrder(Joined(q, w, true))
  {
    JoinedAt(q, w, true);
    var k := Place(q, w.pri);
    var r := Joined(q, w, true);
    assert forall i :: k <= i < |q| ==> w.pri < q[i].pri;
    forall i, j | 0 <= i < j < |r| ensures r[i].pri <= r[j].pri {
      assert r[i] == if i < k then q[i] else if i == k then w else q[i - 1];
      assert r[j] == if j < k then q[j] else if j == k then w else q[j - 1];
    }
  }

  /** A task that joins keeps the queue in order and goes behind everyone as urgent as itself. */
  lemma JoinedOk<R>(q: seq<Waiter<R>>, w: Waiter<R>, tpri: bool)
    requires QueueOk(q, tpri) && Absent(q, w.tid)
    ensures QueueOk(Joined(q, w, tpri), tpri)
    ensures Joined(q, w, tpri)[0] == if OnTop(q, w.pri, tpri) then w else q[0]
    ensures forall x :: x in Joined(q, w, tpri) <==> x in q || x == w
  {
    JoinedMembers(q, w, tpri);
    JoinedAt(q, w, tpri);
    if tpri {
      JoinedInOrder(q, w);
    }
  }

  /** A task that leaves keeps the others in their order. */
  lemma LeftOk<R>(q: seq<Waiter<R>>, i: nat, tpri: bool)
    requires i < |q| && QueueOk(q, tpri)
    ensures QueueOk(Left(q, i), tpri) && Absent(Left(q, i), q[i].tid)
    ensures forall x :: x in Left(q, i) <==> x in q && x != q[i]
    ensures |Left(q, i)| == |q| - 1 && forall j :: 0 <= j < |q| - 1 ==> Left(q, i)[j] == q[if j < i then j else j + 1]
  {
    var r := Left(q, i);
    forall j | 0 <= j < |r| ensures r[j] == q[if j < i then j else j + 1] && r[j].tid != q[i].tid {
    }
    forall x | x in q && x != q[i] ensures x in r {
      var j :| 0 <= j < |q| && q[j] == x;
      assert r[if j < i then j else j - 1] == x;
    }
  }

  /** A task whose priority changes goes behind its equals, and the others keep their order. */
  lemma MovedAt<R>(q: seq<Waiter<R>>, i: nat, pri: int)
    requires i < |q|
    ensures exists k: nat :: (
              && k < |q| && Moved(q, i, pri)[k] == q[i].(pri := pri)
              && Moved(q, i, pri)[..k] + Moved(q, i, pri)[k + 1..] == q[..i] + q[i + 1..]
              && (k + 1 < |q| ==> pri < Moved(q, i, pri)[k + 1].pri))
  {
    var l, w := Left(q, i), q[i].(pri := pri);
    var k := Place(l, pri);
    var r := Moved(q, i, pri);
    JoinedAt(l, w, true);
    assert r[..k] == l[..k] && r[k + 1..] == l[k..];
  }

  lemma MovedOk<R>(q: seq<Waiter<R>>, i: nat, pri: int)
    requires i < |q| && QueueOk(q, true)
    ensures QueueOk(Moved(q, i, pri), true)
    ensures forall x :: x in Moved(q, i, pri) <==> (x in q && x != q[i]) || x == q[i].(pri := pri)
  {
    LeftOk(q, i, true);
    JoinedOk(Left(q, i), q[i].(pri := pri), true);
  }

  lemma DropOk<R>(q: seq<Waiter<R>>, n: nat, tpri: bool)
    requires n <= |q| && QueueOk(q, tpri)
    ensures QueueOk(q[n..], tpri)
    ensures forall x :: x in q[n..] ==> x in q
  {
  }
}
