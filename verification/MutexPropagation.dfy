/**
 What one step of priority propagation does to the state: task t gets a new priority, moves to its
 new place in the queue it waits in, and at most the holder of that mutex is then out of order.
 */
module MutexPropagation {
  import opened Common
  import opened MutexState

  function SetPriority(T: Tasks, t: TaskId, p: int): Tasks
    requires t < |T|
  {
    T[t := T[t].(priority := p)]
  }

  function SetQueue(M: Mutexes, m: MutexId, q: seq<TaskId>): Mutexes
    requires m < |M|
  {
    M[m := M[m].(queue := q)]
  }

  /** A task that waits in no priority-ordered mutex queue can get its new priority at once. */
  lemma SettleAlone(T0: Tasks, M: Mutexes, ex: Exempt, t: TaskId, p: int)
    requires t < |T0| && 0 <= p < NUM_PRI
    requires Linked(T0, M, ex) && Pending(T0, M, ex, t, p)
    requires T0[t].wait.OnMutex? && t != ex.g ==> T0[t].wait.m < |M| && M[T0[t].wait.m].attr.TFIFO?
    ensures Linked(SetPriority(T0, t, p), M, ex)
    ensures Consistent(SetPriority(T0, t, p), M, ex)
  {
    var T := SetPriority(T0, t, p);
    forall m | 0 <= m < |M| ensures MutexOk(T, M, ex, m) && CeilingOk(T, M, m) && Term(T, M, m) == Term(T0, M, m) {
      assert MutexOk(T0, M, ex, m) && CeilingOk(T0, M, m);
    }
    forall u | 0 <= u < |T| ensures TaskOk(T, M, ex, u) && AtDemand(T, M, u, ex) {
      assert TaskOk(T0, M, ex, u);
      assert u != t ==> AtDemand(T0, M, u, ex);
    }
  }

  ghost predicate Moves(T0: Tasks, M: Mutexes, ex: Exempt, t: TaskId, p: int, k: nat) {
    && t < |T0| && 0 <= p < NUM_PRI
    && Linked(T0, M, ex)
    && T0[t].wait.OnMutex? && t != ex.g && !WaitsThrough(T0, M, t, ex.d)
    && T0[t].wait.m < |M| && !M[T0[t].wait.m].attr.TFIFO?
    && TpriPlace(SetPriority(T0, t, p), Without(M[T0[t].wait.m].queue, t), p, k)
  }

  /** The queue of t's mutex after t has moved to place k. */
  function Moved(M: Mutexes, m: MutexId, t: TaskId, k: nat): Mutexes
    requires m < |M| && k <= |Without(M[m].queue, t)|
  {
    SetQueue(M, m, InsertAt(Without(M[m].queue, t), k, t))
  }

  /** Taking t out of a queue and putting it back at place k keeps the tasks in the queue. */
  lemma RelocateMembers(q: seq<TaskId>, t: TaskId, k: nat)
    requires Distinct(q) && t in q && k <= |Without(q, t)|
    ensures var q' := InsertAt(Without(q, t), k, t);
            Distinct(q') && multiset(q') == multiset(q) && forall x :: x in q' <==> x in q
  {
    WithoutFacts(q, t);
    InsertFacts(Without(q, t), k, t);
  }

  lemma RelocateSorted(T0: Tasks, T: Tasks, q: seq<TaskId>, t: TaskId, k: nat)
    requires |T0| == |T| && t < |T| && forall u :: 0 <= u < |T| && u != t ==> T[u].priority == T0[u].priority
    requires Distinct(q) && Sorted(T0, q) && TpriPlace(T, Without(q, t), T[t].priority, k)
    ensures Sorted(T, InsertAt(Without(q, t), k, t))
  {
    WithoutFacts(q, t);
    WithoutSorted(T0, q, t);
    var r := Without(q, t);
    forall i, j | 0 <= i < j < |r| ensures T[r[i]].priority <= T[r[j]].priority {
      assert r[i] in r && r[j] in r;
    }
    InsertSorted(T, r, k, t);
  }

  lemma MoveTarget(T0: Tasks, M: Mutexes, ex: Exempt, t: TaskId, p: int, k: nat)
    requires Moves(T0, M, ex, t, p, k)
    ensures var T := SetPriority(T0, t, p);
            var m := T0[t].wait.m;
            var M' := Moved(M, m, t, k);
            && MutexOk(T, M', ex, m) && CeilingOk(T, M', m)
            && multiset(M'[m].queue) == multiset(M[m].queue)
            && (forall x :: x in M'[m].queue <==> x in M[m].queue)
  {
    hide InsertAt, Without;
    var T := SetPriority(T0, t, p);
    var m := T0[t].wait.m;
    var q := M[m].queue;
    assert TaskOk(T0, M, ex, t) && MutexOk(T0, M, ex, m) && CeilingOk(T0, M, m);
    RelocateMembers(q, t, k);
    RelocateSorted(T0, T, q, t, k);
    assert q != [];
  }

  lemma MoveDefined(T0: Tasks, M: Mutexes, ex: Exempt, t: TaskId, p: int, k: nat)
    requires Moves(T0, M, ex, t, p, k)
    ensures t < |T0| && T0[t].wait.OnMutex? && T0[t].wait.m < |M| && 0 <= p < NUM_PRI
    ensures k <= |Without(M[T0[t].wait.m].queue, t)| && |Moved(M, T0[t].wait.m, t, k)| == |M|
  {
  }


  lemma MoveTask(T0: Tasks, M: Mutexes, ex: Exempt, t: TaskId, p: int, k: nat, u: TaskId)
    requires Moves(T0, M, ex, t, p, k) && u < |T0|
    ensures TaskOk(SetPriority(T0, t, p), Moved(M, T0[t].wait.m, t, k), ex, u)
  {
    hide CeilingOk, Sorted, TpriPlace, InsertAt, Without, Distinct;
    MoveTarget(T0, M, ex, t, p, k);
    assert TaskOk(T0, M, ex, u);
  }

  lemma MoveMutex(T0: Tasks, M: Mutexes, ex: Exempt, t: TaskId, p: int, k: nat, n: MutexId)
    requires Moves(T0, M, ex, t, p, k) && n < |M|
    ensures var T, M' := SetPriority(T0, t, p), Moved(M, T0[t].wait.m, t, k);
            MutexOk(T, M', ex, n) && CeilingOk(T, M', n)
  {
    hide TpriPlace, InsertAt, Without, Distinct;
    MoveTarget(T0, M, ex, t, p, k);
    if n != T0[t].wait.m {
      assert MutexOk(T0, M, ex, n) && CeilingOk(T0, M, n);
      assert t !in M[n].queue;
    }
  }

  lemma MoveLinks(T0: Tasks, M: Mutexes, ex: Exempt, t: TaskId, p: int, k: nat)
    requires Moves(T0, M, ex, t, p, k)
    ensures Linked(SetPriority(T0, t, p), Moved(M, T0[t].wait.m, t, k), ex)
    ensures SameLinks(T0, SetPriority(T0, t, p), M, Moved(M, T0[t].wait.m, t, k))
  {
    hide TaskOk, MutexOk, CeilingOk, Sorted, TpriPlace, InsertAt, Without, Distinct;
    MoveDefined(T0, M, ex, t, p, k);
    var T := SetPriority(T0, t, p);
    var M' := Moved(M, T0[t].wait.m, t, k);
    MoveTarget(T0, M, ex, t, p, k);
    forall u | 0 <= u < |T| ensures TaskOk(T, M', ex, u) {
      MoveTask(T0, M, ex, t, p, k, u);
    }
    forall n | 0 <= n < |M| ensures MutexOk(T, M', ex, n) && CeilingOk(T, M', n) {
      MoveMutex(T0, M, ex, t, p, k, n);
    }
  }

  /** A mutex that t does not pass its priority on through asks for the same as before. */
  lemma MoveTerms(T0: Tasks, M: Mutexes, ex: Exempt, t: TaskId, p: int, k: nat, n: MutexId)
    requires Moves(T0, M, ex, t, p, k) && (n == T0[t].wait.m ==> !M[n].attr.INHERIT?)
    ensures Term(SetPriority(T0, t, p), Moved(M, T0[t].wait.m, t, k), n) == Term(T0, M, n)
  {
    hide TaskOk, CeilingOk, Sorted, TpriPlace, InsertAt, Without, Distinct;
    if n < |M| && n != T0[t].wait.m {
      assert MutexOk(T0, M, ex, n);
      assert t !in M[n].queue;
    }
  }

  lemma HolderOf(T: Tasks, M: Mutexes, ex: Exempt, u: TaskId)
    requires u < |T| && Linked(T, M, ex)
    ensures forall n :: n in T[u].mtxlist ==> n < |M| && M[n].mtxtsk == Some(u)
  {
    assert TaskOk(T, M, ex, u);
  }

  /** The mutexes whose term can change are exactly the inheritance mutex t waits for. */
  lemma MoveOthers(T0: Tasks, M: Mutexes, ex: Exempt, t: TaskId, p: int, k: nat, u: TaskId)
    requires Moves(T0, M, ex, t, p, k) && Pending(T0, M, ex, t, p)
    requires u < |T0|
    requires NextOwner(T0, M, t) != Some(u)
    ensures AtDemand(SetPriority(T0, t, p), Moved(M, T0[t].wait.m, t, k), u, ex)
  {
    hide TaskOk, CeilingOk, Sorted, TpriPlace, InsertAt, Without, Distinct, Moved;
    MoveDefined(T0, M, ex, t, p, k);
    var T := SetPriority(T0, t, p);
    var m := T0[t].wait.m;
    var M' := Moved(M, m, t, k);
    HolderOf(T0, M, ex, u);
    forall n | n in T0[u].mtxlist ensures Term(T, M', n) == Term(T0, M, n) {
      MoveTerms(T0, M, ex, t, p, k, n);
    }
    assert u != t ==> AtDemand(T0, M, u, ex);
  }

  /** The first task of a queue once t has been taken out and put back at place k. */
  lemma RelocateHead(q: seq<TaskId>, t: TaskId, k: nat)
    requires Distinct(q) && t in q && k <= |Without(q, t)|
    ensures var r := Without(q, t);
            InsertAt(r, k, t)[0] == if k == 0 then t else r[0]
    ensures q[0] != t ==> |Without(q, t)| > 0 && Without(q, t)[0] == q[0]
    ensures q[0] == t && |Without(q, t)| > 0 ==> Without(q, t)[0] == q[1]
  {
    var i := IndexOf(q, t);
    assert i == 0 <==> q[0] == t;
  }

  /** What the head of t's queue asks for before and after the move. */
  lemma MoveHead(T0: Tasks, M: Mutexes, ex: Exempt, t: TaskId, p: int, k: nat)
    requires Moves(T0, M, ex, t, p, k) && M[T0[t].wait.m].attr.INHERIT?
    ensures var m := T0[t].wait.m;
            var old_ := Term(T0, M, m);
            var new_ := Term(SetPriority(T0, t, p), Moved(M, m, t, k), m);
            && old_ <= T0[t].priority && new_ <= p
            && (new_ < p ==> new_ >= old_)
            && (old_ < T0[t].priority ==> new_ == if p < old_ then p else old_)
            && (p <= old_ ==> new_ == p)
  {
    hide CeilingOk, Distinct;
    var T := SetPriority(T0, t, p);
    var m := T0[t].wait.m;
    var q := M[m].queue;
    var r := Without(q, t);
    assert TaskOk(T0, M, ex, t) && MutexOk(T0, M, ex, m);
    RelocateHead(q, t, k);
    assert T0[q[0]].priority <= T0[t].priority by { var i := IndexOf(q, t); }
    if k > 0 {
      assert T[r[0]].priority <= p;
    } else if |r| > 0 {
      assert T[r[0]].priority > p;
    }
  }

  lemma MoveOwner(T0: Tasks, M: Mutexes, ex: Exempt, t: TaskId, p: int, k: nat, o: TaskId)
    requires Moves(T0, M, ex, t, p, k) && NextOwner(T0, M, t) == Some(o) && o < |T0|
    ensures M[T0[t].wait.m].attr.INHERIT? && T0[t].wait.m in T0[o].mtxlist
    ensures T0[o].bpriority < NUM_PRI && forall n :: n in T0[o].mtxlist ==> n < |M|
  {
    hide CeilingOk, Sorted, TpriPlace, InsertAt, Without, Distinct;
    assert TaskOk(T0, M, ex, t) && TaskOk(T0, M, ex, o) && MutexOk(T0, M, ex, T0[t].wait.m);
  }

  /** The holder o of t's mutex, raised because t now asks for more. */
  lemma MoveRaises(T0: Tasks, M: Mutexes, ex: Exempt, t: TaskId, p: int, k: nat, o: TaskId)
    requires Moves(T0, M, ex, t, p, k) && Pending(T0, M, ex, t, p)
    requires NextOwner(T0, M, t) == Some(o) && o < |T0| && o != ex.dead && o != t
    requires T0[o].priority > p
    ensures Pending(SetPriority(T0, t, p), Moved(M, T0[t].wait.m, t, k), ex, o, p)
    ensures p < T0[t].priority
  {
    hide TaskOk, MutexOk, CeilingOk, Linked, TpriPlace, InsertAt, Without, Moves, Moved;
    MoveDefined(T0, M, ex, t, p, k);
    var T := SetPriority(T0, t, p);
    var m := T0[t].wait.m;
    var M' := Moved(M, m, t, k);
    MoveOwner(T0, M, ex, t, p, k, o);
    MoveHead(T0, M, ex, t, p, k);
    assert AtDemand(T0, M, o, ex);
    forall n | n in T0[o].mtxlist ensures p <= Term(T, M', n) {
      if n != m {
        MoveTerms(T0, M, ex, t, p, k, n);
      }
    }
    assert m in T0[o].mtxlist && Term(T, M', m) == p;
    forall u | 0 <= u < |T| && u != o ensures AtDemand(T, M', u, ex) {
      MoveOthers(T0, M, ex, t, p, k, u);
    }
  }

  /** The holder o of t's mutex when it need not be raised: it is still at its demand unless it ran
      at t's old priority, and even then its demand has not become more urgent. */
  lemma MoveRest(T0: Tasks, M: Mutexes, ex: Exempt, t: TaskId, p: int, k: nat, o: TaskId)
    requires Moves(T0, M, ex, t, p, k) && Pending(T0, M, ex, t, p)
    requires NextOwner(T0, M, t) == Some(o) && o < |T0| && o != ex.dead && o != t
    requires T0[o].priority <= p
    ensures var T := SetPriority(T0, t, p);
            var M' := Moved(M, T0[t].wait.m, t, k);
            && (T0[o].priority != T0[t].priority ==> AtDemand(T, M', o, ex))
            && (p == T0[t].priority ==> AtDemand(T, M', o, ex))
            && T0[o].priority <= T0[o].bpriority
            && (forall n :: n in T0[o].mtxlist ==> T0[o].priority <= Term(T, M', n))
  {
    hide TaskOk, MutexOk, CeilingOk, Linked, TpriPlace, InsertAt, Without, Moves, Moved;
    MoveDefined(T0, M, ex, t, p, k);
    var T := SetPriority(T0, t, p);
    var m := T0[t].wait.m;
    var M' := Moved(M, m, t, k);
    MoveOwner(T0, M, ex, t, p, k, o);
    MoveHead(T0, M, ex, t, p, k);
    assert AtDemand(T0, M, o, ex);
    forall n | n in T0[o].mtxlist ensures n != m ==> Term(T, M', n) == Term(T0, M, n) {
      if n != m {
        MoveTerms(T0, M, ex, t, p, k, n);
      }
    }
    assert T0[o].priority <= Term(T0, M, m);
    if T0[o].priority != T0[t].priority || p == T0[t].priority {
      var e := if o == ex.x then ex.e else NUM_PRI;
      if T0[o].priority == Term(T0, M, m) {
        assert Term(T, M', m) == T0[o].priority;
      }
      assert Meets(T, M', o, T0[o].priority, e);
    }
  }

  /** When no holder is blocked through t's mutex, the move leaves everybody at its demand. */
  lemma MoveSettles(T0: Tasks, M: Mutexes, ex: Exempt, t: TaskId, p: int, k: nat)
    requires Moves(T0, M, ex, t, p, k) && Pending(T0, M, ex, t, p)
    requires !M[T0[t].wait.m].attr.INHERIT?
    ensures Consistent(SetPriority(T0, t, p), Moved(M, T0[t].wait.m, t, k), ex)
  {
    forall u | 0 <= u < |T0| ensures AtDemand(SetPriority(T0, t, p), Moved(M, T0[t].wait.m, t, k), u, ex) {
      MoveOthers(T0, M, ex, t, p, k, u);
    }
  }

  lemma MoveOthersAll(T0: Tasks, M: Mutexes, ex: Exempt, t: TaskId, p: int, k: nat, o: TaskId)
    requires Moves(T0, M, ex, t, p, k) && Pending(T0, M, ex, t, p) && NextOwner(T0, M, t) == Some(o)
    ensures forall u :: 0 <= u < |T0| && u != o ==>
              AtDemand(SetPriority(T0, t, p), Moved(M, T0[t].wait.m, t, k), u, ex)
  {
    forall u | 0 <= u < |T0| && u != o
      ensures AtDemand(SetPriority(T0, t, p), Moved(M, T0[t].wait.m, t, k), u, ex)
    {
      MoveOthers(T0, M, ex, t, p, k, u);
    }
  }

  /** The next task of a chain of holders, and that it is a task the propagation may visit. */
  lemma NextHolder(T0: Tasks, M: Mutexes, ex: Exempt, t: TaskId)
    requires t < |T0| && Linked(T0, M, ex) && Avoids(T0, M, ex, t)
    requires T0[t].wait.OnMutex? && T0[t].wait.m < |M| && M[T0[t].wait.m].attr.INHERIT?
    ensures t != ex.g && t != ex.dead && !WaitsThrough(T0, M, t, ex.d)
    ensures var o := NextOwner(T0, M, t);
            o.Some? && o.value < |T0| && o.value != t && o.value != ex.dead && Avoids(T0, M, ex, o.value)
  {
    assert Follow(T0, M, t, 0) == Some(t);
    assert TaskOk(T0, M, ex, t) && MutexOk(T0, M, ex, T0[t].wait.m);
    var o := NextOwner(T0, M, t).value;
    AvoidsNext(T0, M, ex, t, o);
    assert Follow(T0, M, o, 0) == Some(o);
  }

  /** A waiting task's queue without the task is still in order of the new priorities. */
  lemma RestSorted(T0: Tasks, M: Mutexes, ex: Exempt, t: TaskId, p: int)
    requires t < |T0| && Linked(T0, M, ex) && T0[t].wait.OnMutex? && t != ex.g
    requires T0[t].wait.m < |M| && !M[T0[t].wait.m].attr.TFIFO?
    ensures Sorted(SetPriority(T0, t, p), Without(M[T0[t].wait.m].queue, t))
  {
    var q := M[T0[t].wait.m].queue;
    assert MutexOk(T0, M, ex, T0[t].wait.m);
    WithoutFacts(q, t);
    WithoutSorted(T0, q, t);
    var r := Without(q, t);
    forall i | 0 <= i < |r| ensures r[i] != t {
      assert r[i] in r;
    }
  }

  lemma DemandUnique(T: Tasks, M: Mutexes, t: TaskId, p: int, q: int, e: int)
    requires t < |T| && Meets(T, M, t, p, e) && Meets(T, M, t, q, e)
    ensures p == q
  {
  }

  // ---------------------------------------------------------------- leaving the holder's list

  /** The task table after mutex rel, if any, has left o's list. */
  function Dropped(T: Tasks, o: TaskId, rel: Option<MutexId>): Tasks
    requires o < |T|
  {
    if rel.None? then T else T[o := T[o].(mtxlist := Without(T[o].mtxlist, rel.value))]
  }

  lemma WithoutAt(q: seq<nat>, t: nat, i: nat)
    requires i < |q| && q[i] == t && Distinct(q)
    ensures Without(q, t) == q[..i] + q[i + 1..]
  {
  }

  lemma DropTerm(T: Tasks, M: Mutexes, o: TaskId, rel: Option<MutexId>, m: MutexId)
    requires o < |T|
    ensures Term(Dropped(T, o, rel), M, m) == Term(T, M, m)
  {
  }

  lemma DropLinks(T: Tasks, M: Mutexes, ex: Exempt, o: TaskId, r: MutexId)
    requires o < |T| && r in T[o].mtxlist && Linked(T, M, ex.(d := -1)) && ex.d == r
    ensures Linked(Dropped(T, o, Some(r)), M, ex)
  {
    var T' := Dropped(T, o, Some(r));
    var none := ex.(d := -1);
    assert TaskOk(T, M, none, o);
    WithoutFacts(T[o].mtxlist, r);
    forall u | 0 <= u < |T'| ensures TaskOk(T', M, ex, u) {
      assert TaskOk(T, M, none, u);
    }
    forall m | 0 <= m < |M| ensures MutexOk(T', M, ex, m) && CeilingOk(T', M, m) {
      assert MutexOk(T, M, none, m) && CeilingOk(T, M, m);
    }
  }

  lemma DropOthers(T: Tasks, M: Mutexes, ex: Exempt, o: TaskId, rel: Option<MutexId>, u: TaskId)
    requires o < |T| && u < |T| && u != o && AtDemand(T, M, u, ex)
    ensures AtDemand(Dropped(T, o, rel), M, u, ex)
  {
    var T' := Dropped(T, o, rel);
    forall m | m in T[u].mtxlist ensures Term(T', M, m) == Term(T, M, m) {
      DropTerm(T, M, o, rel, m);
    }
  }

  lemma DropDemands(T: Tasks, M: Mutexes, ex: Exempt, o: TaskId, rel: Option<MutexId>)
    requires o < |T| && Linked(T, M, if rel.None? then ex else ex.(d := -1))
    requires rel.Some? ==> ex.d == rel.value && rel.value in T[o].mtxlist
    requires forall u :: 0 <= u < |T| && u != o ==> AtDemand(T, M, u, ex)
    ensures Linked(Dropped(T, o, rel), M, ex)
    ensures forall u :: 0 <= u < |T| && u != o ==> AtDemand(Dropped(T, o, rel), M, u, ex)
    ensures forall m :: Term(Dropped(T, o, rel), M, m) == Term(T, M, m)
    ensures forall m :: m in Dropped(T, o, rel)[o].mtxlist ==> m in T[o].mtxlist && Some(m) != rel
  {
    if rel.Some? {
      DropLinks(T, M, ex, o, rel.value);
      assert TaskOk(T, M, ex.(d := -1), o);
      WithoutFacts(T[o].mtxlist, rel.value);
    }
    forall u | 0 <= u < |T| && u != o ensures AtDemand(Dropped(T, o, rel), M, u, ex) {
      DropOthers(T, M, ex, o, rel, u);
    }
  }
}
