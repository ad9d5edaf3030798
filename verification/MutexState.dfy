/**
 The mutex part of the kernel state, as values: the table of task control blocks, the table of
 mutex control blocks, and what it means for the two to be well linked and for every task to run
 at the priority its mutexes demand. Smaller numbers are higher priorities.
 */
module MutexState {
  import opened Common

  type TaskId = nat
  type MutexId = nat

  datatype Attr = TFIFO | TPRI | INHERIT | CEILING

  // What a task in the wait state waits for; Elsewhere is any object that is not a mutex.
  datatype Wait = NoWait | OnMutex(m: MutexId) | Elsewhere

  datatype TaskState = NonExistent | Dormant | Alive

  datatype Tcb = Tcb(state: TaskState, ipriority: int, bpriority: int, priority: int,
                     wait: Wait, mtxlist: seq<MutexId>)

  datatype Mtxcb = Mtxcb(registered: bool, attr: Attr, ceilpri: int, mtxtsk: Option<TaskId>,
                         queue: seq<TaskId>)

  type Tasks = seq<Tcb>
  type Mutexes = seq<Mtxcb>

  /** Parts of the state that one kernel routine has temporarily taken out of order:
      task x is owed the extra demand e, mutex d has already left its holder's list,
      task g has already left its wait queue, and nothing is claimed of the priority of task dead.
      -1 means nobody. */
  datatype Exempt = Exempt(x: int, e: int, d: int, g: int, dead: int)

  const NOBODY: Exempt := Exempt(-1, NUM_PRI, -1, -1, -1)

  // ---------------------------------------------------------------- demands

  /** The priority mutex m asks its holder to have. */
  function Term(T: Tasks, M: Mutexes, m: MutexId): int {
    if m >= |M| then NUM_PRI
    else if M[m].attr.CEILING? then M[m].ceilpri
    else if M[m].attr.INHERIT? && |M[m].queue| > 0 && M[m].queue[0] < |T|
    then T[M[m].queue[0]].priority
    else NUM_PRI
  }

  /** p is the minimum of t's base priority, the extra demand e, and the terms of all mutexes t holds. */
  ghost predicate Meets(T: Tasks, M: Mutexes, t: TaskId, p: int, e: int)
    requires t < |T|
  {
    && p <= T[t].bpriority
    && p <= e
    && (forall m :: m in T[t].mtxlist ==> p <= Term(T, M, m))
    && (p == T[t].bpriority || p == e || exists m :: m in T[t].mtxlist && p == Term(T, M, m))
  }

  ghost predicate AtDemand(T: Tasks, M: Mutexes, u: TaskId, ex: Exempt)
    requires u < |T|
  {
    u == ex.dead || Meets(T, M, u, T[u].priority, if u == ex.x then ex.e else NUM_PRI)
  }

  /** Every task has exactly the priority demanded of it. */
  ghost predicate Consistent(T: Tasks, M: Mutexes, ex: Exempt) {
    forall u :: 0 <= u < |T| ==> AtDemand(T, M, u, ex)
  }

  /** Consistent but for t, which is about to be given priority p. */
  ghost predicate Pending(T: Tasks, M: Mutexes, ex: Exempt, t: TaskId, p: int)
    requires t < |T|
  {
    && t != ex.dead
    && Meets(T, M, t, p, if t == ex.x then ex.e else NUM_PRI)
    && forall u :: 0 <= u < |T| && u != t ==> AtDemand(T, M, u, ex)
  }

  // ---------------------------------------------------------------- links

  ghost predicate Sorted(T: Tasks, q: seq<TaskId>) {
    && (forall i :: 0 <= i < |q| ==> q[i] < |T|)
    && forall i, j :: 0 <= i < j < |q| ==> T[q[i]].priority <= T[q[j]].priority
  }

  ghost predicate TaskOk(T: Tasks, M: Mutexes, ex: Exempt, t: TaskId)
    requires t < |T|
  {
    && 0 <= T[t].priority < NUM_PRI
    && 0 <= T[t].bpriority < NUM_PRI
    && 0 <= T[t].ipriority < NUM_PRI
    && Distinct(T[t].mtxlist)
    && (forall m :: m in T[t].mtxlist ==> m < |M| && M[m].mtxtsk == Some(t) && M[m].registered)
    && (T[t].wait.OnMutex? ==> T[t].wait.m < |M| && M[T[t].wait.m].registered)
    && (T[t].wait.OnMutex? && t != ex.g ==> t in M[T[t].wait.m].queue)
    && (!T[t].state.Alive? ==> T[t].wait.NoWait? && T[t].mtxlist == [])
  }

  ghost predicate MutexOk(T: Tasks, M: Mutexes, ex: Exempt, m: MutexId)
    requires m < |M|
  {
    && 0 <= M[m].ceilpri < NUM_PRI
    && Distinct(M[m].queue)
    && (forall t :: t in M[m].queue ==> t < |T| && t != ex.g && T[t].wait == OnMutex(m))
    && (|M[m].queue| > 0 ==> M[m].mtxtsk.Some?)
    && (M[m].mtxtsk.Some? ==> M[m].mtxtsk.value < |T| && M[m].mtxtsk.value !in M[m].queue)
    && (M[m].registered && M[m].mtxtsk.Some? && m != ex.d ==> m in T[M[m].mtxtsk.value].mtxlist)
    && (m == ex.d && M[m].mtxtsk.Some? ==> m !in T[M[m].mtxtsk.value].mtxlist)
    && (!M[m].registered ==> M[m].queue == [])
    && (!M[m].attr.TFIFO? ==> Sorted(T, M[m].queue))
  }

  /** Neither the holder of a ceiling mutex nor a task waiting for it has a base priority above the ceiling. */
  ghost predicate CeilingOk(T: Tasks, M: Mutexes, m: MutexId)
    requires m < |M|
  {
    M[m].attr.CEILING? && M[m].registered ==>
      && (M[m].mtxtsk.Some? && M[m].mtxtsk.value < |T| ==> T[M[m].mtxtsk.value].bpriority >= M[m].ceilpri)
      && (forall t :: t in M[m].queue && t < |T| ==> T[t].bpriority >= M[m].ceilpri)
  }

  ghost predicate Linked(T: Tasks, M: Mutexes, ex: Exempt) {
    && (forall t :: 0 <= t < |T| ==> TaskOk(T, M, ex, t))
    && (forall m :: 0 <= m < |M| ==> MutexOk(T, M, ex, m))
    && (forall m :: 0 <= m < |M| ==> CeilingOk(T, M, m))
  }

  // ---------------------------------------------------------------- the waits-for relation

  /** The task that u is blocked on through an inheritance mutex, if there is one. */
  function NextOwner(T: Tasks, M: Mutexes, u: TaskId): Option<TaskId> {
    if u < |T| && T[u].wait.OnMutex? && T[u].wait.m < |M| && M[T[u].wait.m].attr.INHERIT?
    then M[T[u].wait.m].mtxtsk
    else None
  }

  /** The task reached from u by n steps of the waits-for relation. */
  function Follow(T: Tasks, M: Mutexes, u: TaskId, n: nat): Option<TaskId>
    decreases n
  {
    if n == 0 then Some(u)
    else match NextOwner(T, M, u)
      case None => None
      case Some(o) => Follow(T, M, o, n - 1)
  }

  /** u is blocked on t, directly or through other tasks, or is t. */
  ghost predicate BlockedOn(T: Tasks, M: Mutexes, u: TaskId, t: TaskId) {
    exists n: nat :: Follow(T, M, u, n) == Some(t)
  }

  ghost predicate OnCycle(T: Tasks, M: Mutexes, u: TaskId) {
    exists n: nat :: n > 0 && Follow(T, M, u, n) == Some(u)
  }

  /** v would pass a priority change on through mutex d. */
  ghost predicate WaitsThrough(T: Tasks, M: Mutexes, v: TaskId, d: int) {
    v < |T| && 0 <= d < |M| && T[v].wait == OnMutex(d) && M[d].attr.INHERIT?
  }

  /** No chain of owners from t meets a task whose links are exempt. */
  ghost predicate Avoids(T: Tasks, M: Mutexes, ex: Exempt, t: TaskId) {
    forall n: nat, v: TaskId {:trigger Follow(T, M, t, n) == Some(v)} ::
      Follow(T, M, t, n) == Some(v) && v < |T| ==> v != ex.g && v != ex.dead && !WaitsThrough(T, M, v, ex.d)
  }

  /** The waits-for relation of (T, M) is that of (T', M'). */
  ghost predicate SameWaits(T: Tasks, T': Tasks, M: Mutexes, M': Mutexes) {
    && |T| == |T'| && |M| == |M'|
    && (forall u :: 0 <= u < |T| ==> T'[u].wait == T[u].wait)
    && (forall m :: 0 <= m < |M| ==> M'[m].attr == M[m].attr && M'[m].mtxtsk == M[m].mtxtsk)
  }

  /** Only priorities and the order inside priority-ordered wait queues differ. */
  ghost predicate SameLinks(T: Tasks, T': Tasks, M: Mutexes, M': Mutexes) {
    && |T| == |T'| && |M| == |M'|
    && (forall u :: 0 <= u < |T| ==> T'[u] == T[u].(priority := T'[u].priority))
    && (forall m :: 0 <= m < |M| ==> M'[m] == M[m].(queue := M'[m].queue))
    && (forall m :: 0 <= m < |M| ==> multiset(M'[m].queue) == multiset(M[m].queue))
    && (forall m :: 0 <= m < |M| && M[m].attr.TFIFO? ==> M'[m].queue == M[m].queue)
  }

  lemma {:induction false} FollowSame(T: Tasks, T': Tasks, M: Mutexes, M': Mutexes, u: TaskId, n: nat)
    requires SameWaits(T, T', M, M')
    ensures Follow(T, M, u, n) == Follow(T', M', u, n)
    decreases n
  {
    if n > 0 && u < |T| {
      assert NextOwner(T, M, u) == NextOwner(T', M', u);
      if NextOwner(T, M, u).Some? {
        FollowSame(T, T', M, M', NextOwner(T, M, u).value, n - 1);
      }
    }
  }

  lemma AvoidsSame(T: Tasks, T': Tasks, M: Mutexes, M': Mutexes, ex: Exempt, t: TaskId)
    requires SameWaits(T, T', M, M') && Avoids(T, M, ex, t)
    ensures Avoids(T', M', ex, t)
  {
    forall n: nat, v: TaskId | Follow(T', M', t, n) == Some(v) && v < |T'|
      ensures v != ex.g && v != ex.dead && !WaitsThrough(T', M', v, ex.d)
    {
      FollowSame(T, T', M, M', t, n);
    }
  }

  /** A task that is not in a wait state passes no priority change on. */
  lemma AvoidsIdle(T: Tasks, M: Mutexes, ex: Exempt, t: TaskId)
    requires t < |T| && !T[t].wait.OnMutex? && t != ex.g && t != ex.dead
    ensures Avoids(T, M, ex, t)
  {
    forall n: nat, v: TaskId | Follow(T, M, t, n) == Some(v) && v < |T|
      ensures v != ex.g && v != ex.dead && !WaitsThrough(T, M, v, ex.d)
    {
      assert NextOwner(T, M, t).None?;
    }
  }

  lemma AvoidsNext(T: Tasks, M: Mutexes, ex: Exempt, t: TaskId, o: TaskId)
    requires Avoids(T, M, ex, t) && NextOwner(T, M, t) == Some(o)
    ensures Avoids(T, M, ex, o)
  {
    forall n: nat, v: TaskId | Follow(T, M, o, n) == Some(v) && v < |T|
      ensures v != ex.g && v != ex.dead && !WaitsThrough(T, M, v, ex.d)
    {
      assert Follow(T, M, t, n + 1) == Some(v);
    }
  }

  // ---------------------------------------------------------------- a measure for propagation

  function Total(T: Tasks): int {
    if T == [] then 0 else T[0].priority + Total(T[1..])
  }

  lemma {:induction false} TotalUpdate(T: Tasks, t: TaskId, p: int)
    requires t < |T|
    ensures Total(T[t := T[t].(priority := p)]) == Total(T) + p - T[t].priority
  {
    var T' := T[t := T[t].(priority := p)];
    if t == 0 {
      assert T'[1..] == T[1..];
    } else {
      assert T'[1..] == T[1..][t - 1 := T[1..][t - 1].(priority := p)];
      TotalUpdate(T[1..], t - 1, p);
    }
  }

  lemma {:induction false} TotalSame(T: Tasks, T': Tasks)
    requires |T| == |T'| && forall u :: 0 <= u < |T| ==> T'[u].priority == T[u].priority
    ensures Total(T') == Total(T)
  {
    if T != [] {
      TotalSame(T[1..], T'[1..]);
    }
  }

  lemma {:induction false} TotalBounds(T: Tasks)
    requires forall u :: 0 <= u < |T| ==> 0 <= T[u].priority < NUM_PRI
    ensures 0 <= Total(T) <= NUM_PRI * |T|
  {
    if T != [] {
      TotalBounds(T[1..]);
    }
  }

  // ---------------------------------------------------------------- priority-ordered queues

  /** k is where queue_insert_tpri puts a task of priority p: behind all of the same or higher priority. */
  ghost predicate TpriPlace(T: Tasks, q: seq<TaskId>, p: int, k: nat) {
    && k <= |q|
    && (forall i :: 0 <= i < |q| ==> q[i] < |T|)
    && (forall i :: 0 <= i < k ==> T[q[i]].priority <= p)
    && (k < |q| ==> T[q[k]].priority > p)
  }

  lemma WithoutSorted(T: Tasks, q: seq<TaskId>, t: TaskId)
    requires Sorted(T, q)
    ensures Sorted(T, Without(q, t))
  {
    var k := IndexOf(q, t);
    var r := Without(q, t);
    forall i | 0 <= i < |r| ensures r[i] == q[if i < k then i else i + 1] {
    }
    hide Without;
    forall i, j | 0 <= i < j < |r| ensures r[i] < |T| && T[r[i]].priority <= T[r[j]].priority {
      assert r[i] == q[if i < k then i else i + 1] && r[j] == q[if j < k then j else j + 1];
    }
  }

  lemma InsertSorted(T: Tasks, q: seq<TaskId>, k: nat, t: TaskId)
    requires t < |T| && Sorted(T, q) && TpriPlace(T, q, T[t].priority, k)
    ensures Sorted(T, InsertAt(q, k, t))
  {
    var r := InsertAt(q, k, t);
    forall i | 0 <= i < |r| ensures r[i] < |T| {
      if i != k { assert r[i] == q[if i < k then i else i - 1]; }
    }
    forall i, j | 0 <= i < j < |r| ensures T[r[i]].priority <= T[r[j]].priority {
      if i != k { assert r[i] == q[if i < k then i else i - 1]; }
      if j != k { assert r[j] == q[if j < k then j else j - 1]; }
    }
  }
}
