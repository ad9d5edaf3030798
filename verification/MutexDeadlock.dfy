/** A deadlock that system calls lead to, and what it does to the priorities of the tasks in it. */
module MutexDeadlock {
  import opened Common
  import opened MutexState
  import opened MutexPropagation
  import opened MutexTransfers
  import opened MutexSteps
  import opened MutexKernel
  import opened MutexTheorem

  /** A task of priority 9 that holds the mutexes in list. */
  function Nine(list: seq<MutexId>, w: Wait): Tcb {
    Tcb(Alive, 9, 9, 9, w, list)
  }

  function Inherited(holder: Option<TaskId>, queue: seq<TaskId>): Mtxcb {
    Mtxcb(true, INHERIT, 0, holder, queue)
  }

  /** Two tasks that each hold one mutex and wait for the other's, with base priority b of task 0 and
      common priority p. */
  ghost predicate Deadlocked(T: Tasks, M: Mutexes, b: int, p: int) {
    && T == [Tcb(Alive, 9, b, p, OnMutex(1), [0]), Tcb(Alive, 9, 9, p, OnMutex(0), [1])]
    && M == [Inherited(Some(0), [1]), Inherited(Some(1), [0])]
  }

  /** Tasks of equal urgency block without a raise, and the queue was empty. */
  lemma BlockedAlone(T: Tasks, T': Tasks, M: Mutexes, M': Mutexes, t: TaskId, m: MutexId)
    requires Blocked(T, T', M, M', t, m) && |T| == 2 && |M| == 2 && M[m].queue == []
    requires forall u :: 0 <= u < |T| ==> T[u].priority == 9
    requires forall n :: 0 <= n < |M| ==> n != m ==> |M[n].queue| <= 1
    ensures T' == T[t := T[t].(wait := OnMutex(m))]
    ensures M'[m] == M[m].(queue := [t])
    ensures forall n :: 0 <= n < |M| && n != m && M[n].queue == [] ==> M'[n] == M[n]
    ensures forall n :: 0 <= n < |M| && n != m && |M[n].queue| == 1 ==> M'[n] == M[n]
  {
    assert T'[0] == T'[0] && T'[1] == T'[1];
    var k: nat :| k <= |M[m].queue| && M'[m].queue == InsertAt(M[m].queue, k, t);
    assert M'[m].queue == [t];
    forall n | 0 <= n < |M| && n != m ensures M'[n] == M[n] {
      assert multiset(M'[n].queue) == multiset(M[n].queue);
      SameMembers(M'[n].queue, M[n].queue);
      assert |multiset(M'[n].queue)| == |M'[n].queue| && |multiset(M[n].queue)| == |M[n].queue|;
      if |M[n].queue| == 1 {
        assert M[n].queue[0] in M'[n].queue && M'[n].queue[0] in M[n].queue;
      }
    }
  }

  method TwoTasks() returns (k: Kernel)
    ensures fresh(k) && k.Valid()
    ensures k.tcb == [Nine([], NoWait), Nine([], NoWait)] && k.mtx == [Inherited(None, []), Inherited(None, [])]
  {
    hide Linked, Consistent;
    k := new Kernel(2, 2);
    k.SetTaskState(0, Dormant, 9);
    k.SetTaskState(1, Dormant, 9);
    k.SetTaskState(0, Alive, 9);
    k.SetTaskState(1, Alive, 9);
    k.CreMtx(0, INHERIT, 0);
    k.CreMtx(1, INHERIT, 0);
  }

  /** Task t gets the free mutex m at once. */
  method TakesFree(k: Kernel, t: TaskId, m: MutexId)
    requires k.Valid() && m < |k.mtx| && t < |k.tcb| && k.mtx[m] == Inherited(None, []) && k.tcb[t] == Nine([], NoWait)
    modifies k
    ensures k.Valid()
    ensures k.tcb == old(k.tcb)[t := Nine([m], NoWait)] && k.mtx == old(k.mtx)[m := Inherited(Some(t), [])]
  {
    hide Linked, Consistent;
    var r := k.LocMtx(t, m, false, false);
    assert r == E_OK;
    assert [m] + old(k.tcb)[t].mtxlist == [m];
  }

  /** Both tasks hold a mutex and wait for the other's. */
  method MakeDeadlock() returns (k: Kernel)
    ensures fresh(k) && k.Valid() && Deadlocked(k.tcb, k.mtx, 9, 9)
  {
    hide Linked, Consistent;
    k := TwoTasks();
    TakesFree(k, 0, 0);
    TakesFree(k, 1, 1);
    WaitsFor(k, 0, 1);
    WaitsFor(k, 1, 0);
  }

  /** Task t waits for the mutex m that the other task holds. */
  method WaitsFor(k: Kernel, t: TaskId, m: MutexId)
    requires k.Valid() && |k.mtx| == 2 && |k.tcb| == 2 && t < 2 && m < 2
    requires k.mtx[m] == Inherited(Some(1 - t), []) && k.tcb[t].wait == NoWait
    requires forall u :: 0 <= u < 2 ==> k.tcb[u].state.Alive? && k.tcb[u].priority == 9
    requires |k.mtx[1 - m].queue| <= 1
    modifies k
    ensures k.Valid()
    ensures k.tcb == old(k.tcb)[t := old(k.tcb)[t].(wait := OnMutex(m))]
    ensures k.mtx == old(k.mtx)[m := Inherited(Some(1 - t), [t])]
  {
    hide Linked, Consistent, Blocked;
    ghost var T, M := k.tcb, k.mtx;
    var r := k.LocMtx(t, m, false, false);
    assert r == WAITING;
    BlockedAlone(T, k.tcb, M, k.mtx, t, m);
  }

  /** Queues of one task cannot be reordered. */
  lemma SingleQueues(M: Mutexes, M': Mutexes)
    requires |M| == |M'| && forall m :: 0 <= m < |M| ==> |M[m].queue| == 1
    requires forall m :: 0 <= m < |M| ==> M'[m] == M[m].(queue := M'[m].queue)
    requires forall m :: 0 <= m < |M| ==> multiset(M'[m].queue) == multiset(M[m].queue)
    ensures M' == M
  {
    forall m | 0 <= m < |M| ensures M'[m] == M[m] {
      assert multiset(M'[m].queue) == multiset(M[m].queue);
      SameMembers(M'[m].queue, M[m].queue);
      assert |multiset(M'[m].queue)| == |M'[m].queue| && |multiset(M[m].queue)| == |M[m].queue|;
      assert M[m].queue[0] in M'[m].queue && M'[m].queue[0] in M[m].queue;
    }
  }

  lemma PropagatedLinks(T: Tasks, T': Tasks, M: Mutexes, M': Mutexes, t: TaskId, p: int)
    requires Propagated(T, T', M, M', t, p)
    ensures SameLinks(T, T', M, M') && t < |T|
    ensures p < T[t].priority ==>
              && T'[t].priority == p
              && forall u :: 0 <= u < |T| ==> T'[u].priority == T[u].priority || T'[u].priority == p < T[u].priority
    ensures p == T[t].priority ==> T' == T
    ensures p >= T[t].priority ==> T'[t].priority >= p
  {
  }

  /** On the cycle every priority is that of the other task's demand, so what was raised once stays. */
  lemma RaisedTogether(T: Tasks, T': Tasks, M: Mutexes, M': Mutexes, b: int, q: int, p: int, r: int)
    requires Deadlocked(T, M, b, p) && 0 <= r < NUM_PRI && q < NUM_PRI
    requires Meets(SetBase(T, 0, r), M, 0, q, NUM_PRI) && Propagated(SetBase(T, 0, r), T', M, M', 0, q)
    requires Linked(T', M', NOBODY) && Consistent(T', M', NOBODY)
    ensures q == (if r < p then r else p) && (q <= p ==> Deadlocked(T', M', r, q))
  {
    hide Linked, Propagated;
    PropagatedLinks(SetBase(T, 0, r), T', M, M', 0, q);
    SingleQueues(M, M');
    assert Term(SetBase(T, 0, r), M, 0) == p;
    assert 0 in T[0].mtxlist && 1 in T'[1].mtxlist;
    assert AtDemand(T', M', 1, NOBODY) && AtDemand(T', M', 0, NOBODY);
    assert Term(T', M', 1) == T'[0].priority;
  }

  /** The system calls of this program lead to a state in which no task that task 0 could inherit from
      asks for its priority. */
  method UrgencyStays() returns (k: Kernel)
    ensures fresh(k) && k.Valid() && OnCycle(k.tcb, k.mtx, 0)
    ensures |k.tcb| == 2 && k.tcb[0].priority == 5 && k.tcb[0].bpriority == 9 && k.tcb[1].bpriority == 9
    ensures !GlobalMinimum(k.tcb, k.mtx, 0, k.tcb[0].priority)
  {
    k := MakeDeadlock();
    ghost var T, M := k.tcb, k.mtx;
    var r := k.ChgPri(0, 5);
    ghost var q :| Meets(SetBase(T, 0, 5), M, 0, q, NUM_PRI) && Propagated(SetBase(T, 0, 5), k.tcb, M, k.mtx, 0, q);
    RaisedTogether(T, k.tcb, M, k.mtx, 9, q, 9, 5);
    T, M := k.tcb, k.mtx;
    r := k.ChgPri(0, 9);
    q :| Meets(SetBase(T, 0, 9), M, 0, q, NUM_PRI) && Propagated(SetBase(T, 0, 9), k.tcb, M, k.mtx, 0, q);
    RaisedTogether(T, k.tcb, M, k.mtx, 5, q, 5, 9);
    DeadlockKeepsUrgency(k.tcb, k.mtx);
  }

  /** In such a state the equations hold, but the priority is nobody's. */
  lemma DeadlockKeepsUrgency(T: Tasks, M: Mutexes)
    requires Deadlocked(T, M, 9, 5)
    ensures OnCycle(T, M, 0) && !GlobalMinimum(T, M, 0, T[0].priority)
  {
    assert Follow(T, M, 0, 2) == Some(0) by {
      assert Follow(T, M, 0, 1) == Some(1) && Follow(T, M, 1, 1) == Some(0);
      FollowJoin(T, M, 0, 1, 1, 1);
    }
    forall u ensures !OwnDemand(T, M, u, 5) {
    }
  }

  // ---------------------------------------------------------------- any deadlock

  /** What is followed in n + 1 steps is followed in n. */
  lemma {:induction false} FollowPrefix(T: Tasks, M: Mutexes, u: TaskId, n: nat)
    requires Follow(T, M, u, n + 1).Some?
    ensures Follow(T, M, u, n).Some? && Follow(T, M, u, n + 1) == NextOwner(T, M, Follow(T, M, u, n).value)
    decreases n
  {
    if n > 0 {
      FollowPrefix(T, M, NextOwner(T, M, u).value, n - 1);
    }
  }

  /** A task on a cycle at the most urgent priority holds a mutex that asks for it. */
  lemma CycleAsks(T: Tasks, M: Mutexes, u: TaskId) returns (m: MutexId)
    requires Linked(T, M, NOBODY) && Consistent(T, M, NOBODY)
    requires u < |T| && OnCycle(T, M, u) && T[u].priority == 0
    ensures m in T[u].mtxlist && Term(T, M, m) == 0
  {
    hide Consistent, CeilingOk;
    var n: nat :| n > 0 && Follow(T, M, u, n) == Some(u);
    FollowPrefix(T, M, u, n - 1);
    var v := Follow(T, M, u, n - 1).value;
    ChainUrgency(T, M, u, v, n - 1);
    m := T[v].wait.m;
    assert TaskOk(T, M, NOBODY, v) && MutexOk(T, M, NOBODY, m);
    var i :| 0 <= i < |M[m].queue| && M[m].queue[i] == v;
    assert M[m].queue[0] in M[m].queue && T[M[m].queue[0]].priority <= T[v].priority;
    assert TaskOk(T, M, NOBODY, M[m].queue[0]);
  }

  /** Base priorities, ceilings and who is blocked on whom are the same. */
  ghost predicate SameDemands(T: Tasks, T': Tasks, M: Mutexes, M': Mutexes) {
    && SameWaits(T, T', M, M')
    && (forall u :: 0 <= u < |T| ==> T'[u].bpriority == T[u].bpriority && T'[u].mtxlist == T[u].mtxlist)
    && (forall m :: 0 <= m < |M| ==> M'[m].ceilpri == M[m].ceilpri)
  }

  /** Nobody behind t asks for the most urgent priority itself. */
  ghost predicate NobodyAsks(T: Tasks, M: Mutexes, t: TaskId) {
    forall v, q :: BlockedOn(T, M, v, t) && OwnDemand(T, M, v, q) ==> q > 0
  }

  lemma StillNobody(T: Tasks, T': Tasks, M: Mutexes, M': Mutexes, t: TaskId)
    requires SameDemands(T, T', M, M') && NobodyAsks(T, M, t)
    requires t < |T'| && T'[t].priority == 0
    ensures !GlobalMinimum(T', M', t, T'[t].priority)
  {
    forall v | BlockedOn(T', M', v, t) ensures !OwnDemand(T', M', v, 0) {
      var n: nat :| Follow(T', M', v, n) == Some(t);
      FollowSame(T, T', M, M', v, n);
      assert BlockedOn(T, M, v, t);
      if OwnDemand(T', M', v, 0) {
        assert OwnDemand(T, M, v, 0);
      }
    }
  }

  /** A task on a cycle waits for an inheritance mutex. */
  lemma CycleWaits(T: Tasks, M: Mutexes, u: TaskId)
    requires u < |T| && OnCycle(T, M, u)
    ensures T[u].wait.OnMutex? && T[u].wait.m < |M| && M[T[u].wait.m].attr.INHERIT?
  {
    var n: nat :| n > 0 && Follow(T, M, u, n) == Some(u);
    assert NextOwner(T, M, u).Some?;
  }

  ghost predicate HoldsNoCeiling(T: Tasks, M: Mutexes, u: TaskId)
    requires u < |T|
  {
    forall m :: m in T[u].mtxlist && m < |M| ==> !M[m].attr.CEILING?
  }

  /** Raising a task to the most urgent priority raises everybody it is blocked on. */
  lemma RaisedToZero(T: Tasks, T': Tasks, M: Mutexes, M': Mutexes, u: TaskId, t: TaskId, p: int)
    requires Linked(T, M, NOBODY) && u < |T| && BlockedOn(T, M, u, t)
    requires Meets(SetBase(T, u, 0), M, u, p, NUM_PRI) && Propagated(SetBase(T, u, 0), T', M, M', u, p)
    requires Linked(T', M', NOBODY) && Consistent(T', M', NOBODY)
    ensures |T'| == |T| && |M'| == |M| && t < |T'| && T'[u].priority == 0 && T'[t].priority == 0
    ensures SameDemands(SetBase(T, u, 0), T', M, M')
  {
    hide Consistent;
    assert TaskOk(T, M, NOBODY, u) && TaskOk(T', M', NOBODY, u) && AtDemand(T', M', u, NOBODY) by {
      assert Consistent(T', M', NOBODY);
      UnfoldConsistent(T', M', u);
    }
    assert T'[u].bpriority == 0;
    var n: nat :| Follow(T, M, u, n) == Some(t);
    FollowSame(T, T', M, M', u, n);
    ChainUrgency(T', M', u, t, n);
    assert TaskOk(T', M', NOBODY, t);
  }

  lemma UnfoldConsistent(T: Tasks, M: Mutexes, u: TaskId)
    requires Consistent(T, M, NOBODY) && u < |T|
    ensures AtDemand(T, M, u, NOBODY)
  {
  }

  /** The change back to b finds the demand of the cycle and changes no priority. */
  lemma KeptByCycle(T: Tasks, T': Tasks, M: Mutexes, M': Mutexes, u: TaskId, b: int, p: int)
    requires Linked(T, M, NOBODY) && Consistent(T, M, NOBODY)
    requires u < |T| && OnCycle(T, M, u) && T[u].priority == 0 && 0 <= b
    requires Meets(SetBase(T, u, b), M, u, p, NUM_PRI) && Propagated(SetBase(T, u, b), T', M, M', u, p)
    ensures T' == SetBase(T, u, b) && SameDemands(SetBase(T, u, b), T', M, M')
  {
    hide Linked, Consistent;
    var m := CycleAsks(T, M, u);
    assert forall n :: Term(SetBase(T, u, b), M, n) == Term(T, M, n);
    TermsPositive(T, M, u);
  }

  lemma TermsPositive(T: Tasks, M: Mutexes, u: TaskId)
    requires Linked(T, M, NOBODY) && u < |T|
    ensures forall m :: m in T[u].mtxlist ==> Term(T, M, m) >= 0
  {
    forall m | m in T[u].mtxlist ensures Term(T, M, m) >= 0 {
      assert TaskOk(T, M, NOBODY, u) && MutexOk(T, M, NOBODY, m);
      if |M[m].queue| > 0 {
        assert M[m].queue[0] in M[m].queue;
        assert TaskOk(T, M, NOBODY, M[m].queue[0]);
      }
    }
  }

  /**
   In every deadlock: let u be on a cycle without holding a ceiling mutex, and t a task it is blocked on,
   behind which nobody asks for priority 0. A change of u's base priority to 0 and back leaves t at
   priority 0, which nobody asks for.
   */
  method UpAndBack(k: Kernel, u: TaskId, t: TaskId)
    requires k.Valid() && u < |k.tcb| && OnCycle(k.tcb, k.mtx, u) && BlockedOn(k.tcb, k.mtx, u, t)
    requires HoldsNoCeiling(k.tcb, k.mtx, u) && NobodyAsks(k.tcb, k.mtx, t)
    modifies k
    ensures k.Valid() && SameDemands(old(k.tcb), k.tcb, old(k.mtx), k.mtx)
    ensures t < |k.tcb| && k.tcb[t].priority == 0 && !GlobalMinimum(k.tcb, k.mtx, t, k.tcb[t].priority)
  {
    hide Linked, Consistent, Propagated, Meets, SameDemands, OnCycle, NobodyAsks, BlockedOn;
    ghost var T, M := k.tcb, k.mtx;
    var b := k.tcb[u].bpriority;
    OnCycleAlive(T, M, u);
    var r := k.ChgPri(u, 0);
    ghost var p :| Meets(SetBase(T, u, 0), M, u, p, NUM_PRI) && Propagated(SetBase(T, u, 0), k.tcb, M, k.mtx, u, p);
    RaisedToZero(T, k.tcb, M, k.mtx, u, t, p);
    ghost var T1, M1 := k.tcb, k.mtx;
    StillOnCycle(T, T1, M, M1, u);
    OnCycleAlive(T1, M1, u);
    r := k.ChgPri(u, b);
    p :| Meets(SetBase(T1, u, b), M1, u, p, NUM_PRI) && Propagated(SetBase(T1, u, b), k.tcb, M1, k.mtx, u, p);
    KeptByCycle(T1, k.tcb, M1, k.mtx, u, b, p);
    SameAgain(T, T1, k.tcb, M, M1, k.mtx, u, b);
    StillNobody(T, k.tcb, M, k.mtx, t);
  }

  lemma OnCycleAlive(T: Tasks, M: Mutexes, u: TaskId)
    requires Linked(T, M, NOBODY) && u < |T| && OnCycle(T, M, u)
    ensures T[u].state.Alive? && 0 <= T[u].bpriority < NUM_PRI
    ensures HoldsNoCeiling(T, M, u) ==> forall b :: !CeilingForbids(T, M, u, b)
  {
    CycleWaits(T, M, u);
    assert TaskOk(T, M, NOBODY, u);
  }

  lemma StillOnCycle(T: Tasks, T': Tasks, M: Mutexes, M': Mutexes, u: TaskId)
    requires u < |T| && SameDemands(SetBase(T, u, 0), T', M, M') && OnCycle(T, M, u)
    ensures OnCycle(T', M', u) && (HoldsNoCeiling(T, M, u) ==> HoldsNoCeiling(T', M', u))
  {
    var n: nat :| n > 0 && Follow(T, M, u, n) == Some(u);
    FollowSame(T, T', M, M', u, n);
  }

  lemma SameAgain(T: Tasks, T1: Tasks, T2: Tasks, M: Mutexes, M1: Mutexes, M2: Mutexes, u: TaskId, b: int)
    requires u < |T| == |T1| && T[u].bpriority == b && SameDemands(SetBase(T, u, 0), T1, M, M1)
    requires SameDemands(SetBase(T1, u, b), T2, M1, M2)
    ensures SameDemands(T, T2, M, M2)
  {
  }
}
