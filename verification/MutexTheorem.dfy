/**
 From the local rule (every task is at the demand of its own mutexes) to the global promise of
 priority inheritance: a task runs at the most urgent priority among itself and everybody blocked on it.
 */
module MutexTheorem {
  import opened Common
  import opened MutexState

  /** p is something u itself asks for: its base priority or the ceiling of a mutex it holds. */
  ghost predicate OwnDemand(T: Tasks, M: Mutexes, u: TaskId, p: int) {
    && u < |T|
    && (p == T[u].bpriority || exists m :: m in T[u].mtxlist && m < |M| && M[m].attr.CEILING? && p == M[m].ceilpri)
  }

  /** p is the minimum of the own demands of all tasks that are blocked on t, t included. */
  ghost predicate GlobalMinimum(T: Tasks, M: Mutexes, t: TaskId, p: int) {
    && (forall u, q :: BlockedOn(T, M, u, t) && OwnDemand(T, M, u, q) ==> p <= q)
    && (exists u :: BlockedOn(T, M, u, t) && OwnDemand(T, M, u, p))
  }

  /** No task is less urgent than a task blocked on it. */
  lemma {:induction false} ChainUrgency(T: Tasks, M: Mutexes, u: TaskId, t: TaskId, n: nat)
    requires Linked(T, M, NOBODY) && Consistent(T, M, NOBODY) && u < |T|
    requires Follow(T, M, u, n) == Some(t)
    ensures t < |T| && T[t].priority <= T[u].priority
    decreases n
  {
    if n > 0 {
      var o := NextOwner(T, M, u).value;
      var m := T[u].wait.m;
      assert TaskOk(T, M, NOBODY, u) && MutexOk(T, M, NOBODY, m);
      var i :| 0 <= i < |M[m].queue| && M[m].queue[i] == u;
      assert T[M[m].queue[0]].priority <= T[u].priority;
      assert AtDemand(T, M, o, NOBODY) && m in T[o].mtxlist;
      assert T[o].priority <= Term(T, M, m);
      ChainUrgency(T, M, o, t, n - 1);
    }
  }

  lemma OwnDemandBound(T: Tasks, M: Mutexes, u: TaskId, t: TaskId, q: int)
    requires Linked(T, M, NOBODY) && Consistent(T, M, NOBODY)
    requires BlockedOn(T, M, u, t) && OwnDemand(T, M, u, q)
    ensures t < |T| && T[t].priority <= q
  {
    var n: nat :| Follow(T, M, u, n) == Some(t);
    ChainUrgency(T, M, u, t, n);
    assert AtDemand(T, M, u, NOBODY);
    if q != T[u].bpriority {
      var m :| m in T[u].mtxlist && m < |M| && M[m].attr.CEILING? && q == M[m].ceilpri;
      assert T[u].priority <= Term(T, M, m);
    }
  }

  /** Where a task's priority comes from: itself, or the first waiter of a mutex it holds. */
  lemma OneStepUp(T: Tasks, M: Mutexes, t: TaskId) returns (w: Option<TaskId>)
    requires Linked(T, M, NOBODY) && Consistent(T, M, NOBODY) && t < |T|
    ensures w.None? ==> OwnDemand(T, M, t, T[t].priority)
    ensures w.Some? ==> w.value < |T| && NextOwner(T, M, w.value) == Some(t) && T[w.value].priority == T[t].priority
  {
    assert AtDemand(T, M, t, NOBODY) && TaskOk(T, M, NOBODY, t);
    if T[t].priority == T[t].bpriority {
      return None;
    }
    var m :| m in T[t].mtxlist && T[t].priority == Term(T, M, m);
    assert MutexOk(T, M, NOBODY, m);
    if M[m].attr.CEILING? {
      return None;
    }
    assert M[m].queue[0] in M[m].queue;
    return Some(M[m].queue[0]);
  }

  lemma {:induction false} RangeCard(s: set<nat>, n: nat)
    requires forall x :: x in s ==> x < n
    ensures |s| <= n
    decreases n
  {
    if n > 0 {
      RangeCard(s - {n - 1}, n - 1);
    } else {
      assert s == {};
    }
  }

  lemma {:induction false} FollowJoin(T: Tasks, M: Mutexes, u: TaskId, i: nat, v: TaskId, j: nat)
    requires Follow(T, M, u, i) == Some(v)
    ensures Follow(T, M, u, i + j) == Follow(T, M, v, j)
    decreases i
  {
    if i > 0 {
      FollowJoin(T, M, NextOwner(T, M, u).value, i - 1, v, j);
    }
  }

  ghost predicate NoCycleBlocks(T: Tasks, M: Mutexes, t: TaskId) {
    forall u :: BlockedOn(T, M, u, t) ==> !OnCycle(T, M, u)
  }

  /** u is blocked on v, which is further down the chain. */
  ghost predicate Behind(T: Tasks, M: Mutexes, u: TaskId, v: TaskId) {
    exists j: nat :: j > 0 && Follow(T, M, u, j) == Some(v)
  }

  /** Walk up from cur, which runs at t's priority, to a task that asks for that priority itself.
      The tasks already passed are those in seen; without cycles none is met twice. */
  lemma {:induction false} WalkUp(T: Tasks, M: Mutexes, t: TaskId, cur: TaskId, n: nat, seen: set<TaskId>)
    returns (u: TaskId)
    requires Linked(T, M, NOBODY) && Consistent(T, M, NOBODY) && t < |T| && cur < |T|
    requires NoCycleBlocks(T, M, t)
    requires Follow(T, M, cur, n) == Some(t) && T[cur].priority == T[t].priority
    requires forall v :: v in seen ==> v < |T| && Behind(T, M, cur, v)
    ensures BlockedOn(T, M, u, t) && OwnDemand(T, M, u, T[t].priority)
    decreases |T| - |seen|
  {
    RangeCard(seen, |T|);
    assert BlockedOn(T, M, cur, t);
    var w := OneStepUp(T, M, cur);
    if w.None? {
      return cur;
    }
    assert cur !in seen;
    var seen' := seen + {cur};
    RangeCard(seen', |T|);
    assert Follow(T, M, w.value, 1) == Follow(T, M, cur, 0);
    forall v | v in seen' ensures v < |T| && Behind(T, M, w.value, v) {
      if v == cur {
        assert Follow(T, M, w.value, 1) == Some(cur);
      } else {
        var j: nat :| j > 0 && Follow(T, M, cur, j) == Some(v);
        assert Follow(T, M, w.value, j + 1) == Some(v);
      }
    }
    assert Follow(T, M, w.value, n + 1) == Some(t);
    u := WalkUp(T, M, t, w.value, n + 1, seen');
  }

  /** Priority inheritance works: a task runs at exactly the most urgent base priority or ceiling
      among all tasks blocked on it, however long the chains, provided none of them is deadlocked. */
  lemma InheritedPriorityIsGlobalMinimum(T: Tasks, M: Mutexes, t: TaskId)
    requires Linked(T, M, NOBODY) && Consistent(T, M, NOBODY) && t < |T|
    requires NoCycleBlocks(T, M, t)
    ensures GlobalMinimum(T, M, t, T[t].priority)
  {
    forall u, q | BlockedOn(T, M, u, t) && OwnDemand(T, M, u, q) ensures T[t].priority <= q {
      OwnDemandBound(T, M, u, t, q);
    }
    assert Follow(T, M, t, 0) == Some(t);
    var u := WalkUp(T, M, t, t, 0, {});
  }
}
