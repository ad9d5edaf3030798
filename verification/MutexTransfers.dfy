/**
 How the mutex system calls relink tasks and mutexes: taking a mutex, leaving a wait queue, entering
 one, and getting a new base priority. Each lemma says which links and which demands survive.
 */
module MutexTransfers {
  import opened Common
  import opened MutexState
  import opened MutexPropagation

  // ---------------------------------------------------------------- taking a mutex

  function TakenTasks(T: Tasks, t: TaskId, m: MutexId): Tasks
    requires t < |T|
  {
    T[t := T[t].(mtxlist := [m] + T[t].mtxlist)]
  }

  function SetHolder(M: Mutexes, m: MutexId, h: Option<TaskId>): Mutexes
    requires m < |M|
  {
    M[m := M[m].(mtxtsk := h)]
  }

  /** Task t may become the holder of mutex m, which nobody holds any more. */
  ghost predicate CanTake(T: Tasks, M: Mutexes, ex: Exempt, t: TaskId, m: MutexId) {
    && t < |T| && m < |M| && Linked(T, M, ex)
    && T[t].state.Alive? && T[t].wait.NoWait? && t != ex.g
    && M[m].registered && (M[m].mtxtsk.None? || ex.d == m)
    && (ex.d >= 0 ==> ex.d == m)
    && (M[m].attr.CEILING? ==> T[t].bpriority >= M[m].ceilpri)
  }

  /** The order of a queue depends on the priorities only. */
  lemma SortedSame(T: Tasks, T': Tasks, q: seq<TaskId>)
    requires |T| == |T'| && forall u :: 0 <= u < |T| ==> T'[u].priority == T[u].priority
    ensures Sorted(T, q) == Sorted(T', q)
  {
  }

  lemma TakeTask(T: Tasks, M: Mutexes, ex: Exempt, t: TaskId, m: MutexId, u: TaskId)
    requires CanTake(T, M, ex, t, m) && u < |T|
    ensures TaskOk(TakenTasks(T, t, m), SetHolder(M, m, Some(t)), ex.(d := -1), u)
    ensures m !in T[u].mtxlist
  {
    hide CeilingOk, Sorted;
    assert TaskOk(T, M, ex, u) && MutexOk(T, M, ex, m);
  }

  lemma TakeMutex(T: Tasks, M: Mutexes, ex: Exempt, t: TaskId, m: MutexId, n: MutexId)
    requires CanTake(T, M, ex, t, m) && n < |M|
    ensures var T', M' := TakenTasks(T, t, m), SetHolder(M, m, Some(t));
            MutexOk(T', M', ex.(d := -1), n) && CeilingOk(T', M', n)
  {
    hide Sorted, Distinct;
    var T' := TakenTasks(T, t, m);
    assert MutexOk(T, M, ex, n) && CeilingOk(T, M, n) && TaskOk(T, M, ex, t);
    SortedSame(T, T', M[n].queue);
    if n == m {
      assert m in T'[t].mtxlist by { assert T'[t].mtxlist[0] == m; }
      assert t !in M[m].queue;
    } else if M[n].mtxtsk == Some(t) && M[n].registered {
      assert n in T[t].mtxlist;
      var i :| 0 <= i < |T[t].mtxlist| && T[t].mtxlist[i] == n;
      assert T'[t].mtxlist[i + 1] == n;
    }
  }

  lemma TakeLinks(T: Tasks, M: Mutexes, ex: Exempt, t: TaskId, m: MutexId)
    requires CanTake(T, M, ex, t, m)
    ensures Linked(TakenTasks(T, t, m), SetHolder(M, m, Some(t)), ex.(d := -1))
  {
    hide TaskOk, MutexOk, CeilingOk, Sorted;
    var T', M', ex' := TakenTasks(T, t, m), SetHolder(M, m, Some(t)), ex.(d := -1);
    forall u | 0 <= u < |T| ensures TaskOk(T', M', ex', u) {
      TakeTask(T, M, ex, t, m, u);
    }
    forall n | 0 <= n < |M| ensures MutexOk(T', M', ex', n) && CeilingOk(T', M', n) {
      TakeMutex(T, M, ex, t, m, n);
    }
  }

  /** The priority of a task that has just got mutex m. */
  function TakenPriority(T: Tasks, M: Mutexes, t: TaskId, m: MutexId): int
    requires t < |T| && m < |M|
  {
    if M[m].attr.CEILING? && T[t].priority > M[m].ceilpri then M[m].ceilpri else T[t].priority
  }

  lemma TakeDemands(T: Tasks, M: Mutexes, ex: Exempt, t: TaskId, m: MutexId)
    requires CanTake(T, M, ex, t, m) && t != ex.dead && ex.x < 0
    requires forall u :: 0 <= u < |T| ==> AtDemand(T, M, u, ex)
    requires M[m].attr.INHERIT? ==> T[t].priority <= Term(T, M, m)
    ensures Pending(TakenTasks(T, t, m), SetHolder(M, m, Some(t)), ex.(d := -1), t, TakenPriority(T, M, t, m))
  {
    var T' := TakenTasks(T, t, m);
    var M' := SetHolder(M, m, Some(t));
    forall n ensures Term(T', M', n) == Term(T, M, n) {
    }
    forall u | 0 <= u < |T| && u != t ensures AtDemand(T', M', u, ex.(d := -1)) {
      assert AtDemand(T, M, u, ex);
    }
    assert AtDemand(T, M, t, ex) && TaskOk(T, M, ex, t);
    var p := TakenPriority(T, M, t, m);
    assert m in T'[t].mtxlist by { assert T'[t].mtxlist[0] == m; }
    forall n | n in T'[t].mtxlist ensures p <= Term(T', M', n) {
      if n != m { assert n in T[t].mtxlist; }
    }
    if p == T[t].priority && p != T[t].bpriority && p != NUM_PRI {
      var n :| n in T[t].mtxlist && p == Term(T, M, n);
      var i :| 0 <= i < |T[t].mtxlist| && T[t].mtxlist[i] == n;
      assert T'[t].mtxlist[i + 1] == n;
    }
  }

  // ---------------------------------------------------------------- leaving a wait queue

  /** t's task table entry after its wait has been released, or the same entry if it keeps its wait state. */
  function LeftTasks(T: Tasks, t: TaskId, released: bool): Tasks
    requires t < |T|
  {
    if released then T[t := T[t].(wait := NoWait)] else T
  }

  function LeftExempt(ex: Exempt, t: TaskId, released: bool): Exempt {
    if released then ex else ex.(g := t)
  }

  ghost predicate CanLeave(T: Tasks, M: Mutexes, ex: Exempt, t: TaskId, released: bool) {
    && t < |T| && Linked(T, M, ex)
    && T[t].wait.OnMutex? && T[t].wait.m < |M| && t != ex.g
    && (!released ==> ex.g < 0)
  }

  lemma LeaveTask(T: Tasks, M: Mutexes, ex: Exempt, t: TaskId, released: bool, u: TaskId)
    requires CanLeave(T, M, ex, t, released) && u < |T|
    ensures var m := T[t].wait.m;
            TaskOk(LeftTasks(T, t, released), SetQueue(M, m, Without(M[m].queue, t)), LeftExempt(ex, t, released), u)
  {
    hide CeilingOk, Sorted, Without;
    assert TaskOk(T, M, ex, u) && TaskOk(T, M, ex, t) && MutexOk(T, M, ex, T[t].wait.m);
    WithoutFacts(M[T[t].wait.m].queue, t);
  }

  lemma LeaveMutex(T: Tasks, M: Mutexes, ex: Exempt, t: TaskId, released: bool, n: MutexId)
    requires CanLeave(T, M, ex, t, released) && n < |M|
    ensures var m := T[t].wait.m;
            var T', M' := LeftTasks(T, t, released), SetQueue(M, m, Without(M[m].queue, t));
            MutexOk(T', M', LeftExempt(ex, t, released), n) && CeilingOk(T', M', n)
  {
    hide Sorted, Distinct, Without;
    assert MutexOk(T, M, ex, n) && CeilingOk(T, M, n);
    SortedSame(T, LeftTasks(T, t, released), M[n].queue);
    if n == T[t].wait.m {
      assert TaskOk(T, M, ex, t);
      WithoutFacts(M[n].queue, t);
      if !M[n].attr.TFIFO? {
        WithoutSorted(T, M[n].queue, t);
        SortedSame(T, LeftTasks(T, t, released), Without(M[n].queue, t));
      }
    } else {
      assert t !in M[n].queue;
    }
  }

  lemma LeaveLinks(T: Tasks, M: Mutexes, ex: Exempt, t: TaskId, released: bool)
    requires CanLeave(T, M, ex, t, released)
    ensures var m := T[t].wait.m;
            Linked(LeftTasks(T, t, released), SetQueue(M, m, Without(M[m].queue, t)), LeftExempt(ex, t, released))
  {
    hide TaskOk, MutexOk, CeilingOk, Sorted, Without;
    var m := T[t].wait.m;
    var T', M', ex' := LeftTasks(T, t, released), SetQueue(M, m, Without(M[m].queue, t)), LeftExempt(ex, t, released);
    forall u | 0 <= u < |T| ensures TaskOk(T', M', ex', u) {
      LeaveTask(T, M, ex, t, released, u);
    }
    forall n | 0 <= n < |M| ensures MutexOk(T', M', ex', n) && CeilingOk(T', M', n) {
      LeaveMutex(T, M, ex, t, released, n);
    }
  }

  lemma LeaveTerm(T: Tasks, M: Mutexes, ex: Exempt, t: TaskId, released: bool, n: MutexId)
    requires CanLeave(T, M, ex, t, released)
    ensures var m := T[t].wait.m;
            var new_ := Term(LeftTasks(T, t, released), SetQueue(M, m, Without(M[m].queue, t)), n);
            && (n != m || !M[m].attr.INHERIT? ==> new_ == Term(T, M, n))
            && new_ >= Term(T, M, n)
            && (M[m].attr.INHERIT? ==> Term(T, M, m) <= T[t].priority)
            && (Term(T, M, n) < T[t].priority ==> new_ == Term(T, M, n))
  {
    var m := T[t].wait.m;
    var q := M[m].queue;
    assert TaskOk(T, M, ex, t) && MutexOk(T, M, ex, m);
    if M[m].attr.INHERIT? {
      var i := IndexOf(q, t);
      assert T[q[0]].priority <= T[q[i]].priority;
      var r := Without(q, t);
      assert i > 0 ==> r[0] == q[0];
      assert i == 0 && |r| > 0 ==> r[0] == q[1];
      if |r| > 0 {
        assert r[0] < |T| && T[r[0]].priority >= T[q[0]].priority;
      }
    }
  }

  /** Who is still at its demand after t has left the queue of mutex m: everybody, except that the
      holder of an inheritance mutex m may have inherited its priority from t. */
  lemma LeaveDemands(T: Tasks, M: Mutexes, ex: Exempt, t: TaskId, released: bool, u: TaskId)
    requires CanLeave(T, M, ex, t, released) && u < |T| && AtDemand(T, M, u, ex)
    ensures var m := T[t].wait.m;
            var T' := LeftTasks(T, t, released);
            var M' := SetQueue(M, m, Without(M[m].queue, t));
            && (m !in T[u].mtxlist || !M[m].attr.INHERIT? || T[u].priority != T[t].priority ==>
                  AtDemand(T', M', u, LeftExempt(ex, t, released)))
            && (u != ex.dead ==> T[u].priority <= T[u].bpriority
                                 && forall n :: n in T'[u].mtxlist ==> T[u].priority <= Term(T', M', n))
  {
    var m := T[t].wait.m;
    var T' := LeftTasks(T, t, released);
    var M' := SetQueue(M, m, Without(M[m].queue, t));
    forall n ensures n != m || !M[m].attr.INHERIT? ==> Term(T', M', n) == Term(T, M, n)
      ensures Term(T', M', n) >= Term(T, M, n)
      ensures Term(T, M, n) < T[t].priority ==> Term(T', M', n) == Term(T, M, n)
    {
      LeaveTerm(T, M, ex, t, released, n);
    }
    LeaveTerm(T, M, ex, t, released, m);
  }

  // ---------------------------------------------------------------- entering a wait queue

  function QueuedTasks(T: Tasks, t: TaskId, m: MutexId): Tasks
    requires t < |T|
  {
    T[t := T[t].(wait := OnMutex(m))]
  }

  ghost predicate CanQueue(T: Tasks, M: Mutexes, t: TaskId, m: MutexId, k: nat) {
    && t < |T| && m < |M| && Linked(T, M, NOBODY)
    && T[t].state.Alive? && T[t].wait.NoWait?
    && M[m].registered && M[m].mtxtsk.Some? && M[m].mtxtsk.value != t
    && (M[m].attr.CEILING? ==> T[t].bpriority >= M[m].ceilpri)
    && k <= |M[m].queue|
    && (!M[m].attr.TFIFO? ==> TpriPlace(T, M[m].queue, T[t].priority, k))
  }

  lemma QueueTask(T: Tasks, M: Mutexes, t: TaskId, m: MutexId, k: nat, u: TaskId)
    requires CanQueue(T, M, t, m, k) && u < |T|
    ensures TaskOk(QueuedTasks(T, t, m), SetQueue(M, m, InsertAt(M[m].queue, k, t)), NOBODY, u)
  {
    hide MutexOk, CeilingOk, Sorted, TpriPlace, Distinct, InsertAt;
    assert TaskOk(T, M, NOBODY, u);
    InsertFacts(M[m].queue, k, t);
  }

  lemma QueueMutex(T: Tasks, M: Mutexes, t: TaskId, m: MutexId, k: nat, n: MutexId)
    requires CanQueue(T, M, t, m, k) && n < |M|
    ensures var T', M' := QueuedTasks(T, t, m), SetQueue(M, m, InsertAt(M[m].queue, k, t));
            MutexOk(T', M', NOBODY, n) && CeilingOk(T', M', n)
  {
    hide Sorted, TpriPlace, Distinct, InsertAt;
    assert MutexOk(T, M, NOBODY, n) && CeilingOk(T, M, n);
    assert t !in M[n].queue;
    SortedSame(T, QueuedTasks(T, t, m), M[n].queue);
    if n == m {
      InsertFacts(M[m].queue, k, t);
      if !M[m].attr.TFIFO? {
        InsertSorted(T, M[m].queue, k, t);
        SortedSame(T, QueuedTasks(T, t, m), InsertAt(M[m].queue, k, t));
      }
    }
  }

  lemma QueueLinks(T: Tasks, M: Mutexes, t: TaskId, m: MutexId, k: nat)
    requires CanQueue(T, M, t, m, k)
    ensures Linked(QueuedTasks(T, t, m), SetQueue(M, m, InsertAt(M[m].queue, k, t)), NOBODY)
  {
    hide TaskOk, MutexOk, CeilingOk, Sorted, TpriPlace, InsertAt;
    var T' := QueuedTasks(T, t, m);
    var M' := SetQueue(M, m, InsertAt(M[m].queue, k, t));
    forall u | 0 <= u < |T| ensures TaskOk(T', M', NOBODY, u) {
      QueueTask(T, M, t, m, k, u);
    }
    forall n | 0 <= n < |M| ensures MutexOk(T', M', NOBODY, n) && CeilingOk(T', M', n) {
      QueueMutex(T, M, t, m, k, n);
    }
  }

  lemma QueueTerm(T: Tasks, M: Mutexes, t: TaskId, m: MutexId, k: nat, n: MutexId)
    requires CanQueue(T, M, t, m, k)
    ensures var new_ := Term(QueuedTasks(T, t, m), SetQueue(M, m, InsertAt(M[m].queue, k, t)), n);
            new_ == if n == m && M[m].attr.INHERIT? && T[t].priority < Term(T, M, m)
                    then T[t].priority else Term(T, M, n)
  {
    var q := M[m].queue;
    assert MutexOk(T, M, NOBODY, m) && TaskOk(T, M, NOBODY, t);
    var r := InsertAt(q, k, t);
    assert r[0] == if k == 0 then t else q[0];
  }

  /** Once the holder has been raised to t's priority, t can enter an inheritance mutex's queue;
      any other queue can be entered with nobody's priority changing. */
  lemma QueueDemands(T: Tasks, M: Mutexes, t: TaskId, m: MutexId, k: nat)
    requires CanQueue(T, M, t, m, k)
    requires Consistent(T, M, if M[m].attr.INHERIT? then Exempt(M[m].mtxtsk.value, T[t].priority, -1, -1, -1)
               else NOBODY)
    ensures Consistent(QueuedTasks(T, t, m), SetQueue(M, m, InsertAt(M[m].queue, k, t)), NOBODY)
  {
    var T' := QueuedTasks(T, t, m);
    var M' := SetQueue(M, m, InsertAt(M[m].queue, k, t));
    var ex := if M[m].attr.INHERIT? then Exempt(M[m].mtxtsk.value, T[t].priority, -1, -1, -1) else NOBODY;
    assert MutexOk(T, M, NOBODY, m) && TaskOk(T, M, NOBODY, t);
    forall u | 0 <= u < |T| ensures AtDemand(T', M', u, NOBODY) {
      assert AtDemand(T, M, u, ex) && TaskOk(T, M, NOBODY, u);
      forall n ensures Term(T', M', n) == if n == m && M[m].attr.INHERIT? && T[t].priority < Term(T, M, m)
                                          then T[t].priority else Term(T, M, n)
      {
        QueueTerm(T, M, t, m, k, n);
      }
      if u == M[m].mtxtsk.value && M[m].attr.INHERIT? {
        assert m in T[u].mtxlist;
        assert T[u].priority <= T[t].priority;
      } else {
        assert M[m].attr.INHERIT? ==> m !in T[u].mtxlist;
      }
    }
  }

  // ---------------------------------------------------------------- a new base priority

  function SetBase(T: Tasks, t: TaskId, b: int): Tasks
    requires t < |T|
  {
    T[t := T[t].(bpriority := b)]
  }

  /** Some ceiling mutex that t holds or waits for forbids base priority b. */
  ghost predicate CeilingForbids(T: Tasks, M: Mutexes, t: TaskId, b: int)
    requires t < |T|
  {
    || (exists m :: m in T[t].mtxlist && m < |M| && M[m].attr.CEILING? && b < M[m].ceilpri)
    || (T[t].wait.OnMutex? && T[t].wait.m < |M| && M[T[t].wait.m].attr.CEILING? && b < M[T[t].wait.m].ceilpri)
  }

  lemma BaseLinks(T: Tasks, M: Mutexes, t: TaskId, b: int)
    requires t < |T| && 0 <= b < NUM_PRI && Linked(T, M, NOBODY) && !CeilingForbids(T, M, t, b)
    ensures Linked(SetBase(T, t, b), M, NOBODY)
  {
    var T' := SetBase(T, t, b);
    forall u | 0 <= u < |T| ensures TaskOk(T', M, NOBODY, u) {
      assert TaskOk(T, M, NOBODY, u);
    }
    forall n | 0 <= n < |M| ensures MutexOk(T', M, NOBODY, n) && CeilingOk(T', M, n) {
      assert MutexOk(T, M, NOBODY, n) && CeilingOk(T, M, n);
    }
  }

  lemma BaseDemands(T: Tasks, M: Mutexes, t: TaskId, b: int, p: int)
    requires t < |T| && Consistent(T, M, NOBODY) && Meets(SetBase(T, t, b), M, t, p, NUM_PRI)
    ensures Pending(SetBase(T, t, b), M, NOBODY, t, p)
  {
    var T' := SetBase(T, t, b);
    forall n ensures Term(T', M, n) == Term(T, M, n) {
    }
    forall u | 0 <= u < |T| && u != t ensures AtDemand(T', M, u, NOBODY) {
      assert AtDemand(T, M, u, NOBODY);
    }
  }

  // ---------------------------------------------------------------- the ends of a mutex and of a task

  lemma FreeLinks(T: Tasks, M: Mutexes, ex: Exempt, m: MutexId)
    requires m < |M| && ex.d == m && M[m].queue == [] && Linked(T, M, ex)
    ensures Linked(T, SetHolder(M, m, None), ex.(d := -1))
  {
    var M' := SetHolder(M, m, None);
    var ex' := ex.(d := -1);
    forall u | 0 <= u < |T| ensures TaskOk(T, M', ex', u) {
      assert TaskOk(T, M, ex, u) && MutexOk(T, M, ex, m);
    }
    forall n | 0 <= n < |M| ensures MutexOk(T, M', ex', n) && CeilingOk(T, M', n) {
      assert MutexOk(T, M, ex, n) && CeilingOk(T, M, n);
    }
  }

  lemma FreeDemands(T: Tasks, M: Mutexes, ex: Exempt, m: MutexId, h: Option<TaskId>)
    requires m < |M| && Consistent(T, M, ex)
    ensures Consistent(T, SetHolder(M, m, h), ex.(d := -1))
  {
    var M' := SetHolder(M, m, h);
    forall n ensures Term(T, M', n) == Term(T, M, n) {
    }
    forall u | 0 <= u < |T| ensures AtDemand(T, M', u, ex.(d := -1)) {
      assert AtDemand(T, M, u, ex);
    }
  }

  /** Nobody holds a mutex that has left its holder's list. */
  lemma HeldByNobody(T: Tasks, M: Mutexes, ex: Exempt, m: MutexId, u: TaskId)
    requires m < |M| && ex.d == m && Linked(T, M, ex) && u < |T|
    ensures m !in T[u].mtxlist
  {
    assert TaskOk(T, M, ex, u) && MutexOk(T, M, ex, m);
  }

  lemma LeaveAllDemands(T: Tasks, M: Mutexes, ex: Exempt, t: TaskId)
    requires CanLeave(T, M, ex, t, true) && Consistent(T, M, ex) && ex.d == T[t].wait.m
    ensures var m := T[t].wait.m;
            Consistent(LeftTasks(T, t, true), SetQueue(M, m, Without(M[m].queue, t)), ex)
  {
    var m := T[t].wait.m;
    forall u | 0 <= u < |T|
      ensures AtDemand(LeftTasks(T, t, true), SetQueue(M, m, Without(M[m].queue, t)), u, ex)
    {
      assert AtDemand(T, M, u, ex);
      HeldByNobody(T, M, ex, m, u);
      LeaveDemands(T, M, ex, t, true, u);
    }
  }

  lemma UnregisterLinks(T: Tasks, M: Mutexes, m: MutexId)
    requires m < |M| && M[m].queue == [] && Linked(T, M, NOBODY.(d := m))
    ensures Linked(T, M[m := M[m].(registered := false)], NOBODY)
  {
    var ex := NOBODY.(d := m);
    var M' := M[m := M[m].(registered := false)];
    forall u | 0 <= u < |T| ensures TaskOk(T, M', NOBODY, u) {
      assert TaskOk(T, M, ex, u);
      HeldByNobody(T, M, ex, m, u);
    }
    forall n | 0 <= n < |M| ensures MutexOk(T, M', NOBODY, n) && CeilingOk(T, M', n) {
      assert MutexOk(T, M, ex, n) && CeilingOk(T, M, n);
    }
  }

  lemma SameTermsConsistent(T: Tasks, M: Mutexes, M': Mutexes, ex: Exempt, ex': Exempt)
    requires Consistent(T, M, ex) && ex.x == ex'.x && ex.e == ex'.e && ex.dead == ex'.dead
    requires forall n :: Term(T, M', n) == Term(T, M, n)
    ensures Consistent(T, M', ex')
  {
    forall u | 0 <= u < |T| ensures AtDemand(T, M', u, ex') {
      assert AtDemand(T, M, u, ex);
    }
  }

  /** make_dormant's effect on the entry of a task that holds nothing any more. */
  function DormantTasks(T: Tasks, t: TaskId): Tasks
    requires t < |T|
  {
    T[t := Tcb(Dormant, T[t].ipriority, T[t].ipriority, T[t].ipriority, NoWait, [])]
  }

  lemma DormantLinks(T: Tasks, M: Mutexes, t: TaskId, g: int)
    requires t < |T| && T[t].mtxlist == [] && Linked(T, M, Exempt(-1, NUM_PRI, -1, g, t))
    requires T[t].wait.OnMutex? ==> g == t
    requires g == t || g < 0
    ensures Linked(DormantTasks(T, t), M, NOBODY)
  {
    var ex := Exempt(-1, NUM_PRI, -1, g, t);
    var T' := DormantTasks(T, t);
    assert TaskOk(T, M, ex, t);
    forall u | 0 <= u < |T| ensures TaskOk(T', M, NOBODY, u) {
      assert TaskOk(T, M, ex, u);
    }
    forall n | 0 <= n < |M| ensures MutexOk(T', M, NOBODY, n) && CeilingOk(T', M, n) {
      assert MutexOk(T, M, ex, n) && CeilingOk(T, M, n);
      assert t !in M[n].queue;
    }
  }

  lemma DormantDemands(T: Tasks, M: Mutexes, t: TaskId, g: int)
    requires t < |T| && T[t].mtxlist == [] && Linked(T, M, Exempt(-1, NUM_PRI, -1, g, t))
    requires T[t].wait.OnMutex? ==> g == t
    requires Consistent(T, M, Exempt(-1, NUM_PRI, -1, g, t))
    ensures Consistent(DormantTasks(T, t), M, NOBODY)
    ensures var e := DormantTasks(T, t)[t];
            e.state.Dormant? && e.priority == e.bpriority == e.ipriority == T[t].ipriority
  {
    var ex := Exempt(-1, NUM_PRI, -1, g, t);
    var T' := DormantTasks(T, t);
    assert TaskOk(T, M, ex, t);
    forall u, n | 0 <= u < |T| && n in T[u].mtxlist ensures Term(T', M, n) == Term(T, M, n) {
      assert TaskOk(T, M, ex, u) && MutexOk(T, M, ex, n);
      assert t !in M[n].queue;
    }
    forall u | 0 <= u < |T| ensures AtDemand(T', M, u, NOBODY) {
      assert AtDemand(T, M, u, ex);
    }
  }
}
