/**
 The contracts of the mutex routines as relations between states, and the reasoning behind single
 steps of their loops.
 */
module MutexSteps {
  import opened Common
  import opened MutexState
  import opened MutexPropagation
  import opened MutexTransfers

  /** What a change of t's priority to p may do to the rest of the system: urgency only spreads
      in one direction, and a queue is only touched because one of its tasks changed priority. */
  ghost predicate Propagated(T: Tasks, T': Tasks, M: Mutexes, M': Mutexes, t: TaskId, p: int) {
    && SameLinks(T, T', M, M') && t < |T|
    && (p < T[t].priority ==>
          T'[t].priority == p
          && forall u :: 0 <= u < |T| ==> T'[u].priority == T[u].priority || T'[u].priority == p < T[u].priority)
    && (p >= T[t].priority ==>
          T'[t].priority >= p && forall u :: 0 <= u < |T| ==> T'[u].priority >= T[u].priority)
    && (p == T[t].priority ==> T' == T)
    && (forall m :: 0 <= m < |M| ==>
          M'[m].queue == M[m].queue || exists u :: u in M[m].queue && u < |T| && (u == t || T'[u] != T[u]))
  }

  lemma PropagatedTwice(T: Tasks, T1: Tasks, T2: Tasks, M: Mutexes, M1: Mutexes, M2: Mutexes,
                        t: TaskId, p: int, o: TaskId, p': int)
    requires t < |T| && |T1| == |T| && o < |T1| && |M1| == |M|
    requires Propagated(T, T1, M, M1, t, p)
    requires Propagated(T1, T2, M1, M2, o, p')
    requires T1 == T[t := T[t].(priority := p)]
    requires p < T[t].priority ==> p' == p && p' < T1[o].priority
    requires p >= T[t].priority ==> p' >= T1[o].priority
    requires p' == T1[o].priority ==> T2 == T1 && M2 == M1
    requires p == T[t].priority ==> p' == T1[o].priority
    ensures Propagated(T, T2, M, M2, t, p)
  {
    forall m | 0 <= m < |M|
      ensures M2[m].queue == M[m].queue || exists u :: u in M[m].queue && u < |T| && (u == t || T2[u] != T[u])
    {
      if M2[m].queue != M1[m].queue {
        var u :| u in M1[m].queue && u < |T| && (u == o || T2[u] != T1[u]);
        assert u in multiset(M1[m].queue);
        assert u in M[m].queue;
      }
    }
    forall m | 0 <= m < |M| ensures M2[m] == M[m].(queue := M2[m].queue) {
      assert M1[m] == M[m].(queue := M1[m].queue);
    }
    forall u | 0 <= u < |T| ensures T2[u] == T[u].(priority := T2[u].priority) {
      assert T1[u] == T[u].(priority := T1[u].priority);
    }
  }

  /** The first step of a propagation, up to the holder o of the mutex that t waits for. */
  lemma MoveStart(T0: Tasks, M0: Mutexes, ex: Exempt, t: TaskId, p: int, k: nat, o: TaskId)
    requires Moves(T0, M0, ex, t, p, k) && Avoids(T0, M0, ex, o)
    requires SameLinks(T0, SetPriority(T0, t, p), M0, Moved(M0, T0[t].wait.m, t, k))
    ensures 0 <= p < NUM_PRI
    ensures Propagated(T0, SetPriority(T0, t, p), M0, Moved(M0, T0[t].wait.m, t, k), t, p)
    ensures Avoids(SetPriority(T0, t, p), Moved(M0, T0[t].wait.m, t, k), ex, o)
  {
    AvoidsSame(T0, SetPriority(T0, t, p), M0, Moved(M0, T0[t].wait.m, t, k), ex, o);
    assert TaskOk(T0, M0, ex, t);
  }

  /** A bound on the number of priority changes still to come: priorities are bounded and a
      propagation moves them all in the same direction. */
  ghost predicate Enough(T: Tasks, from: int, to: int, fuel: nat) {
    && (to > from ==> fuel > NUM_PRI * |T| - Total(T))
    && (to < from ==> fuel > Total(T))
    && (to == from ==> fuel > 0)
  }

  /** t is a task that can make a system call. */
  ghost predicate Running(T: Tasks, t: TaskId) {
    t < |T| && T[t].state.Alive? && T[t].wait.NoWait?
  }

  /** Mutex m has passed to w, the first task of its queue. */
  ghost predicate HandedOver(T: Tasks, T': Tasks, M: Mutexes, M': Mutexes, m: MutexId, w: TaskId) {
    && w < |T| && m < |M|
    && M' == SetHolder(SetQueue(M, m, Without(M[m].queue, w)), m, Some(w))
    && T' == SetPriority(TakenTasks(LeftTasks(T, w, true), w, m), w, TakenPriority(T, M, w, m))
  }

  /** Mutex m has passed to the first task of its queue, or has become free if there is none. */
  ghost predicate Passed(T: Tasks, T': Tasks, M: Mutexes, M': Mutexes, m: MutexId) {
    && m < |M|
    && (M[m].queue == [] ==> T' == T && M' == SetHolder(M, m, None))
    && (M[m].queue != [] ==> HandedOver(T, T', M, M', m, M[m].queue[0]))
  }

  /** Tasks in wait queues are alive. */
  lemma QueueAlive(T: Tasks, M: Mutexes, ex: Exempt, m: MutexId)
    requires m < |M| && Linked(T, M, ex)
    ensures forall w :: w in M[m].queue && w < |T| ==> T[w].state.Alive?
  {
    forall w | w in M[m].queue && w < |T| ensures T[w].state.Alive? {
      assert MutexOk(T, M, ex, m) && TaskOk(T, M, ex, w);
    }
  }

  /** What the end of another task can do to a task's entry: it may get one of the mutexes in list. */
  ghost predicate Inherits(e: Tcb, e': Tcb, list: seq<MutexId>) {
    || e' == e
    || (&& e.wait.OnMutex? && e.wait.m in list
        && e'.priority <= e.priority
        && e' == e.(wait := NoWait, mtxlist := [e.wait.m] + e.mtxlist, priority := e'.priority))
  }

  /** What the end of its holder does to a mutex. */
  ghost predicate PassedOn(c: Mtxcb, c': Mtxcb) {
    if c.queue == [] then c' == c.(mtxtsk := None)
    else c' == c.(mtxtsk := Some(c.queue[0]), queue := Without(c.queue, c.queue[0]))
  }

  function LeftMutexes(T: Tasks, M: Mutexes, t: TaskId): Mutexes
    requires t < |T|
  {
    if T[t].wait.OnMutex? && T[t].wait.m < |M|
    then SetQueue(M, T[t].wait.m, Without(M[T[t].wait.m].queue, t))
    else M
  }

  /** Mutex m can be asked what it demands of its holder. */
  ghost predicate Readable(T: Tasks, M: Mutexes, m: MutexId) {
    && m < |M|
    && (|M[m].queue| > 0 ==> M[m].queue[0] < |T| && T[M[m].queue[0]].priority < NUM_PRI)
    && M[m].ceilpri < NUM_PRI
  }

  lemma ReadableLists(T: Tasks, M: Mutexes, ex: Exempt, o: TaskId)
    requires o < |T| && Linked(T, M, ex)
    ensures Distinct(T[o].mtxlist) && T[o].bpriority < NUM_PRI
    ensures forall m :: m in T[o].mtxlist ==> Readable(T, M, m)
    ensures forall j :: 0 <= j < |T[o].mtxlist| ==> T[o].mtxlist[j] < |M|
    ensures forall rel, m :: m in T[o].mtxlist ==> Readable(Dropped(T, o, rel), M, m)
  {
    assert TaskOk(T, M, ex, o);
    forall j | 0 <= j < |T[o].mtxlist| ensures T[o].mtxlist[j] < |M| {
      assert T[o].mtxlist[j] in T[o].mtxlist;
    }
    forall m | m in T[o].mtxlist ensures Readable(T, M, m) {
      assert MutexOk(T, M, ex, m);
      if |M[m].queue| > 0 {
        assert M[m].queue[0] in M[m].queue;
        assert TaskOk(T, M, ex, M[m].queue[0]);
      }
    }
  }

  /** p is the minimum of base and the demands of the first i mutexes of list; w says which one it
      comes from, or is -1 for the base. */
  ghost predicate Scanned(T: Tasks, M: Mutexes, list: seq<MutexId>, i: nat, base: int, p: int, w: int) {
    && i <= |list| && -1 <= w < i && p <= base
    && (forall j :: 0 <= j < i ==> p <= Term(T, M, list[j]))
    && p == if w < 0 then base else Term(T, M, list[w])
  }

  lemma ScanStep(T: Tasks, M: Mutexes, list: seq<MutexId>, i: nat, base: int, p: int, w: int, pri: int)
    requires Scanned(T, M, list, i, base, p, w) && i < |list|
    requires pri == Term(T, M, list[i]) || (p <= pri && p <= Term(T, M, list[i]))
    ensures Scanned(T, M, list, i + 1, base, if p > pri then pri else p, if p > pri then i else w)
  {
  }

  /** Where the in-place unlinking of rel from o's list stands after i mutexes. */
  ghost predicate Unlinking(T0: Tasks, T: Tasks, o: TaskId, rel: Option<MutexId>, list: seq<MutexId>, i: nat,
                            cut: bool) {
    && o < |T0| && Distinct(T0[o].mtxlist)
    && (forall j :: 0 <= j < |list| ==> list[j] in T0[o].mtxlist)
    && if cut then rel.Some? && list == Without(T0[o].mtxlist, rel.value) && T == Dropped(T0, o, rel)
       else list == T0[o].mtxlist && T == T0 && i <= |list| && forall j :: 0 <= j < i ==> Some(list[j]) != rel
  }

  lemma ScanStart(T: Tasks, M: Mutexes, o: TaskId, rel: Option<MutexId>)
    requires o < |T| && Distinct(T[o].mtxlist)
    ensures Scanned(T, M, T[o].mtxlist, 0, T[o].bpriority, T[o].bpriority, -1)
    ensures Unlinking(T, T, o, rel, T[o].mtxlist, 0, false)
  {
  }

  /** A mutex stands in its holder's list once, so it is unlinked once. */
  lemma UnlinkHere(T0: Tasks, T: Tasks, o: TaskId, m: MutexId, list: seq<MutexId>, i: nat, cut: bool)
    requires Unlinking(T0, T, o, Some(m), list, i, cut) && i < |list| && list[i] == m
    ensures |T| == |T0| && !cut
    ensures var rest := list[..i] + list[i + 1..];
            Unlinking(T0, T[o := T[o].(mtxlist := rest)], o, Some(m), rest, i, true)
  {
    WithoutFacts(T0[o].mtxlist, m);
    assert m in list;
    WithoutAt(T0[o].mtxlist, m, i);
  }

  lemma UnlinkNext(T0: Tasks, T: Tasks, o: TaskId, rel: Option<MutexId>, list: seq<MutexId>, i: nat, cut: bool)
    requires Unlinking(T0, T, o, rel, list, i, cut) && i < |list| && Some(list[i]) != rel
    ensures Unlinking(T0, T, o, rel, list, i + 1, cut)
    ensures list[i] in T0[o].mtxlist && (T == T0 || T == Dropped(T0, o, rel))
  {
  }

  lemma ScanCut(T: Tasks, M: Mutexes, list: seq<MutexId>, i: nat, base: int, p: int, w: int)
    requires Scanned(T, M, list, i, base, p, w) && i < |list|
    ensures Scanned(T, M, list[..i] + list[i + 1..], i, base, p, w)
  {
  }

  lemma ScanBase(T: Tasks, M: Mutexes, t: TaskId, base: int, p: int, w: int)
    requires t < |T| && Scanned(T, M, T[t].mtxlist, |T[t].mtxlist|, base, p, w) && base < NUM_PRI
    ensures Meets(SetBase(T, t, base), M, t, p, NUM_PRI)
  {
    forall n ensures Term(SetBase(T, t, base), M, n) == Term(T, M, n) {
    }
    assert w >= 0 ==> T[t].mtxlist[w] in T[t].mtxlist;
  }

  /** What the scan of o's list has found once it has come to the end. */
  lemma ScanResult(T: Tasks, T1: Tasks, M: Mutexes, ex: Exempt, o: TaskId, rel: Option<MutexId>,
                   list: seq<MutexId>, cut: bool, p: int, w: int)
    requires o < |T| && Linked(T, M, ex)
    requires Unlinking(T, T1, o, rel, list, |list|, cut)
    requires Scanned(T, M, list, |list|, T[o].bpriority, p, w)
    ensures T1 == Dropped(T, o, rel)
    ensures Meets(T1, M, o, p, NUM_PRI)
  {
    var T' := Dropped(T, o, rel);
    assert list == T'[o].mtxlist;
    forall m ensures Term(T', M, m) == Term(T, M, m) {
      DropTerm(T, M, o, rel, m);
    }
    assert T[o].bpriority < NUM_PRI by { assert TaskOk(T, M, ex, o); }
    assert w >= 0 ==> list[w] in list;
  }

  /** Some tasks have lost urgency; a queue has only been reordered because of them. */
  ghost predicate LoweredFrom(T: Tasks, T': Tasks, M: Mutexes, M': Mutexes) {
    && SameLinks(T, T', M, M')
    && (forall u :: 0 <= u < |T| ==> T'[u].priority >= T[u].priority)
    && (forall m :: 0 <= m < |M| ==>
          M'[m].queue == M[m].queue || exists u :: u in M[m].queue && u < |T| && T'[u] != T[u])
  }

  /** Another task's entry after a task holding the mutexes in list has ended: the entry is as it
      was, or its task has got the mutex it waited for; priorities aside. */
  ghost predicate Survives(e: Tcb, e': Tcb, list: seq<MutexId>) {
    || e' == e.(priority := e'.priority)
    || (&& e.wait.OnMutex? && e.wait.m in list
        && e' == e.(wait := NoWait, mtxlist := [e.wait.m] + e.mtxlist, priority := e'.priority))
  }

  /** A mutex after task t has ended; held says whether t held it. Before it was passed on, its queue
      had lost t and may have been reordered, unless it is in the order of arrival. */
  ghost predicate MutexAfterEnd(c: Mtxcb, c': Mtxcb, held: bool, t: TaskId) {
    exists q: seq<TaskId> :: (
      && multiset(q) == multiset(Without(c.queue, t))
      && (c.attr.TFIFO? ==> q == Without(c.queue, t))
      && if held then PassedOn(c.(queue := q), c') else c' == c.(queue := q))
  }

  ghost predicate ReleasedSoFar(T0: Tasks, T: Tasks, done: seq<TaskId>) {
    && |T| == |T0|
    && forall u :: 0 <= u < |T| ==> T[u] == if u in done then T0[u].(wait := NoWait) else T0[u]
  }

  lemma WaitersDistinct(T: Tasks, M: Mutexes, m: MutexId)
    requires m < |M| && Linked(T, M, NOBODY.(d := m))
    ensures Distinct(M[m].queue) && forall i :: 0 <= i < |M[m].queue| ==> M[m].queue[i] < |T|
  {
    assert MutexOk(T, M, NOBODY.(d := m), m);
    forall i | 0 <= i < |M[m].queue| ensures M[m].queue[i] < |T| {
      assert M[m].queue[i] in M[m].queue;
    }
  }

  lemma ReleasedOneMore(T0: Tasks, T: Tasks, q: seq<TaskId>, i: nat)
    requires i < |q| && Distinct(q) && q[i] < |T| && ReleasedSoFar(T0, T, q[..i])
    ensures ReleasedSoFar(T0, LeftTasks(T, q[i], true), q[..i + 1])
  {
    assert q[..i + 1] == q[..i] + [q[i]];
    assert q[i] !in q[..i];
  }

  /** One round of wait_delete on a mutex that nobody has in its list. */
  lemma ReleaseFirst(T: Tasks, M: Mutexes, m: MutexId)
    requires m < |M| && |M[m].queue| > 0
    requires Linked(T, M, NOBODY.(d := m)) && Consistent(T, M, NOBODY.(d := m))
    ensures M[m].queue[0] < |T|
    ensures Linked(LeftTasks(T, M[m].queue[0], true), SetQueue(M, m, M[m].queue[1..]), NOBODY.(d := m))
    ensures Consistent(LeftTasks(T, M[m].queue[0], true), SetQueue(M, m, M[m].queue[1..]), NOBODY.(d := m))
  {
    var ex := NOBODY.(d := m);
    var w := M[m].queue[0];
    assert MutexOk(T, M, ex, m) && w in M[m].queue;
    LeaveLinks(T, M, ex, w, true);
    LeaveAllDemands(T, M, ex, w);
    assert Without(M[m].queue, w) == M[m].queue[1..];
  }

  /** From here on nothing is claimed of the priority of the ending task. */
  lemma EndingExempt(T: Tasks, M: Mutexes, g: int, t: TaskId)
    requires Linked(T, M, NOBODY.(g := g)) && Consistent(T, M, NOBODY.(g := g))
    ensures Linked(T, M, Exempt(-1, NUM_PRI, -1, g, t)) && Consistent(T, M, Exempt(-1, NUM_PRI, -1, g, t))
  {
    RelinkExempt(T, M, NOBODY.(g := g), Exempt(-1, NUM_PRI, -1, g, t));
    forall u | 0 <= u < |T| ensures AtDemand(T, M, u, Exempt(-1, NUM_PRI, -1, g, t)) {
      assert AtDemand(T, M, u, NOBODY.(g := g));
    }
  }

  /** The entry of a task in no mutex queue may change in what mutexes do not look at, and all of it
      may change if the task holds nothing. */
  lemma IdleEntry(T: Tasks, T': Tasks, M: Mutexes, t: TaskId)
    requires t < |T| && Linked(T, M, NOBODY) && Consistent(T, M, NOBODY)
    requires |T'| == |T| && T' == T[t := T'[t]]
    requires !T[t].wait.OnMutex? && !T'[t].wait.OnMutex? && T'[t].mtxlist == T[t].mtxlist
    requires (T'[t].priority == T'[t].bpriority && T[t].mtxlist == [])
             || (T'[t].priority == T[t].priority && T'[t].bpriority == T[t].bpriority)
    requires 0 <= T'[t].priority < NUM_PRI && 0 <= T'[t].bpriority < NUM_PRI && 0 <= T'[t].ipriority < NUM_PRI
    requires !T'[t].state.Alive? ==> T'[t].wait.NoWait? && T'[t].mtxlist == []
    ensures Linked(T', M, NOBODY) && Consistent(T', M, NOBODY)
  {
    assert TaskOk(T, M, NOBODY, t) && AtDemand(T, M, t, NOBODY);
    forall n | 0 <= n < |M|
      ensures MutexOk(T', M, NOBODY, n) && CeilingOk(T', M, n) && Term(T', M, n) == Term(T, M, n)
    {
      assert MutexOk(T, M, NOBODY, n) && CeilingOk(T, M, n);
      assert t !in M[n].queue;
    }
    forall u | 0 <= u < |T'| ensures TaskOk(T', M, NOBODY, u) && AtDemand(T', M, u, NOBODY) {
      assert TaskOk(T, M, NOBODY, u) && AtDemand(T, M, u, NOBODY);
    }
  }

  lemma CeilingPri(T: Tasks, M: Mutexes, m: MutexId)
    requires Readable(T, M, m)
    ensures M[m].attr.CEILING? ==> Term(T, M, m) == M[m].ceilpri < NUM_PRI
  {
  }

  /** low is the maximum of low0 and the ceilings among the first i mutexes of list. */
  ghost predicate LowScanned(M: Mutexes, list: seq<MutexId>, i: nat, low0: int, low: int) {
    && i <= |list| && low >= low0
    && (forall j :: 0 <= j < i && list[j] < |M| && M[list[j]].attr.CEILING? ==> low >= M[list[j]].ceilpri)
    && (low == low0
        || exists j :: 0 <= j < i && list[j] < |M| && M[list[j]].attr.CEILING? && low == M[list[j]].ceilpri)
  }

  lemma ScansStart(T: Tasks, M: Mutexes, list: seq<MutexId>, base: int, low: int)
    ensures Scanned(T, M, list, 0, base, base, -1) && LowScanned(M, list, 0, low, low)
  {
  }

  lemma AwaitedMutex(T: Tasks, M: Mutexes, t: TaskId)
    requires t < |T| && Linked(T, M, NOBODY)
    ensures T[t].wait.OnMutex? ==> T[t].wait.m < |M| && M[T[t].wait.m].ceilpri >= 0
  {
    assert TaskOk(T, M, NOBODY, t);
    if T[t].wait.OnMutex? {
      assert MutexOk(T, M, NOBODY, T[t].wait.m);
    }
  }

  lemma LowStep(M: Mutexes, list: seq<MutexId>, i: nat, low0: int, low: int)
    requires LowScanned(M, list, i, low0, low) && i < |list| && list[i] < |M|
    ensures LowScanned(M, list, i + 1, low0,
                       if M[list[i]].attr.CEILING? && M[list[i]].ceilpri > low then M[list[i]].ceilpri else low)
  {
  }

  lemma LowResult(T: Tasks, M: Mutexes, t: TaskId, low0: int, low: int, b: int)
    requires t < |T| && Linked(T, M, NOBODY) && b >= 0
    requires low0 == if T[t].wait.OnMutex? && T[t].wait.m < |M| && M[T[t].wait.m].attr.CEILING?
                     then M[T[t].wait.m].ceilpri else 0
    requires LowScanned(M, T[t].mtxlist, |T[t].mtxlist|, low0, low)
    ensures b < low <==> CeilingForbids(T, M, t, b)
  {
    var list := T[t].mtxlist;
    if low != low0 {
      var j :| 0 <= j < |list| && list[j] < |M| && M[list[j]].attr.CEILING? && low == M[list[j]].ceilpri;
      assert list[j] in list;
    }
  }

  /** A task stands in no wait queue but that of the mutex it waits for. */
  lemma LeftQueues(T: Tasks, M: Mutexes, t: TaskId)
    requires t < |T| && Linked(T, M, NOBODY)
    ensures |LeftMutexes(T, M, t)| == |M|
    ensures forall m :: 0 <= m < |M| ==> LeftMutexes(T, M, t)[m].attr == M[m].attr
    ensures forall m :: 0 <= m < |M| ==> LeftMutexes(T, M, t)[m].queue == Without(M[m].queue, t)
    ensures !T[t].wait.OnMutex? ==> LeftMutexes(T, M, t) == M
  {
    assert TaskOk(T, M, NOBODY, t);
    forall m | 0 <= m < |M| && t in M[m].queue ensures T[t].wait == OnMutex(m) {
      assert MutexOk(T, M, NOBODY, m);
    }
  }

  /** After a task has given up its wait it stands in no queue, and nobody else has left or joined one. */
  lemma WaitGivenUp(T0: Tasks, T: Tasks, M0: Mutexes, M: Mutexes, t: TaskId)
    requires t < |T0| && Linked(T0, M0, NOBODY)
    requires LoweredFrom(LeftTasks(T0, t, true), T, LeftMutexes(T0, M0, t), M)
    ensures |T| == |T0| && |M| == |M0| && T[t] == T0[t].(wait := NoWait, priority := T[t].priority)
    ensures forall m :: 0 <= m < |M| ==> t !in M[m].queue
    ensures forall u :: 0 <= u < |T| && u != t ==> T[u] == T0[u].(priority := T[u].priority)
    ensures forall m, u :: 0 <= m < |M| && u != t ==> (u in M[m].queue <==> u in M0[m].queue)
  {
    LeftQueues(T0, M0, t);
    forall m | 0 <= m < |M| ensures forall u :: u in M[m].queue <==> u in M0[m].queue && u != t {
      assert MutexOk(T0, M0, NOBODY, m);
      SameMembers(M[m].queue, Without(M0[m].queue, t));
      WithoutFacts(M0[m].queue, t);
    }
  }

  /** The two halves of a task's end: leaving its own wait, then passing on its mutexes. */
  lemma EndInTwoSteps(T0: Tasks, T1: Tasks, T2: Tasks, M0: Mutexes, M1: Mutexes, M2: Mutexes, t: TaskId)
    requires |T0| == |T1| == |T2| && |M0| == |M1| == |M2| && t < |T0|
    requires Linked(T0, M0, NOBODY)
    requires forall u :: 0 <= u < |T0| ==> T1[u] == T0[u].(priority := T1[u].priority)
    requires forall m :: 0 <= m < |M0| ==> M1[m] == M0[m].(queue := M1[m].queue)
    requires forall m :: 0 <= m < |M0| ==> multiset(M1[m].queue) == multiset(Without(M0[m].queue, t))
    requires forall m :: 0 <= m < |M0| && M0[m].attr.TFIFO? ==> M1[m].queue == Without(M0[m].queue, t)
    requires forall u :: 0 <= u < |T0| && u != t ==> Inherits(T1[u], T2[u], T0[t].mtxlist)
    requires forall m :: 0 <= m < |M0| ==> if m in T0[t].mtxlist then PassedOn(M1[m], M2[m]) else M2[m] == M1[m]
    ensures forall u :: 0 <= u < |T0| && u != t ==> Survives(T0[u], T2[u], T0[t].mtxlist)
    ensures forall m :: 0 <= m < |M0| ==> MutexAfterEnd(M0[m], M2[m], m in T0[t].mtxlist, t)
  {
    assert TaskOk(T0, M0, NOBODY, t);
    forall m | 0 <= m < |M0| ensures MutexAfterEnd(M0[m], M2[m], m in T0[t].mtxlist, t) {
      assert M1[m] == M0[m].(queue := M1[m].queue);
    }
  }

  lemma SameMembers(q: seq<nat>, q': seq<nat>)
    requires multiset(q) == multiset(q')
    ensures q == [] <==> q' == []
    ensures forall x :: x in q <==> x in q'
  {
    assert |multiset(q)| == |q| && |multiset(q')| == |q'|;
    forall x ensures x in q <==> x in q' {
      assert x in q <==> x in multiset(q);
      assert x in q' <==> x in multiset(q');
    }
  }

  lemma SignalStep(T0: Tasks, T1: Tasks, T2: Tasks, M0: Mutexes, M1: Mutexes, M2: Mutexes, t: TaskId,
                   list: seq<MutexId>, i: nat)
    requires |T0| == |T1| == |T2| && |M0| == |M1| == |M2| && i < |list| && Distinct(list) && list[i] < |M0|
    requires forall u :: 0 <= u < |T0| && u != t ==> Inherits(T0[u], T1[u], list[..i])
    requires forall u :: 0 <= u < |T0| && u != t ==> Inherits(T1[u], T2[u], [list[i]])
    requires forall m :: 0 <= m < |M0| ==> if m in list[..i] then PassedOn(M0[m], M1[m]) else M1[m] == M0[m]
    requires M2 == M1[list[i] := M2[list[i]]] && PassedOn(M1[list[i]], M2[list[i]])
    ensures forall u :: 0 <= u < |T0| && u != t ==> Inherits(T0[u], T2[u], list[..i + 1])
    ensures forall m :: 0 <= m < |M0| ==> if m in list[..i + 1] then PassedOn(M0[m], M2[m]) else M2[m] == M0[m]
  {
    assert list[..i + 1] == list[..i] + [list[i]];
    assert list[i] !in list[..i];
  }

  lemma AvoidsDeleted(T: Tasks, M: Mutexes, m: MutexId, o: TaskId)
    requires m < |M| && M[m].mtxtsk == Some(o) && !OnCycle(T, M, o)
    ensures Avoids(T, M, NOBODY.(d := m), o)
  {
    forall n: nat, v: TaskId | Follow(T, M, o, n) == Some(v) && v < |T|
      ensures !WaitsThrough(T, M, v, m)
    {
      if WaitsThrough(T, M, v, m) {
        FollowOneMore(T, M, o, n, v);
        assert false;
      }
    }
  }

  lemma {:induction false} FollowOneMore(T: Tasks, M: Mutexes, u: TaskId, n: nat, v: TaskId)
    requires Follow(T, M, u, n) == Some(v)
    ensures Follow(T, M, u, n + 1) == NextOwner(T, M, v)
    decreases n
  {
    if n > 0 {
      FollowOneMore(T, M, NextOwner(T, M, u).value, n - 1, v);
    } else if NextOwner(T, M, v).Some? {
      assert Follow(T, M, NextOwner(T, M, v).value, 0) == NextOwner(T, M, v);
    }
  }

  lemma UnheldLinks(T: Tasks, M: Mutexes, m: MutexId)
    requires m < |M| && M[m].mtxtsk.None? && Linked(T, M, NOBODY)
    ensures Linked(T, M, NOBODY.(d := m))
  {
    forall u | 0 <= u < |T| ensures TaskOk(T, M, NOBODY.(d := m), u) {
      assert TaskOk(T, M, NOBODY, u);
    }
    forall n | 0 <= n < |M| ensures MutexOk(T, M, NOBODY.(d := m), n) && CeilingOk(T, M, n) {
      assert MutexOk(T, M, NOBODY, n) && CeilingOk(T, M, n);
    }
  }

  lemma HolderOnly(T: Tasks, M: Mutexes, m: MutexId)
    requires m < |M| && Linked(T, M, NOBODY)
    ensures forall u :: 0 <= u < |T| && M[m].mtxtsk != Some(u) ==> m !in T[u].mtxlist
  {
    forall u | 0 <= u < |T| && M[m].mtxtsk != Some(u) ensures m !in T[u].mtxlist {
      assert TaskOk(T, M, NOBODY, u);
    }
  }

  lemma WaitersAre(T: Tasks, M: Mutexes, m: MutexId)
    requires m < |M| && Linked(T, M, NOBODY)
    ensures forall u :: 0 <= u < |T| ==> (u in M[m].queue <==> T[u].wait == OnMutex(m))
  {
    forall u | 0 <= u < |T| ensures u in M[m].queue <==> T[u].wait == OnMutex(m) {
      assert TaskOk(T, M, NOBODY, u) && MutexOk(T, M, NOBODY, m);
    }
  }

  lemma AvoidsAcyclic(T: Tasks, M: Mutexes, t: TaskId, o: TaskId)
    requires !OnCycle(T, M, t) && NextOwner(T, M, t) == Some(o)
    ensures Avoids(T, M, NOBODY.(g := t), o)
  {
    forall n: nat, v: TaskId | Follow(T, M, o, n) == Some(v) && v < |T|
      ensures v != t
    {
      assert Follow(T, M, t, n + 1) == Some(v);
    }
  }

  /** Everybody but the holder o of t's inheritance mutex is at its demand once t has left the queue. */
  lemma LeaveOthers(T: Tasks, M: Mutexes, t: TaskId, released: bool, o: TaskId)
    requires CanLeave(T, M, NOBODY, t, released) && Consistent(T, M, NOBODY)
    requires M[T[t].wait.m].mtxtsk == Some(o) && o < |T|
    ensures var m := T[t].wait.m;
            var T' := LeftTasks(T, t, released);
            var M' := SetQueue(M, m, Without(M[m].queue, t));
            var ex := LeftExempt(NOBODY, t, released);
            && (forall u :: 0 <= u < |T| && (u != o || T[o].priority != T[t].priority) ==> AtDemand(T', M', u, ex))
            && T[o].priority <= T[o].bpriority
            && (forall n :: n in T'[o].mtxlist ==> T[o].priority <= Term(T', M', n))
  {
    var m := T[t].wait.m;
    forall u | 0 <= u < |T| && (u != o || T[o].priority != T[t].priority)
      ensures AtDemand(LeftTasks(T, t, released), SetQueue(M, m, Without(M[m].queue, t)), u,
                LeftExempt(NOBODY, t, released))
    {
      assert AtDemand(T, M, u, NOBODY) && TaskOk(T, M, NOBODY, u);
      LeaveDemands(T, M, NOBODY, t, released, u);
    }
    assert AtDemand(T, M, o, NOBODY);
    LeaveDemands(T, M, NOBODY, t, released, o);
  }

  lemma LeaveUninherited(T: Tasks, M: Mutexes, t: TaskId, released: bool)
    requires CanLeave(T, M, NOBODY, t, released) && Consistent(T, M, NOBODY)
    requires !M[T[t].wait.m].attr.INHERIT?
    ensures var m := T[t].wait.m;
            Consistent(LeftTasks(T, t, released), SetQueue(M, m, Without(M[m].queue, t)),
              LeftExempt(NOBODY, t, released))
  {
    var m := T[t].wait.m;
    forall u | 0 <= u < |T|
      ensures AtDemand(LeftTasks(T, t, released), SetQueue(M, m, Without(M[m].queue, t)), u,
                LeftExempt(NOBODY, t, released))
    {
      assert AtDemand(T, M, u, NOBODY);
      LeaveDemands(T, M, NOBODY, t, released, u);
    }
  }

  lemma DemandBounds(T: Tasks, M: Mutexes, t: TaskId, b: int, p: int)
    requires t < |T| && 0 <= b < NUM_PRI && Linked(T, M, NOBODY) && Meets(SetBase(T, t, b), M, t, p, NUM_PRI)
    ensures 0 <= p < NUM_PRI
  {
    var T' := SetBase(T, t, b);
    assert TaskOk(T, M, NOBODY, t);
    forall n | n in T[t].mtxlist ensures 0 <= Term(T', M, n) {
      assert MutexOk(T, M, NOBODY, n);
      if |M[n].queue| > 0 {
        assert M[n].queue[0] in M[n].queue;
        assert TaskOk(T, M, NOBODY, M[n].queue[0]);
      }
    }
  }

  /** Some tasks that ran below priority p have been raised to p; a queue has only been reordered
      because of them. */
  ghost predicate RaisedTo(T: Tasks, T': Tasks, M: Mutexes, M': Mutexes, p: int) {
    && SameLinks(T, T', M, M')
    && (forall u :: 0 <= u < |T| ==> T'[u].priority == T[u].priority || T'[u].priority == p < T[u].priority)
    && (forall m :: 0 <= m < |M| ==>
          M'[m].queue == M[m].queue || exists u :: u in M[m].queue && u < |T| && T'[u] != T[u])
  }

  /** t waits for m. Nobody else's state has changed except that tasks running below t's priority
      may have been raised to it; t stands in m's queue behind all tasks of the same or higher
      priority (at the end, if m is first come first served). */
  ghost predicate Blocked(T: Tasks, T': Tasks, M: Mutexes, M': Mutexes, t: TaskId, m: MutexId) {
    && t < |T| == |T'| && m < |M| == |M'|
    && T'[t] == T[t].(wait := OnMutex(m))
    && (forall u :: 0 <= u < |T| && u != t ==>
          T'[u] == T[u] || (M[m].attr.INHERIT? && T[u].priority > T[t].priority
                            && T'[u] == T[u].(priority := T[t].priority)))
    && (forall n :: 0 <= n < |M| ==> M'[n] == M[n].(queue := M'[n].queue))
    && (forall n :: 0 <= n < |M| ==>
          multiset(M'[n].queue) == multiset(M[n].queue) + if n == m then multiset{t} else multiset{})
    && ((forall u :: u in M[m].queue && u < |T| ==> T'[u] == T[u]) ==>
          exists k: nat :: k <= |M[m].queue| && M'[m].queue == InsertAt(M[m].queue, k, t)
                           && (if M[m].attr.TFIFO? then k == |M[m].queue|
                                else TpriPlace(T, M[m].queue, T[t].priority, k)))
  }

  lemma CanBlock(T: Tasks, M: Mutexes, t: TaskId, m: MutexId)
    requires Linked(T, M, NOBODY) && t < |T| && m < |M| && M[m].mtxtsk.Some?
    ensures M[m].mtxtsk.value < |T| && 0 <= T[t].priority < NUM_PRI && T[M[m].mtxtsk.value].priority < NUM_PRI
  {
    assert MutexOk(T, M, NOBODY, m) && TaskOk(T, M, NOBODY, t) && TaskOk(T, M, NOBODY, M[m].mtxtsk.value);
  }

  lemma Raised(T: Tasks, T': Tasks, M: Mutexes, M': Mutexes, o: TaskId, p: int)
    requires Propagated(T, T', M, M', o, p) && p < T[o].priority
    ensures RaisedTo(T, T', M, M', p)
  {
  }

  lemma NotRaised(T: Tasks, M: Mutexes, p: int)
    ensures RaisedTo(T, T, M, M, p)
  {
  }

  /** A raise keeps who waits for what and who holds what. */
  lemma RaisedSame(T: Tasks, T': Tasks, M: Mutexes, M': Mutexes, p: int, t: TaskId, m: MutexId)
    requires RaisedTo(T, T', M, M', p) && t < |T| && m < |M|
    ensures |T'| == |T| && |M'| == |M| && M'[m] == M[m].(queue := M'[m].queue)
    ensures T'[t] == T[t].(priority := T'[t].priority) && (T[t].priority == p ==> T'[t] == T[t])
  {
  }

  lemma BlockedAfter(T: Tasks, T1: Tasks, M: Mutexes, M1: Mutexes, t: TaskId, m: MutexId, k: nat)
    requires t < |T| && m < |M| && RaisedTo(T, T1, M, M1, T[t].priority)
    requires !M[m].attr.INHERIT? ==> T1 == T && M1 == M
    requires k <= |M1[m].queue|
    requires if M[m].attr.TFIFO? then k == |M1[m].queue| else TpriPlace(T1, M1[m].queue, T1[t].priority, k)
    ensures Blocked(T, QueuedTasks(T1, t, m), M, SetQueue(M1, m, InsertAt(M1[m].queue, k, t)), t, m)
  {
    var T' := QueuedTasks(T1, t, m);
    var M' := SetQueue(M1, m, InsertAt(M1[m].queue, k, t));
    assert T1[t] == T[t];
    forall n | 0 <= n < |M|
      ensures M'[n] == M[n].(queue := M'[n].queue)
      ensures multiset(M'[n].queue) == multiset(M[n].queue) + if n == m then multiset{t} else multiset{}
    {
      InsertFacts(M1[m].queue, k, t);
    }
    if forall u :: u in M[m].queue && u < |T| ==> T'[u] == T[u] {
      BlockedPlace(T, T1, M, M1, t, m, k);
    }
  }

  lemma BlockedPlace(T: Tasks, T1: Tasks, M: Mutexes, M1: Mutexes, t: TaskId, m: MutexId, k: nat)
    requires t < |T| && m < |M| && RaisedTo(T, T1, M, M1, T[t].priority) && T1[t] == T[t]
    requires forall u :: u in M[m].queue && u < |T| ==> QueuedTasks(T1, t, m)[u] == T[u]
    requires k <= |M1[m].queue|
    requires if M[m].attr.TFIFO? then k == |M1[m].queue| else TpriPlace(T1, M1[m].queue, T1[t].priority, k)
    ensures M1[m].queue == M[m].queue
    ensures if M[m].attr.TFIFO? then k == |M[m].queue| else TpriPlace(T, M[m].queue, T[t].priority, k)
  {
    forall u | u in M[m].queue && u < |T| ensures T1[u] == T[u] {
      assert QueuedTasks(T1, t, m)[u] == T[u];
    }
    if !M[m].attr.TFIFO? {
      forall i | 0 <= i < |M[m].queue| ensures T1[M[m].queue[i]] == T[M[m].queue[i]] {
        assert M[m].queue[i] in M[m].queue;
      }
    }
  }

  /** Before t blocks on an inheritance mutex held by o, the demand on o is raised to t's priority. */
  lemma RaiseDemands(T: Tasks, M: Mutexes, o: TaskId, t: TaskId)
    requires o < |T| && t < |T| && T[o].priority < NUM_PRI && Consistent(T, M, NOBODY)
    ensures T[o].priority > T[t].priority ==>
              Pending(T, M, Exempt(o, T[t].priority, -1, -1, -1), o, T[t].priority)
    ensures T[o].priority <= T[t].priority ==> Consistent(T, M, Exempt(o, T[t].priority, -1, -1, -1))
  {
    var ex := Exempt(o, T[t].priority, -1, -1, -1);
    forall u | 0 <= u < |T| && (u != o || T[o].priority <= T[t].priority) ensures AtDemand(T, M, u, ex) {
      assert AtDemand(T, M, u, NOBODY);
    }
    assert AtDemand(T, M, o, NOBODY);
  }

  lemma AvoidsNobody(T: Tasks, M: Mutexes, ex: Exempt, t: TaskId)
    requires ex.d < 0 && ex.g < 0 && ex.dead < 0
    ensures Avoids(T, M, ex, t)
  {
  }

  /** The links do not depend on which task is owed an extra demand. */
  lemma RelinkExempt(T: Tasks, M: Mutexes, ex: Exempt, ex': Exempt)
    requires Linked(T, M, ex) && ex.d == ex'.d && ex.g == ex'.g
    ensures Linked(T, M, ex')
  {
    forall u | 0 <= u < |T| ensures TaskOk(T, M, ex', u) {
      assert TaskOk(T, M, ex, u);
    }
    forall n | 0 <= n < |M| ensures MutexOk(T, M, ex', n) && CeilingOk(T, M, n) {
      assert MutexOk(T, M, ex, n) && CeilingOk(T, M, n);
    }
  }
}
