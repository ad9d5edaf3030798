/**
 The mutex system calls and the priority propagation behind them, over the kernel's two control
 block tables. Each call is one critical section.
 */
module MutexKernel {
  import opened Common
  import opened MutexState
  import opened MutexPropagation
  import opened MutexTransfers
  import opened MutexSteps

  datatype ER = E_OK | E_NOEXS | E_ILUSE | E_DISWAI | E_TMOUT | E_OBJ | WAITING

  class Kernel {
    var tcb: seq<Tcb>
    var mtx: seq<Mtxcb>

    ghost predicate Valid()
      reads this
    {
      Linked(tcb, mtx, NOBODY) && Consistent(tcb, mtx, NOBODY)
    }

    /** queue_insert_tpri: scan for the first task of lower priority and insert before it. */
    method QueueInsertTpri(t: TaskId, m: MutexId) returns (ghost k: nat)
      requires t < |tcb| && m < |mtx| && Sorted(tcb, mtx[m].queue)
      modifies `mtx
      ensures TpriPlace(tcb, old(mtx)[m].queue, tcb[t].priority, k)
      ensures mtx == SetQueue(old(mtx), m, InsertAt(old(mtx)[m].queue, k, t))
    {
      var q := mtx[m].queue;
      var i := 0;
      while i < |q|
        invariant i <= |q|
        invariant forall j :: 0 <= j < i ==> tcb[q[j]].priority <= tcb[t].priority
      {
        if tcb[q[i]].priority > tcb[t].priority {
          break;
        }
        i := i + 1;
      }
      mtx := SetQueue(mtx, m, InsertAt(q, i, t));
      k := i;
    }

    /** gcb_change_priority: move a waiting task to the place of its new priority. */
    method GcbChangePriority(m: MutexId, t: TaskId) returns (ghost k: nat)
      requires t < |tcb| && m < |mtx| && Sorted(tcb, Without(mtx[m].queue, t))
      modifies `mtx
      ensures TpriPlace(tcb, Without(old(mtx)[m].queue, t), tcb[t].priority, k)
      ensures mtx == Moved(old(mtx), m, t, k)
    {
      var mtx0 := mtx;
      mtx := SetQueue(mtx, m, Without(mtx[m].queue, t));
      k := QueueInsertTpri(t, m);
      assert mtx == Moved(mtx0, m, t, k);
    }

    /** change_task_priority. The hook of a task that waits for something other than a mutex does
        not concern the tables here. */
    method ChangeTaskPriority(t: TaskId, p: int, ghost ex: Exempt, ghost fuel: nat)
      requires t < |tcb| && 0 <= p < NUM_PRI
      requires Linked(tcb, mtx, ex) && Pending(tcb, mtx, ex, t, p) && Avoids(tcb, mtx, ex, t)
      requires ex.x >= 0 ==> p < tcb[t].priority
      requires Enough(tcb, tcb[t].priority, p, fuel)
      modifies this
      ensures Linked(tcb, mtx, ex) && Consistent(tcb, mtx, ex)
      ensures Propagated(old(tcb), tcb, old(mtx), mtx, t, p)
      ensures !old(tcb)[t].wait.OnMutex? ==> tcb == SetPriority(old(tcb), t, p) && mtx == old(mtx)
      decreases fuel, 0
    {
      ghost var T0 := tcb;
      assert Follow(tcb, mtx, t, 0) == Some(t);
      assert TaskOk(tcb, mtx, ex, t);
      var oldpri := tcb[t].priority;
      tcb := SetPriority(tcb, t, p);
      TotalUpdate(T0, t, p);
      forall u | 0 <= u < |T0| ensures 0 <= T0[u].priority < NUM_PRI {
        assert TaskOk(T0, mtx, ex, u);
      }
      TotalBounds(T0);
      if tcb[t].wait.OnMutex? && !mtx[tcb[t].wait.m].attr.TFIFO? {
        MtxChgPri(t, oldpri, T0, ex, fuel - 1);
      } else {
        SettleAlone(T0, mtx, ex, t, p);
      }
    }

    /** mtx_chg_pri: the hook run when a task waiting for a mutex has changed priority. */
    method MtxChgPri(t: TaskId, oldpri: int, ghost T0: Tasks, ghost ex: Exempt, ghost fuel: nat)
      requires t < |tcb| == |T0| && tcb == SetPriority(T0, t, tcb[t].priority) && T0[t].priority == oldpri
      requires 0 <= tcb[t].priority < NUM_PRI
      requires Linked(T0, mtx, ex) && Pending(T0, mtx, ex, t, tcb[t].priority) && Avoids(T0, mtx, ex, t)
      requires tcb[t].wait.OnMutex? && tcb[t].wait.m < |mtx| && !mtx[tcb[t].wait.m].attr.TFIFO?
      requires ex.x >= 0 ==> tcb[t].priority < oldpri
      requires tcb[t].priority != oldpri ==> Enough(tcb, oldpri, tcb[t].priority, fuel)
      modifies this
      ensures Linked(tcb, mtx, ex) && Consistent(tcb, mtx, ex)
      ensures Propagated(T0, tcb, old(mtx), mtx, t, old(tcb[t].priority))
      decreases fuel, 3
    {
      ghost var M0 := mtx;
      var m := tcb[t].wait.m;
      assert Follow(T0, mtx, t, 0) == Some(t);
      RestSorted(T0, mtx, ex, t, tcb[t].priority);
      ghost var k := GcbChangePriority(m, t);
      MoveLinks(T0, M0, ex, t, tcb[t].priority, k);
      if mtx[m].attr.INHERIT? {
        NextHolder(T0, M0, ex, t);
        AdjustHolder(t, mtx[m].mtxtsk.value, oldpri, T0, M0, k, ex, fuel);
      } else {
        MoveSettles(T0, M0, ex, t, tcb[t].priority, k);
      }
    }

    /** The second half of mtx_chg_pri: o holds the inheritance mutex that t waits for. */
    method AdjustHolder(t: TaskId, o: TaskId, oldpri: int, ghost T0: Tasks, ghost M0: Mutexes, ghost k: nat,
                        ghost ex: Exempt, ghost fuel: nat)
      requires t < |tcb| == |T0| && tcb == SetPriority(T0, t, tcb[t].priority) && T0[t].priority == oldpri
      requires Moves(T0, M0, ex, t, tcb[t].priority, k) && mtx == Moved(M0, T0[t].wait.m, t, k)
      requires Pending(T0, M0, ex, t, tcb[t].priority)
      requires Linked(tcb, mtx, ex) && SameLinks(T0, tcb, M0, mtx)
      requires NextOwner(T0, M0, t) == Some(o) && o < |tcb| && o != t && o != ex.dead && Avoids(T0, M0, ex, o)
      requires ex.x >= 0 ==> tcb[t].priority < oldpri
      requires tcb[t].priority != oldpri ==> Enough(tcb, oldpri, tcb[t].priority, fuel)
      modifies this
      ensures Linked(tcb, mtx, ex) && Consistent(tcb, mtx, ex)
      ensures Propagated(T0, tcb, M0, mtx, t, old(tcb[t].priority))
      decreases fuel, 2
    {
      ghost var T1 := tcb;
      ghost var M1 := mtx;
      ghost var p := tcb[t].priority;
      hide Linked, Avoids, Pending, Propagated, Moves, SameLinks, SameWaits, Moved, NextOwner, Consistent;
      MoveStart(T0, M0, ex, t, p, k, o);
      if tcb[o].priority > tcb[t].priority {
        MoveRaises(T0, M0, ex, t, p, k, o);
        ChangeTaskPriority(o, tcb[t].priority, ex, fuel);
        PropagatedTwice(T0, T1, tcb, M0, M1, mtx, t, p, o, p);
      } else {
        MoveRest(T0, M0, ex, t, p, k, o);
        MoveOthersAll(T0, M0, ex, t, p, k, o);
        if tcb[o].priority == oldpri {
          ghost var p' := ReleaseMutex(o, None, ex, fuel);
          if AtDemand(T1, M1, o, ex) {
            DemandUnique(T1, M1, o, p', T1[o].priority, NUM_PRI);
          }
          PropagatedTwice(T0, T1, tcb, M0, M1, mtx, t, p, o, p');
        }
      }
    }

    /** release_mutex: take relmtx, if any, off o's list and give o the highest priority that its
        base priority and its remaining mutexes ask for. reset_priority is the call without relmtx.
        The current priority is assumed to be no less urgent than the new one, as at every call. */
    method ReleaseMutex(o: TaskId, relmtx: Option<MutexId>, ghost ex: Exempt, ghost fuel: nat)
      returns (ghost newp: int)
      requires o < |tcb| && o != ex.dead && ex.x < 0
      requires Linked(tcb, mtx, if relmtx.None? then ex else ex.(d := -1))
      requires relmtx.Some? ==> ex.d == relmtx.value && relmtx.value in tcb[o].mtxlist
      requires forall u :: 0 <= u < |tcb| && u != o ==> AtDemand(tcb, mtx, u, ex)
      requires tcb[o].priority <= tcb[o].bpriority
      requires forall m :: m in tcb[o].mtxlist && Some(m) != relmtx ==> tcb[o].priority <= Term(tcb, mtx, m)
      requires (relmtx.None? && AtDemand(tcb, mtx, o, ex)) || fuel > NUM_PRI * |tcb| - Total(tcb)
      requires Avoids(tcb, mtx, ex, o)
      modifies this
      ensures Linked(tcb, mtx, ex) && Consistent(tcb, mtx, ex)
      ensures Meets(Dropped(old(tcb), o, relmtx), old(mtx), o, newp, NUM_PRI) && newp >= old(tcb)[o].priority
      ensures Propagated(Dropped(old(tcb), o, relmtx), tcb, old(mtx), mtx, o, newp)
      ensures !old(tcb)[o].wait.OnMutex? ==>
                tcb == SetPriority(Dropped(old(tcb), o, relmtx), o, newp) && mtx == old(mtx)
      ensures newp == old(tcb)[o].priority ==> tcb == Dropped(old(tcb), o, relmtx) && mtx == old(mtx)
      decreases fuel, 1
    {
      hide CeilingOk, Sorted, Without, Avoids, MutexOk;
      ghost var T0 := tcb;
      ghost var ex0 := if relmtx.None? then ex else ex.(d := -1);
      var newpri := ScanMutexList(o, relmtx, ex0);
      newp := newpri;
      ghost var T1 := tcb;
      DropDemands(T0, mtx, ex, o, relmtx);
      AvoidsSame(T0, T1, mtx, mtx, ex, o);
      TotalSame(T0, T1);
      assert 0 <= newpri < NUM_PRI by {
        assert TaskOk(T0, mtx, ex0, o);
      }
      if newpri != tcb[o].priority {
        ChangeTaskPriority(o, newpri, ex, fuel);
      }
    }

    /** The switch in the loops of release_mutex and chg_pri_mutex: a mutex that asks for nothing
        leaves pri as it was for the mutex before. */
    method MutexPri(m: MutexId, pri: int) returns (p: int)
      requires Readable(tcb, mtx, m)
      ensures if Term(tcb, mtx, m) < NUM_PRI then p == Term(tcb, mtx, m) else p == pri
    {
      p := pri;
      match mtx[m].attr {
        case CEILING =>
          p := mtx[m].ceilpri;
        case INHERIT =>
          if |mtx[m].queue| > 0 {
            p := tcb[mtx[m].queue[0]].priority;
          }
        case TFIFO =>
        case TPRI =>
      }
    }

    /** The loop of release_mutex: unlink relmtx and find the highest priority demanded of o. */
    method ScanMutexList(o: TaskId, relmtx: Option<MutexId>, ghost ex: Exempt) returns (newpri: int)
      requires o < |tcb| && Linked(tcb, mtx, ex)
      modifies `tcb
      ensures tcb == Dropped(old(tcb), o, relmtx)
      ensures Meets(tcb, mtx, o, newpri, NUM_PRI)
    {
      hide *;
      ghost var T0 := tcb;
      ReadableLists(T0, mtx, ex, o);
      ScanStart(T0, mtx, o, relmtx);
      newpri := tcb[o].bpriority;
      var pri := newpri;
      var list := tcb[o].mtxlist;
      var i := 0;
      ghost var w := -1;  // where the mutex is that newpri comes from
      ghost var cut := false;
      while i < |list|
        invariant i <= |list|
        invariant Scanned(T0, mtx, list, i, T0[o].bpriority, newpri, w) && newpri <= pri < NUM_PRI
        invariant Unlinking(T0, tcb, o, relmtx, list, i, cut)
        decreases |list| - i
      {
        var m := list[i];
        if Some(m) == relmtx {
          ScanCut(T0, mtx, list, i, T0[o].bpriority, newpri, w);
          UnlinkHere(T0, tcb, o, m, list, i, cut);
          list := list[..i] + list[i + 1..];
          tcb := tcb[o := tcb[o].(mtxlist := list)];
          cut := true;
        } else {
          UnlinkNext(T0, tcb, o, relmtx, list, i, cut);
          DropTerm(T0, mtx, o, relmtx, m);
          pri := MutexPri(m, pri);
          ScanStep(T0, mtx, list, i, T0[o].bpriority, newpri, w, pri);
          if newpri > pri {
            newpri := pri;
            w := i;
          }
          i := i + 1;
        }
      }
      ScanResult(T0, tcb, mtx, ex, o, relmtx, list, cut, newpri, w);
    }

    // -------------------------------------------------------------- system calls

    /** The state after initialization: control blocks exist, tasks and mutexes do not. */
    constructor (ntask: nat, nmutex: nat)
      ensures Valid() && |tcb| == ntask && |mtx| == nmutex
      ensures forall t :: 0 <= t < ntask ==> tcb[t].state == NonExistent
      ensures forall m :: 0 <= m < nmutex ==> !mtx[m].registered
    {
      tcb := seq(ntask, _ => Tcb(NonExistent, 0, 0, 0, NoWait, []));
      mtx := seq(nmutex, _ => Mtxcb(false, TFIFO, 0, None, []));
      new;
      forall u | 0 <= u < |tcb| ensures AtDemand(tcb, mtx, u, NOBODY) {
        assert tcb[u] == Tcb(NonExistent, 0, 0, 0, NoWait, []);
      }
    }

    /** The part of unlock and of termination that passes mutex m on to its first waiting task. */
    method HandOver(m: MutexId, ghost ex: Exempt)
      requires m < |mtx| && ex.d == m && ex.x < 0 && mtx[m].registered
      requires Linked(tcb, mtx, ex) && Consistent(tcb, mtx, ex)
      requires ex.dead >= 0 && ex.dead < |tcb| && tcb[ex.dead].wait.OnMutex? ==> ex.g == ex.dead
      requires forall w :: w in mtx[m].queue && w < |tcb| ==> tcb[w].state.Alive?
      modifies this
      ensures Linked(tcb, mtx, ex.(d := -1)) && Consistent(tcb, mtx, ex.(d := -1))
      ensures Passed(old(tcb), tcb, old(mtx), mtx, m)
    {
      ghost var T0, M0 := tcb, mtx;
      var q := mtx[m].queue;
      if |q| == 0 {
        FreeLinks(tcb, mtx, ex, m);
        FreeDemands(tcb, mtx, ex, m, None);
        mtx := SetHolder(mtx, m, None);
        return;
      }
      var w := q[0];
      assert MutexOk(T0, M0, ex, m) && CeilingOk(T0, M0, m);
      assert w in M0[m].queue;
      LeaveLinks(T0, M0, ex, w, true);
      LeaveAllDemands(T0, M0, ex, w);
      LeaveTerm(T0, M0, ex, w, true, m);
      // wait_release_ok
      tcb := LeftTasks(tcb, w, true);
      mtx := SetQueue(mtx, m, Without(q, w));
      ghost var T1, M1 := tcb, mtx;
      TakeLinks(T1, M1, ex, w, m);
      TakeDemands(T1, M1, ex, w, m);
      mtx := SetHolder(mtx, m, Some(w));
      tcb := TakenTasks(tcb, w, m);
      RaiseNewHolder(w, m, T1, M1, ex);
    }

    /** The new holder w of a ceiling mutex m is raised to the ceiling if it runs below it. */
    method RaiseNewHolder(w: TaskId, m: MutexId, ghost T1: Tasks, ghost M1: Mutexes, ghost ex: Exempt)
      requires CanTake(T1, M1, ex, w, m) && w != ex.dead && ex.x < 0
      requires tcb == TakenTasks(T1, w, m) && mtx == SetHolder(M1, m, Some(w))
      requires Linked(tcb, mtx, ex.(d := -1)) && Pending(tcb, mtx, ex.(d := -1), w, TakenPriority(T1, M1, w, m))
      modifies this
      ensures Linked(tcb, mtx, ex.(d := -1)) && Consistent(tcb, mtx, ex.(d := -1))
      ensures mtx == old(mtx) && tcb == SetPriority(old(tcb), w, TakenPriority(T1, M1, w, m))
    {
      assert TaskOk(T1, M1, ex, w) && MutexOk(T1, M1, ex, m);
      if mtx[m].attr.CEILING? && tcb[w].priority > mtx[m].ceilpri {
        AvoidsIdle(tcb, mtx, ex.(d := -1), w);
        ghost var fuel := Fuel();
        ChangeTaskPriority(w, mtx[m].ceilpri, ex.(d := -1), fuel);
      }
    }

    /** Enough fuel for any propagation from here. */
    ghost function Fuel(): (f: nat)
      reads this
      ensures f > Total(tcb) && f > NUM_PRI * |tcb| - Total(tcb)
    {
      var a := Total(tcb);
      var b := NUM_PRI * |tcb| - Total(tcb);
      1 + (if a > 0 then a else 0) + (if b > 0 then b else 0)
    }

    /** _tk_loc_mtx_u, called by task t. */
    method LocMtx(t: TaskId, m: MutexId, poll: bool, diswai: bool) returns (r: ER)
      requires Valid() && Running(tcb, t) && m < |mtx|
      modifies this
      ensures Valid()
      ensures r == E_NOEXS <==> !old(mtx)[m].registered
      ensures r == E_ILUSE <==> (
                && old(mtx)[m].registered
                && (|| old(mtx)[m].mtxtsk == Some(t)
                    || (old(mtx)[m].attr.CEILING? && old(tcb)[t].bpriority < old(mtx)[m].ceilpri)))
      ensures r == E_DISWAI ==> diswai
      ensures r == E_OK ==> !diswai && old(mtx)[m].mtxtsk == None
      ensures r == E_TMOUT || r == WAITING ==>
                !diswai && old(mtx)[m].mtxtsk.Some? && (r == E_TMOUT <==> poll)
      ensures r == E_OBJ ==> false
      ensures r != E_OK && r != WAITING ==> tcb == old(tcb) && mtx == old(mtx)
      ensures r == E_OK ==> (
                && |tcb| == |old(tcb)| && mtx == old(mtx)[m := old(mtx)[m].(mtxtsk := Some(t))]
                && tcb == old(tcb)[t := old(tcb)[t].(mtxlist := [m] + old(tcb)[t].mtxlist, priority := tcb[t].priority)]
                && tcb[t].priority == if old(mtx)[m].attr.CEILING? && old(tcb)[t].priority > old(mtx)[m].ceilpri
                                      then old(mtx)[m].ceilpri else old(tcb)[t].priority)
      ensures r == WAITING ==> Blocked(old(tcb), tcb, old(mtx), mtx, t, m)
    {
      if !mtx[m].registered {
        return E_NOEXS;
      }
      if mtx[m].mtxtsk == Some(t) {
        return E_ILUSE;
      }
      if mtx[m].attr.CEILING? && tcb[t].bpriority < mtx[m].ceilpri {
        return E_ILUSE;
      }
      if diswai {
        return E_DISWAI;
      }
      if mtx[m].mtxtsk.None? {
        ghost var T0, M0 := tcb, mtx;
        assert MutexOk(T0, M0, NOBODY, m) && TaskOk(T0, M0, NOBODY, t);
        TakeLinks(T0, M0, NOBODY, t, m);
        TakeDemands(T0, M0, NOBODY, t, m);
        mtx := SetHolder(mtx, m, Some(t));
        tcb := TakenTasks(tcb, t, m);
        RaiseNewHolder(t, m, T0, M0, NOBODY);
        return E_OK;
      }
      if poll {
        return E_TMOUT;
      }
      BlockOn(t, m);
      return WAITING;
    }

    /** QueInsert, or queue_insert_tpri unless the mutex is TA_TFIFO. */
    method JoinQueue(t: TaskId, m: MutexId) returns (ghost k: nat)
      requires t < |tcb| && m < |mtx| && Linked(tcb, mtx, NOBODY)
      modifies `mtx
      ensures k <= |old(mtx)[m].queue| && mtx == SetQueue(old(mtx), m, InsertAt(old(mtx)[m].queue, k, t))
      ensures if mtx[m].attr.TFIFO? then k == |old(mtx)[m].queue|
              else TpriPlace(tcb, old(mtx)[m].queue, tcb[t].priority, k)
    {
      if mtx[m].attr.TFIFO? {
        k := |mtx[m].queue|;
        mtx := SetQueue(mtx, m, mtx[m].queue + [t]);
        assert mtx[m].queue == InsertAt(old(mtx)[m].queue, k, t);
      } else {
        assert MutexOk(tcb, mtx, NOBODY, m);
        k := QueueInsertTpri(t, m);
      }
    }

    /** The end of _tk_loc_mtx_u: raise the holder of an inheritance mutex, then wait. */
    method BlockOn(t: TaskId, m: MutexId)
      requires Valid() && Running(tcb, t) && m < |mtx| && mtx[m].registered
      requires mtx[m].mtxtsk.Some? && mtx[m].mtxtsk != Some(t)
      requires mtx[m].attr.CEILING? ==> tcb[t].bpriority >= mtx[m].ceilpri
      modifies this
      ensures Valid()
      ensures Blocked(old(tcb), tcb, old(mtx), mtx, t, m)
    {
      hide Linked, Consistent, Pending, Avoids, Propagated, RaisedTo, Blocked, TpriPlace, InsertAt, Meets;
      ghost var T0, M0 := tcb, mtx;
      CanBlock(T0, M0, t, m);
      NotRaised(T0, M0, T0[t].priority);
      var o := mtx[m].mtxtsk.value;
      if mtx[m].attr.INHERIT? {
        ghost var ex := Exempt(o, tcb[t].priority, -1, -1, -1);
        RaiseDemands(T0, M0, o, t);
        RelinkExempt(tcb, mtx, NOBODY, ex);
        if tcb[o].priority > tcb[t].priority {
          AvoidsNobody(T0, M0, ex, o);
          ghost var fuel := Fuel();
          ChangeTaskPriority(o, tcb[t].priority, ex, fuel);
          Raised(T0, tcb, M0, mtx, o, T0[t].priority);
        }
        RelinkExempt(tcb, mtx, ex, NOBODY);
      }
      ghost var T1, M1 := tcb, mtx;
      RaisedSame(T0, T1, M0, M1, T0[t].priority, t, m);
      ghost var k := JoinQueue(t, m);
      tcb := QueuedTasks(tcb, t, m);
      QueueLinks(T1, M1, t, m, k);
      QueueDemands(T1, M1, t, m, k);
      BlockedAfter(T0, T1, M0, M1, t, m, k);
    }

    /** _tk_unl_mtx, called by task t. */
    method UnlMtx(t: TaskId, m: MutexId) returns (r: ER)
      requires Valid() && Running(tcb, t) && m < |mtx|
      modifies this
      ensures Valid()
      ensures r == E_NOEXS <==> !old(mtx)[m].registered
      ensures r == E_ILUSE <==> old(mtx)[m].registered && old(mtx)[m].mtxtsk != Some(t)
      ensures r in {E_OK, E_NOEXS, E_ILUSE}
      ensures r != E_OK ==> tcb == old(tcb) && mtx == old(mtx)
      ensures r == E_OK ==> (exists p :: (
                && Meets(Dropped(old(tcb), t, Some(m)), old(mtx), t, p, NUM_PRI)
                && Passed(SetPriority(Dropped(old(tcb), t, Some(m)), t, p), tcb, old(mtx), mtx, m)))
    {
      if !mtx[m].registered {
        return E_NOEXS;
      }
      if mtx[m].mtxtsk != Some(t) {
        return E_ILUSE;
      }
      ghost var ex := NOBODY.(d := m);
      ghost var T0, M0 := tcb, mtx;
      assert MutexOk(T0, M0, NOBODY, m) && AtDemand(T0, M0, t, NOBODY);
      RelinkExempt(tcb, mtx, NOBODY, ex.(d := -1));
      SameTermsConsistent(tcb, mtx, mtx, NOBODY, ex);
      AvoidsIdle(tcb, mtx, ex, t);
      ghost var fuel := Fuel();
      ghost var p := ReleaseMutex(t, Some(m), ex, fuel);
      assert tcb == SetPriority(Dropped(T0, t, Some(m)), t, p) && mtx == M0;
      QueueAlive(T0, M0, NOBODY, m);
      ghost var T1 := tcb;
      HandOver(m, ex);
      assert Passed(T1, tcb, M0, mtx, m);
      return E_OK;
    }

    /** mtx_rel_wai: t has left the queue of mutex m, whose holder may have inherited from it. */
    method MtxRelWai(t: TaskId, m: MutexId, ghost T0: Tasks, ghost M0: Mutexes, ghost released: bool)
      requires CanLeave(T0, M0, NOBODY, t, released) && T0[t].wait.m == m
      requires Consistent(T0, M0, NOBODY)
      requires !released ==> !OnCycle(T0, M0, t)
      requires tcb == LeftTasks(T0, t, released) && mtx == SetQueue(M0, m, Without(M0[m].queue, t))
      requires M0[m].attr.INHERIT? && M0[m].registered
      modifies this
      ensures Linked(tcb, mtx, LeftExempt(NOBODY, t, released))
      ensures Consistent(tcb, mtx, LeftExempt(NOBODY, t, released))
      ensures LoweredFrom(old(tcb), tcb, old(mtx), mtx)
    {
      hide TaskOk, MutexOk, CeilingOk, Sorted, Without, Meets, Avoids;
      ghost var ex := LeftExempt(NOBODY, t, released);
      ghost var T1, M1 := tcb, mtx;
      AvoidsNobody(T0, M0, NOBODY, t);
      NextHolder(T0, M0, NOBODY, t);
      LeaveLinks(T0, M0, NOBODY, t, released);
      var o := mtx[m].mtxtsk.value;
      LeaveOthers(T0, M0, t, released, o);
      if tcb[o].priority == tcb[t].priority {
        if released {
          AvoidsNobody(T1, M1, ex, o);
        } else {
          AvoidsAcyclic(T0, M0, t, o);
          AvoidsSame(T0, T1, M0, M1, ex, o);
        }
        ghost var fuel := Fuel();
        ghost var p := ReleaseMutex(o, None, ex, fuel);
      } else {
        assert AtDemand(T1, M1, o, ex);
      }
    }

    /** A waiting task t gives up its mutex: its timeout has come or its wait is released by force. */
    method ReleaseWait(t: TaskId)
      requires Valid() && t < |tcb| && tcb[t].wait.OnMutex?
      modifies this
      ensures Valid()
      ensures LoweredFrom(LeftTasks(old(tcb), t, true), tcb, LeftMutexes(old(tcb), old(mtx), t), mtx)
      // the task waits no more and stands in no queue; nobody else changes but in priority
      ensures |tcb| == |old(tcb)| && |mtx| == |old(mtx)|
      ensures tcb[t] == old(tcb)[t].(wait := NoWait, priority := tcb[t].priority)
      ensures forall m :: 0 <= m < |mtx| ==> t !in mtx[m].queue
      ensures forall u :: 0 <= u < |tcb| && u != t ==> tcb[u] == old(tcb)[u].(priority := tcb[u].priority)
      ensures forall m, u :: 0 <= m < |mtx| && u != t ==> (u in mtx[m].queue <==> u in old(mtx)[m].queue)
    {
      ghost var T0, M0 := tcb, mtx;
      assert TaskOk(T0, M0, NOBODY, t);
      var m := tcb[t].wait.m;
      LeaveLinks(T0, M0, NOBODY, t, true);
      mtx := SetQueue(mtx, m, Without(mtx[m].queue, t));
      tcb := LeftTasks(tcb, t, true);
      if mtx[m].attr.INHERIT? {
        MtxRelWai(t, m, T0, M0, true);
      } else {
        LeaveUninherited(T0, M0, t, true);
      }
      WaitGivenUp(T0, tcb, M0, mtx, t);
    }

    /** chg_pri_mutex: what the mutexes t holds or waits for make of a wish for the given base priority. */
    method ChgPriMutex(t: TaskId, priority: int) returns (r: ER, hi: int)
      requires Valid() && t < |tcb| && 0 <= priority < NUM_PRI
      ensures r == if CeilingForbids(tcb, mtx, t, priority) then E_ILUSE else E_OK
      ensures Meets(SetBase(tcb, t, priority), mtx, t, hi, NUM_PRI)
    {
      hide Linked, Consistent, Scanned, LowScanned, Meets, CeilingForbids, Readable;
      AwaitedMutex(tcb, mtx, t);
      hi := priority;
      var low := 0;
      if tcb[t].wait.OnMutex? {
        var m := tcb[t].wait.m;
        if mtx[m].attr.CEILING? && mtx[m].ceilpri > low {
          low := mtx[m].ceilpri;
        }
      }
      ghost var low0 := low;
      var pri := hi;
      var i := 0;
      var list := tcb[t].mtxlist;
      ghost var w := -1;
      ReadableLists(tcb, mtx, NOBODY, t);
      ScansStart(tcb, mtx, list, priority, low);
      while i < |list|
        invariant i <= |list|
        invariant Scanned(tcb, mtx, list, i, priority, hi, w) && hi <= pri < NUM_PRI
        invariant LowScanned(mtx, list, i, low0, low)
      {
        hide *;
        var m := list[i];
        assert m in list && m < |mtx|;
        pri := MutexPri(m, pri);
        CeilingPri(tcb, mtx, m);
        ScanStep(tcb, mtx, list, i, priority, hi, w, pri);
        LowStep(mtx, list, i, low0, low);
        if mtx[m].attr.CEILING? && pri > low {
          low := pri;
        }
        if pri < hi {
          hi := pri;
          w := i;
        }
        i := i + 1;
      }
      ScanBase(tcb, mtx, t, priority, hi, w);
      LowResult(tcb, mtx, t, low0, low, priority);
      r := if priority < low then E_ILUSE else E_OK;
    }

    /** _tk_chg_pri. */
    method ChgPri(t: TaskId, priority: int) returns (r: ER)
      requires Valid() && t < |tcb| && 0 <= priority < NUM_PRI
      modifies this
      ensures Valid()
      ensures r == E_NOEXS <==> old(tcb)[t].state.NonExistent?
      ensures r == E_ILUSE <==> (
                !old(tcb)[t].state.NonExistent? && CeilingForbids(old(tcb), old(mtx), t, priority))
      ensures r in {E_OK, E_NOEXS, E_ILUSE}
      ensures r != E_OK ==> tcb == old(tcb) && mtx == old(mtx)
      // the base priority is the new one; nobody changes otherwise but in priority
      ensures r == E_OK ==>
                && |tcb| == |old(tcb)|
                && tcb[t] == old(tcb)[t].(bpriority := priority, priority := tcb[t].priority)
                && forall u :: 0 <= u < |tcb| && u != t ==> tcb[u] == old(tcb)[u].(priority := tcb[u].priority)
      ensures r == E_OK ==> (exists p :: (
                && Meets(SetBase(old(tcb), t, priority), old(mtx), t, p, NUM_PRI)
                && Propagated(SetBase(old(tcb), t, priority), tcb, old(mtx), mtx, t, p)))
    {
      if tcb[t].state.NonExistent? {
        return E_NOEXS;
      }
      ghost var T0 := tcb;
      var hi;
      r, hi := ChgPriMutex(t, priority);
      if r != E_OK {
        return;
      }
      BaseLinks(tcb, mtx, t, priority);
      BaseDemands(tcb, mtx, t, priority, hi);
      assert TaskOk(T0, mtx, NOBODY, t);
      DemandBounds(T0, mtx, t, priority, hi);
      tcb := SetBase(tcb, t, priority);
      AvoidsNobody(tcb, mtx, NOBODY, t);
      ghost var fuel := Fuel();
      ChangeTaskPriority(t, hi, NOBODY, fuel);
    }

    /** One round of signal_all_mutex: take the first mutex off the ending task's list and pass it on. */
    method SignalOne(t: TaskId, m: MutexId, ghost g: int)
      requires t < |tcb| && tcb[t].state.Alive? && (tcb[t].wait.OnMutex? ==> g == t) && (g == t || g < 0)
      requires Linked(tcb, mtx, Exempt(-1, NUM_PRI, -1, g, t))
      requires Consistent(tcb, mtx, Exempt(-1, NUM_PRI, -1, g, t))
      requires |tcb[t].mtxlist| > 0 && tcb[t].mtxlist[0] == m
      modifies this
      ensures Linked(tcb, mtx, Exempt(-1, NUM_PRI, -1, g, t))
      ensures Consistent(tcb, mtx, Exempt(-1, NUM_PRI, -1, g, t))
      ensures |tcb| == |old(tcb)| && |mtx| == |old(mtx)| && m < |mtx|
      ensures tcb[t] == old(tcb)[t].(mtxlist := old(tcb)[t].mtxlist[1..])
      ensures forall u :: 0 <= u < |tcb| && u != t ==> Inherits(old(tcb)[u], tcb[u], [m])
      ensures mtx == old(mtx)[m := mtx[m]] && PassedOn(old(mtx)[m], mtx[m])
    {
      ghost var ex := Exempt(-1, NUM_PRI, m, g, t);
      ghost var T0, M0 := tcb, mtx;
      assert m in tcb[t].mtxlist && TaskOk(T0, M0, ex.(d := -1), t) && MutexOk(T0, M0, ex.(d := -1), m);
      forall u | 0 <= u < |T0| ensures AtDemand(T0, M0, u, ex) {
        assert AtDemand(T0, M0, u, ex.(d := -1));
      }
      DropDemands(T0, M0, ex, t, Some(m));
      assert Without(T0[t].mtxlist, m) == T0[t].mtxlist[1..];
      tcb := tcb[t := tcb[t].(mtxlist := tcb[t].mtxlist[1..])];
      assert tcb == Dropped(T0, t, Some(m));
      QueueAlive(tcb, mtx, ex, m);
      ghost var T1 := tcb;
      assert MutexOk(T1, M0, ex, m);
      assert |M0[m].queue| > 0 ==> M0[m].queue[0] in M0[m].queue;
      HandOver(m, ex);
    }

    /** signal_all_mutex: pass on all mutexes of the ending task t. */
    method SignalAllMutex(t: TaskId, ghost g: int)
      requires t < |tcb| && tcb[t].state.Alive? && (tcb[t].wait.OnMutex? ==> g == t) && (g == t || g < 0)
      requires Linked(tcb, mtx, Exempt(-1, NUM_PRI, -1, g, t))
      requires Consistent(tcb, mtx, Exempt(-1, NUM_PRI, -1, g, t))
      modifies this
      ensures Linked(tcb, mtx, Exempt(-1, NUM_PRI, -1, g, t))
      ensures Consistent(tcb, mtx, Exempt(-1, NUM_PRI, -1, g, t))
      ensures |tcb| == |old(tcb)| && |mtx| == |old(mtx)|
      ensures tcb[t] == old(tcb)[t].(mtxlist := [])
      ensures forall u :: 0 <= u < |tcb| && u != t ==> Inherits(old(tcb)[u], tcb[u], old(tcb)[t].mtxlist)
      ensures forall m :: 0 <= m < |mtx| ==> if m in old(tcb)[t].mtxlist then PassedOn(old(mtx)[m], mtx[m])
              else mtx[m] == old(mtx)[m]
    {
      ghost var T0, M0 := tcb, mtx;
      ghost var ex := Exempt(-1, NUM_PRI, -1, g, t);
      ghost var list := tcb[t].mtxlist;
      assert TaskOk(T0, M0, ex, t);
      ghost var i := 0;
      while |tcb[t].mtxlist| > 0
        invariant |tcb| == |T0| && |mtx| == |M0| && i <= |list|
        invariant Linked(tcb, mtx, ex) && Consistent(tcb, mtx, ex)
        invariant tcb[t] == T0[t].(mtxlist := list[i..])
        invariant forall u :: 0 <= u < |tcb| && u != t ==> Inherits(T0[u], tcb[u], list[..i])
        invariant forall m :: 0 <= m < |mtx| ==> if m in list[..i] then PassedOn(M0[m], mtx[m]) else mtx[m] == M0[m]
        decreases |list| - i
      {
        var m := tcb[t].mtxlist[0];
        ghost var T1, M1 := tcb, mtx;
        assert TaskOk(T1, M1, ex, t) && m == list[i];
        SignalOne(t, m, g);
        SignalStep(T0, T1, tcb, M0, M1, mtx, t, list, i);
        i := i + 1;
      }
    }

    /** _ter_tsk and make_dormant: end task t. A task on a cycle of the waits-for relation is
        excluded: the release hook would come round to the half-removed task itself. */
    method TerTsk(t: TaskId)
      requires Valid() && t < |tcb| && tcb[t].state.Alive?
      requires !OnCycle(tcb, mtx, t)
      modifies this
      ensures Valid()
      ensures |tcb| == |old(tcb)| && |mtx| == |old(mtx)|
      // dormant, with no wait and no mutex left, and at its initial priority whatever tk_chg_pri made of it
      ensures tcb[t].state.Dormant? && tcb[t].wait.NoWait? && tcb[t].mtxlist == []
      ensures tcb[t].priority == tcb[t].bpriority == tcb[t].ipriority == old(tcb)[t].ipriority
      ensures forall u :: 0 <= u < |tcb| && u != t ==> Survives(old(tcb)[u], tcb[u], old(tcb)[t].mtxlist)
      ensures forall m :: 0 <= m < |mtx| ==> MutexAfterEnd(old(mtx)[m], mtx[m], m in old(tcb)[t].mtxlist, t)
    {
      ghost var T0 := tcb;
      ghost var g := Finalize(t);
      hide Survives, MutexAfterEnd, Linked, Consistent;
      DormantLinks(tcb, mtx, t, g);
      DormantDemands(tcb, mtx, t, g);
      assert tcb[t] == T0[t].(mtxlist := [], priority := tcb[t].priority);
      tcb := DormantTasks(tcb, t);
    }

    /** _ter_tsk: the ending task t leaves its wait and passes on its mutexes. */
    method Finalize(t: TaskId) returns (ghost g: int)
      requires Valid() && t < |tcb| && tcb[t].state.Alive?
      requires !OnCycle(tcb, mtx, t)
      modifies this
      ensures |tcb| == |old(tcb)| && |mtx| == |old(mtx)|
      ensures tcb[t] == old(tcb)[t].(mtxlist := [], priority := tcb[t].priority)
      ensures (g == t || g < 0) && (tcb[t].wait.OnMutex? ==> g == t)
      ensures Linked(tcb, mtx, Exempt(-1, NUM_PRI, -1, g, t)) && Consistent(tcb, mtx, Exempt(-1, NUM_PRI, -1, g, t))
      ensures forall u :: 0 <= u < |tcb| && u != t ==> Survives(old(tcb)[u], tcb[u], old(tcb)[t].mtxlist)
      ensures forall m :: 0 <= m < |mtx| ==> MutexAfterEnd(old(mtx)[m], mtx[m], m in old(tcb)[t].mtxlist, t)
    {
      ghost var T0, M0 := tcb, mtx;
      g := -1;
      LeftQueues(T0, M0, t);
      if tcb[t].wait.OnMutex? {
        g := t;
        CancelWait(t);
      }
      ghost var T1, M1 := tcb, mtx;
      EndingExempt(tcb, mtx, g, t);
      assert T1[t] == T0[t].(priority := T1[t].priority);
      assert forall u :: 0 <= u < |T0| ==> T1[u] == T0[u].(priority := T1[u].priority);
      hide Linked, Consistent;
      SignalAllMutex(t, g);
      EndInTwoSteps(T0, T1, tcb, M0, M1, mtx, t);
    }

    /** wait_cancel and the release hook for an ending task t, which stays marked as waiting. */
    method CancelWait(t: TaskId)
      requires Valid() && t < |tcb| && tcb[t].state.Alive? && tcb[t].wait.OnMutex?
      requires !OnCycle(tcb, mtx, t)
      modifies this
      ensures Linked(tcb, mtx, NOBODY.(g := t)) && Consistent(tcb, mtx, NOBODY.(g := t))
      ensures LoweredFrom(old(tcb), tcb, LeftMutexes(old(tcb), old(mtx), t), mtx)
    {
      ghost var T0, M0 := tcb, mtx;
      assert TaskOk(T0, M0, NOBODY, t);
      var m := tcb[t].wait.m;
      LeaveLinks(T0, M0, NOBODY, t, false);
      mtx := SetQueue(mtx, m, Without(mtx[m].queue, t));
      if mtx[m].attr.INHERIT? {
        MtxRelWai(t, m, T0, M0, false);
      } else {
        LeaveUninherited(T0, M0, t, false);
      }
    }

    /** wait_delete: release every task waiting for mutex m, which nobody has in its list any more. */
    method WaitDelete(m: MutexId)
      requires m < |mtx| && Linked(tcb, mtx, NOBODY.(d := m)) && Consistent(tcb, mtx, NOBODY.(d := m))
      modifies this
      ensures Linked(tcb, mtx, NOBODY.(d := m)) && Consistent(tcb, mtx, NOBODY.(d := m))
      ensures mtx == SetQueue(old(mtx), m, [])
      ensures |tcb| == |old(tcb)|
      ensures forall u :: 0 <= u < |tcb| ==>
                tcb[u] == if u in old(mtx)[m].queue then old(tcb)[u].(wait := NoWait) else old(tcb)[u]
    {
      ghost var T0, M0 := tcb, mtx;
      ghost var q := mtx[m].queue;
      ghost var i := 0;
      assert q[0..] == q && mtx == SetQueue(M0, m, q);
      WaitersDistinct(T0, M0, m);
      while |mtx[m].queue| > 0
        invariant i <= |q| && mtx == SetQueue(M0, m, q[i..])
        invariant Linked(tcb, mtx, NOBODY.(d := m)) && Consistent(tcb, mtx, NOBODY.(d := m))
        invariant ReleasedSoFar(T0, tcb, q[..i])
        decreases |q| - i
      {
        hide Linked, Consistent, ReleasedSoFar, Without, LeftTasks;
        var w := mtx[m].queue[0];
        assert w == q[i];
        ReleaseFirst(tcb, mtx, m);
        ReleasedOneMore(T0, tcb, q, i);
        tcb := LeftTasks(tcb, w, true);
        mtx := SetQueue(mtx, m, mtx[m].queue[1..]);
        i := i + 1;
      }
      assert q[..i] == q;
    }

    /** _tk_del_mtx. A holder on a cycle of the waits-for relation is excluded: its loss of urgency
        would come round through the mutex that is being deleted. */
    method DelMtx(m: MutexId) returns (r: ER)
      requires Valid() && m < |mtx|
      requires mtx[m].registered && mtx[m].mtxtsk.Some? ==> !OnCycle(tcb, mtx, mtx[m].mtxtsk.value)
      modifies this
      ensures Valid()
      ensures r == if old(mtx)[m].registered then E_OK else E_NOEXS
      ensures r == E_NOEXS ==> tcb == old(tcb) && mtx == old(mtx)
      ensures r == E_OK ==> (
                && |tcb| == |old(tcb)| && |mtx| == |old(mtx)|
                && !mtx[m].registered && mtx[m].queue == []
                && (forall n :: 0 <= n < |mtx| && n != m ==>
                      && mtx[n] == old(mtx)[n].(queue := mtx[n].queue)
                      && multiset(mtx[n].queue) == multiset(old(mtx)[n].queue)
                      && (mtx[n].attr.TFIFO? ==> mtx[n].queue == old(mtx)[n].queue))
                && (forall u :: 0 <= u < |tcb| ==>
                      && tcb[u].bpriority == old(tcb)[u].bpriority && tcb[u].priority >= old(tcb)[u].priority
                      && tcb[u].wait == (if old(tcb)[u].wait == OnMutex(m) then NoWait else old(tcb)[u].wait)
                      && tcb[u].mtxlist == Without(old(tcb)[u].mtxlist, m)))
    {
      if !mtx[m].registered {
        return E_NOEXS;
      }
      ghost var T0, M0 := tcb, mtx;
      Detach(m);
      SameMembers(mtx[m].queue, M0[m].queue);
      WaitersAre(T0, M0, m);
      WaitDelete(m);
      UnregisterLinks(tcb, mtx, m);
      SameTermsConsistent(tcb, mtx, mtx[m := mtx[m].(registered := false)], NOBODY.(d := m), NOBODY);
      mtx := mtx[m := mtx[m].(registered := false)];
      return E_OK;
    }

    /** The first half of _tk_del_mtx: the holder, if any, loses mutex m. */
    method Detach(m: MutexId)
      requires Valid() && m < |mtx| && mtx[m].registered
      requires mtx[m].mtxtsk.Some? ==> !OnCycle(tcb, mtx, mtx[m].mtxtsk.value)
      modifies this
      ensures Linked(tcb, mtx, NOBODY.(d := m)) && Consistent(tcb, mtx, NOBODY.(d := m))
      ensures |tcb| == |old(tcb)| && |mtx| == |old(mtx)|
      ensures forall u :: 0 <= u < |tcb| ==> (
                && tcb[u] == old(tcb)[u].(mtxlist := Without(old(tcb)[u].mtxlist, m), priority := tcb[u].priority)
                && tcb[u].priority >= old(tcb)[u].priority)
      ensures forall n :: 0 <= n < |mtx| ==> (
                && mtx[n] == old(mtx)[n].(queue := mtx[n].queue)
                && multiset(mtx[n].queue) == multiset(old(mtx)[n].queue)
                && (mtx[n].attr.TFIFO? ==> mtx[n].queue == old(mtx)[n].queue))
    {
      ghost var T0, M0 := tcb, mtx;
      ghost var ex := NOBODY.(d := m);
      assert MutexOk(T0, M0, NOBODY, m);
      SameTermsConsistent(tcb, mtx, mtx, NOBODY, ex);
      HolderOnly(T0, M0, m);
      if mtx[m].mtxtsk.Some? {
        var o := mtx[m].mtxtsk.value;
        AvoidsDeleted(T0, M0, m, o);
        assert AtDemand(T0, M0, o, NOBODY);
        ghost var fuel := Fuel();
        ghost var p := ReleaseMutex(o, Some(m), ex, fuel);
      } else {
        UnheldLinks(T0, M0, m);
      }
    }

    /** _tk_cre_mtx, once control block m has come off the free queue. */
    method CreMtx(m: MutexId, attr: Attr, ceilpri: int)
      requires Valid() && m < |mtx| && !mtx[m].registered && 0 <= ceilpri < NUM_PRI
      modifies this
      ensures Valid()
      ensures tcb == old(tcb)
      ensures mtx == old(mtx)[m := Mtxcb(true, attr, if attr.CEILING? then ceilpri else 0, None, [])]
    {
      ghost var M0 := mtx;
      mtx := mtx[m := Mtxcb(true, attr, if attr.CEILING? then ceilpri else 0, None, [])];
      assert MutexOk(tcb, M0, NOBODY, m);
      forall u | 0 <= u < |tcb| ensures TaskOk(tcb, mtx, NOBODY, u) && AtDemand(tcb, mtx, u, NOBODY) {
        assert TaskOk(tcb, M0, NOBODY, u) && AtDemand(tcb, M0, u, NOBODY);
        assert m !in tcb[u].mtxlist;
      }
      forall n | 0 <= n < |mtx| ensures MutexOk(tcb, mtx, NOBODY, n) && CeilingOk(tcb, mtx, n) {
        assert MutexOk(tcb, M0, NOBODY, n) && CeilingOk(tcb, M0, n);
      }
    }

    /** _tk_cre_tsk and _tk_sta_tsk, as far as mutexes see them: a task that holds nothing and waits
        for nothing gets a state and, when created, its initial priority. */
    method SetTaskState(t: TaskId, state: TaskState, ipriority: int)
      requires Valid() && t < |tcb| && 0 <= ipriority < NUM_PRI
      requires (tcb[t].state.NonExistent? && state.Dormant?)
               || (tcb[t].state.Dormant? && ipriority == tcb[t].ipriority && state != Dormant)
      modifies `tcb
      ensures Valid()
      ensures tcb == old(tcb)[t := if state.Dormant? then Tcb(Dormant, ipriority, ipriority, ipriority, NoWait, [])
                                   else old(tcb)[t].(state := state)]
    {
      ghost var T0 := tcb;
      assert TaskOk(T0, mtx, NOBODY, t);
      if state.Dormant? {
        tcb := tcb[t := Tcb(Dormant, ipriority, ipriority, ipriority, NoWait, [])];
      } else {
        tcb := tcb[t := tcb[t].(state := state)];
      }
      IdleEntry(T0, tcb, mtx, t);
    }

    /** A running task begins to wait for an object that is not a mutex, or such a wait ends. */
    method SetOtherWait(t: TaskId, waiting: bool)
      requires Valid() && t < |tcb| && tcb[t].state.Alive? && tcb[t].wait == (if waiting then NoWait else Elsewhere)
      modifies `tcb
      ensures Valid()
      ensures tcb == old(tcb)[t := old(tcb)[t].(wait := if waiting then Elsewhere else NoWait)]
    {
      ghost var T0 := tcb;
      assert TaskOk(T0, mtx, NOBODY, t);
      tcb := tcb[t := tcb[t].(wait := if waiting then Elsewhere else NoWait)];
      IdleEntry(T0, tcb, mtx, t);
    }
  }
}
