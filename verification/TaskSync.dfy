/**
 Suspension, sleeping and task events, on top of the scheduler: how the states of a task follow from
 nested suspensions and from its waits, and that no wakeup and no task event is lost.
 */
module TaskSync {
  import opened Common
  import opened Scheduler

  const INT_MAX := 0x7fff_ffff

  datatype TState = NonExistent | Dormant | Ready | Wait | Suspend | WaitSuspend

  // Other is a wait for an object or a time.
  datatype WaitFor = Nothing | Sleep | Event(ptn: set<nat>) | Other

  datatype Sync = Sync(state: TState, suscnt: int, wupcnt: int, tskevt: set<nat>, wait: WaitFor)

  datatype ER = E_OK | E_NOEXS | E_OBJ | E_CTX | E_QOVR | E_DISWAI | E_TMOUT | WAITING

  predicate Alive(s: Sync) {
    !s.state.NonExistent? && !s.state.Dormant?
  }

  predicate Waits(s: Sync) {
    s.state.Wait? || s.state.WaitSuspend?
  }

  ghost predicate SyncOk(s: Sync) {
    && 0 <= s.suscnt <= INT_MAX && 0 <= s.wupcnt <= INT_MAX
    && (s.suscnt > 0 <==> s.state.Suspend? || s.state.WaitSuspend?)
    && (Waits(s) <==> !s.wait.Nothing?)
    && (s.wait.Sleep? ==> s.wupcnt == 0)
    && (s.wait.Event? ==> s.tskevt * s.wait.ptn == {})
  }

  function Suspended(s: Sync): Sync {
    s.(suscnt := s.suscnt + 1,
       state := if s.state.Ready? then Suspend else if s.state.Wait? then WaitSuspend else s.state)
  }

  /** The state without suspension. */
  function Unsuspended(s: Sync): Sync {
    s.(suscnt := 0, state := if s.state.Suspend? then Ready else if s.state.WaitSuspend? then Wait else s.state)
  }

  function Resumed(s: Sync): Sync {
    if s.suscnt == 1 then Unsuspended(s) else s.(suscnt := s.suscnt - 1)
  }

  function Begun(s: Sync, w: WaitFor): Sync {
    s.(wait := w, state := if s.state.Ready? then Wait else WaitSuspend)
  }

  function Released(s: Sync): Sync {
    s.(wait := Nothing, state := if s.state.Wait? then Ready else Suspend)
  }

  function Suspensions(s: Sync, n: nat): Sync {
    if n == 0 then s else Suspended(Suspensions(s, n - 1))
  }

  function Resumptions(s: Sync, n: nat): Sync
    decreases n
  {
    if n == 0 then s else Resumptions(Resumed(s), n - 1)
  }

  lemma {:induction false} SuspensionsOk(s: Sync, n: nat)
    requires SyncOk(s) && Alive(s) && s.suscnt + n <= INT_MAX
    ensures SyncOk(Suspensions(s, n)) && Alive(Suspensions(s, n)) && Suspensions(s, n).suscnt == s.suscnt + n
  {
    if n > 0 {
      SuspensionsOk(s, n - 1);
    }
  }

  /** Suspensions nest: as many resumptions lead back to the state before, whatever it was. */
  lemma {:induction false} ResumptionsUndo(s: Sync, n: nat)
    requires SyncOk(s) && Alive(s) && s.suscnt + n <= INT_MAX
    ensures Resumptions(Suspensions(s, n), n) == s
  {
    if n > 0 {
      SuspensionsOk(s, n - 1);
      assert Resumed(Suspended(Suspensions(s, n - 1))) == Suspensions(s, n - 1);
      ResumptionsUndo(s, n - 1);
    }
  }

  /** Fewer resumptions leave the task suspended. */
  lemma {:induction false} StillSuspended(s: Sync, n: nat)
    requires SyncOk(s) && Alive(s) && n < s.suscnt
    ensures SyncOk(Resumptions(s, n)) && Resumptions(s, n).suscnt == s.suscnt - n
    ensures Resumptions(s, n).state == s.state && (s.state.Suspend? || s.state.WaitSuspend?)
    decreases n
  {
    if n > 0 {
      StillSuspended(Resumed(s), n - 1);
    }
  }

  /** Suspension and the end of a wait do not depend on each other's order. */
  lemma ReleaseCommutes(s: Sync)
    requires SyncOk(s) && Waits(s) && s.suscnt < INT_MAX
    ensures Suspended(Released(s)) == Released(Suspended(s))
    ensures Unsuspended(Released(s)) == Released(Unsuspended(s))
    ensures Unsuspended(Suspended(s)) == Unsuspended(s)
  {
  }

  class Tasks {
    const sched: Sched
    var tab: seq<Sync>

    /** A task stands in the ready queue exactly while it is ready. */
    ghost predicate Valid()
      reads this, sched
    {
      && sched.Valid() && |sched.tcb| == |tab|
      && forall t :: 0 <= t < |tab| ==> SyncOk(tab[t]) && (sched.tcb[t].ready <==> tab[t].state.Ready?)
    }

    constructor (tasks: seq<Tcb>, period: int)
      requires forall t :: 0 <= t < |tasks| ==> !tasks[t].ready && tasks[t].priority < NUM_PRI
      ensures Valid() && fresh(sched) && |tab| == |tasks|
      ensures forall t :: 0 <= t < |tab| ==> tab[t] == Sync(NonExistent, 0, 0, {}, Nothing)
    {
      sched := new Sched(tasks, period);
      tab := seq(|tasks|, _ => Sync(NonExistent, 0, 0, {}, Nothing));
    }

    /** The entry of task t changes; the ready queue follows its state. */
    method Enter(t: TaskId, s: Sync)
      requires Valid() && t < |tab| && SyncOk(s)
      modifies `tab, sched`tcb, sched`tskque, sched`bitmap, sched`topPriority, sched`schedtsk
      ensures Valid() && tab == old(tab)[t := s]
      ensures tab[t].state.Ready? == old(tab)[t].state.Ready? ==> sched.schedtsk == old(sched.schedtsk)
    {
      if s.state.Ready? && !tab[t].state.Ready? {
        sched.MakeReady(t);
      } else if !s.state.Ready? && tab[t].state.Ready? {
        sched.MakeNonReady(t);
      }
      tab := tab[t := s];
    }

    /** Creation, start and end of a task, as far as they are seen here. */
    method SetState(t: TaskId, state: TState)
      requires Valid() && t < |tab| && state in {NonExistent, Dormant, Ready}
      modifies `tab, sched`tcb, sched`tskque, sched`bitmap, sched`topPriority, sched`schedtsk
      ensures Valid() && tab == old(tab)[t := Sync(state, 0, 0, {}, Nothing)]
    {
      Enter(t, Sync(state, 0, 0, {}, Nothing));
    }

    /** _tk_sus_tsk. */
    method SusTsk(t: TaskId, dispatchDisabled: bool) returns (r: ER)
      requires Valid() && t < |tab|
      modifies `tab, sched`tcb, sched`tskque, sched`bitmap, sched`topPriority, sched`schedtsk
      ensures Valid()
      ensures r == E_NOEXS <==> old(tab)[t].state.NonExistent?
      ensures r == E_OBJ <==> old(tab)[t].state.Dormant?
      ensures r == E_CTX <==> Alive(old(tab)[t]) && t == sched.ctxtsk && dispatchDisabled
      ensures r == E_QOVR <==> (
                Alive(old(tab)[t]) && !(t == sched.ctxtsk && dispatchDisabled) && old(tab)[t].suscnt == INT_MAX)
      ensures r in {E_OK, E_NOEXS, E_OBJ, E_CTX, E_QOVR}
      ensures tab == if r == E_OK then old(tab)[t := Suspended(old(tab)[t])] else old(tab)
      // one more suspension; wait, counted wakeups and task events stay
      ensures r == E_OK ==>
                && |tab| == |old(tab)| && Alive(tab[t]) && (Waits(tab[t]) <==> Waits(old(tab)[t]))
                && tab[t] == old(tab)[t].(suscnt := old(tab)[t].suscnt + 1, state := tab[t].state)
    {
      if !Alive(tab[t]) {
        return if tab[t].state.NonExistent? then E_NOEXS else E_OBJ;
      }
      if t == sched.ctxtsk && dispatchDisabled {
        return E_CTX;
      }
      if tab[t].suscnt == INT_MAX {
        return E_QOVR;
      }
      Enter(t, Suspended(tab[t]));
      return E_OK;
    }

    /** _tk_rsm_tsk, or _tk_frsm_tsk if all suspensions are to end. */
    method RsmTsk(t: TaskId, all: bool) returns (r: ER)
      requires Valid() && t < |tab|
      modifies `tab, sched`tcb, sched`tskque, sched`bitmap, sched`topPriority, sched`schedtsk
      ensures Valid()
      ensures r == E_NOEXS <==> old(tab)[t].state.NonExistent?
      ensures r == E_OK <==> old(tab)[t].suscnt > 0
      ensures r in {E_OK, E_NOEXS, E_OBJ}
      ensures tab == if r == E_OK then old(tab)[t := if all then Unsuspended(old(tab)[t]) else Resumed(old(tab)[t])]
              else old(tab)
      ensures r == E_OK ==>
                && |tab| == |old(tab)| && Alive(tab[t]) && (Waits(tab[t]) <==> Waits(old(tab)[t]))
                && tab[t] == old(tab)[t].(suscnt := if all then 0 else old(tab)[t].suscnt - 1, state := tab[t].state)
    {
      match tab[t].state {
        case NonExistent => r := E_NOEXS;
        case Dormant => r := E_OBJ;
        case Ready => r := E_OBJ;
        case Wait => r := E_OBJ;
        case Suspend =>
          Enter(t, if all then Unsuspended(tab[t]) else Resumed(tab[t]));
          r := E_OK;
        case WaitSuspend =>
          Enter(t, if all then Unsuspended(tab[t]) else Resumed(tab[t]));
          r := E_OK;
      }
    }

    /** _tk_slp_tsk, called by task t, which an interrupt may have suspended meanwhile. */
    method SlpTsk(t: TaskId, poll: bool, diswai: bool) returns (r: ER)
      requires Valid() && t < |tab| && (tab[t].state.Ready? || tab[t].state.Suspend?)
      modifies `tab, sched`tcb, sched`tskque, sched`bitmap, sched`topPriority, sched`schedtsk
      ensures Valid()
      ensures r == E_DISWAI <==> diswai
      ensures r == E_OK <==> !diswai && old(tab)[t].wupcnt > 0
      ensures r == E_TMOUT <==> !diswai && old(tab)[t].wupcnt == 0 && poll
      ensures r in {E_DISWAI, E_OK, E_TMOUT, WAITING}
      ensures tab == if r == E_OK then old(tab)[t := old(tab)[t].(wupcnt := old(tab)[t].wupcnt - 1)]
                     else if r == WAITING then old(tab)[t := Begun(old(tab)[t], Sleep)]
                     else old(tab)
      ensures r == WAITING ==>
                |tab| == |old(tab)| && tab[t] == old(tab)[t].(wait := Sleep, state := tab[t].state)
    {
      if diswai {
        return E_DISWAI;
      }
      if tab[t].wupcnt > 0 {
        tab := tab[t := tab[t].(wupcnt := tab[t].wupcnt - 1)];
        return E_OK;
      }
      if poll {
        return E_TMOUT;
      }
      Enter(t, Begun(tab[t], Sleep));
      return WAITING;
    }

    /** _tk_wup_tsk: a wakeup ends the sleep of a sleeping task, and is counted for any other. */
    method WupTsk(t: TaskId) returns (r: ER)
      requires Valid() && t < |tab|
      modifies `tab, sched`tcb, sched`tskque, sched`bitmap, sched`topPriority, sched`schedtsk
      ensures Valid()
      ensures r == E_NOEXS <==> old(tab)[t].state.NonExistent?
      ensures r == E_OBJ <==> old(tab)[t].state.Dormant?
      ensures r == E_QOVR <==> Alive(old(tab)[t]) && !old(tab)[t].wait.Sleep? && old(tab)[t].wupcnt == INT_MAX
      ensures r in {E_OK, E_NOEXS, E_OBJ, E_QOVR}
      ensures tab == if r != E_OK then old(tab)
                     else if old(tab)[t].wait.Sleep? then old(tab)[t := Released(old(tab)[t])]
                     else old(tab)[t := old(tab)[t].(wupcnt := old(tab)[t].wupcnt + 1)]
      // a task that is woken keeps its suspensions, counted wakeups and task events
      ensures r == E_OK && old(tab)[t].wait.Sleep? ==>
                && |tab| == |old(tab)| && Alive(tab[t])
                && tab[t] == old(tab)[t].(wait := Nothing, state := tab[t].state)
    {
      if !Alive(tab[t]) {
        return if tab[t].state.NonExistent? then E_NOEXS else E_OBJ;
      }
      if Waits(tab[t]) && tab[t].wait.Sleep? {
        Enter(t, Released(tab[t]));
        return E_OK;
      }
      if tab[t].wupcnt == INT_MAX {
        return E_QOVR;
      }
      tab := tab[t := tab[t].(wupcnt := tab[t].wupcnt + 1)];
      return E_OK;
    }

    /** _tk_can_wup. */
    method CanWup(t: TaskId) returns (r: ER, n: int)
      requires Valid() && t < |tab|
      modifies `tab
      ensures Valid()
      ensures r == if old(tab)[t].state.NonExistent? then E_NOEXS else if old(tab)[t].state.Dormant? then E_OBJ
              else E_OK
      ensures r == E_OK ==> n == old(tab)[t].wupcnt && tab == old(tab)[t := old(tab)[t].(wupcnt := 0)]
      ensures r != E_OK ==> tab == old(tab)
    {
      n := 0;
      match tab[t].state {
        case NonExistent => r := E_NOEXS;
        case Dormant => r := E_OBJ;
        case _ =>
          n := tab[t].wupcnt;
          tab := tab[t := tab[t].(wupcnt := 0)];
          r := E_OK;
      }
    }

    /** _tk_wai_tev, called by task t; got is the task's events when one of them was waited for. */
    method WaiTev(t: TaskId, ptn: set<nat>, poll: bool, diswai: bool) returns (r: ER, got: set<nat>)
      requires Valid() && t < |tab| && (tab[t].state.Ready? || tab[t].state.Suspend?)
      modifies `tab, sched`tcb, sched`tskque, sched`bitmap, sched`topPriority, sched`schedtsk
      ensures Valid()
      ensures r == E_DISWAI <==> diswai
      ensures r == E_OK <==> !diswai && old(tab)[t].tskevt * ptn != {}
      ensures r == E_TMOUT <==> !diswai && old(tab)[t].tskevt * ptn == {} && poll
      ensures r in {E_DISWAI, E_OK, E_TMOUT, WAITING}
      ensures got == if r == E_OK then old(tab)[t].tskevt else {}
      ensures tab == if r == E_OK then old(tab)[t := old(tab)[t].(tskevt := old(tab)[t].tskevt - ptn)]
                     else if r == WAITING then old(tab)[t := Begun(old(tab)[t], Event(ptn))]
                     else old(tab)
      ensures r == WAITING ==>
                |tab| == |old(tab)| && tab[t] == old(tab)[t].(wait := Event(ptn), state := tab[t].state)
    {
      got := {};
      if diswai {
        return E_DISWAI, {};
      }
      if tab[t].tskevt * ptn != {} {
        got := tab[t].tskevt;
        tab := tab[t := tab[t].(tskevt := tab[t].tskevt - ptn)];
        return E_OK, got;
      }
      if poll {
        return E_TMOUT, {};
      }
      Enter(t, Begun(tab[t], Event(ptn)));
      return WAITING, {};
    }

    /** _tk_sig_tev: a task that waits for the event is told it with the events it has; else the event is kept. */
    method SigTev(t: TaskId, event: nat) returns (r: ER, told: set<nat>)
      requires Valid() && t < |tab|
      modifies `tab, sched`tcb, sched`tskque, sched`bitmap, sched`topPriority, sched`schedtsk
      ensures Valid()
      ensures r == if old(tab)[t].state.NonExistent? then E_NOEXS else if old(tab)[t].state.Dormant? then E_OBJ
              else E_OK
      ensures r != E_OK ==> tab == old(tab)
      ensures r == E_OK ==>
                if old(tab)[t].wait.Event? && event in old(tab)[t].wait.ptn
                then told == old(tab)[t].tskevt + {event} && tab == old(tab)[t := Released(old(tab)[t])]
                else told == {} && tab == old(tab)[t := old(tab)[t].(tskevt := old(tab)[t].tskevt + {event})]
      ensures r == E_OK && old(tab)[t].wait.Event? && event in old(tab)[t].wait.ptn ==>
                && |tab| == |old(tab)| && Alive(tab[t])
                && tab[t] == old(tab)[t].(wait := Nothing, state := tab[t].state)
    {
      told := {};
      if !Alive(tab[t]) {
        return if tab[t].state.NonExistent? then E_NOEXS else E_OBJ, {};
      }
      if Waits(tab[t]) && tab[t].wait.Event? && event in tab[t].wait.ptn {
        told := tab[t].tskevt + {event};
        Enter(t, Released(tab[t]));
      } else {
        tab := tab[t := tab[t].(tskevt := tab[t].tskevt + {event})];
      }
      r := E_OK;
    }

    /** wait_release: a wait ends by timeout, by force or because it is served. */
    method WaitRelease(t: TaskId)
      requires Valid() && t < |tab| && Waits(tab[t])
      modifies `tab, sched`tcb, sched`tskque, sched`bitmap, sched`topPriority, sched`schedtsk
      ensures Valid() && tab == old(tab)[t := Released(old(tab)[t])]
      ensures |tab| == |old(tab)| && Alive(tab[t])
      ensures tab[t] == old(tab)[t].(wait := Nothing, state := tab[t].state)
    {
      Enter(t, Released(tab[t]));
    }

    /** make_wait for an object or a time, called by task t. */
    method MakeWait(t: TaskId)
      requires Valid() && t < |tab| && (tab[t].state.Ready? || tab[t].state.Suspend?)
      modifies `tab, sched`tcb, sched`tskque, sched`bitmap, sched`topPriority, sched`schedtsk
      ensures Valid() && tab == old(tab)[t := Begun(old(tab)[t], Other)]
      ensures |tab| == |old(tab)| && tab[t] == old(tab)[t].(wait := Other, state := tab[t].state)
    {
      Enter(t, Begun(tab[t], Other));
    }
  }
}
