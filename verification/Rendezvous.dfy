/**
 Rendezvous ports: tasks that wait to call, tasks that wait to accept, and callers whose rendezvous has
 begun and who wait for the reply. A bit pattern is the set of its bits.
 */
module Rendezvous {
  import opened WaitQueue

  type Message = seq<int>

  type Pattern = set<nat>

  const RDVNO_STEP := 65536 // 1 << RDVNO_SHIFT

  datatype Call = Call(ptn: Pattern, msg: Message)

  // Ends: the rendezvous has begun under number rdvno, and the reply may be maxrmsz bytes long.
  datatype State = Idle | Calls(port: nat) | Accepts(port: nat) | Ends(rdvno: nat, maxrmsz: nat)

  // wrdvno is the next rendezvous number of the task; limit is maxrmsz of the port it called first, and
  // copied the most bytes that anyone has copied into its buffer since then.
  datatype Task = Task(wrdvno: nat, st: State, limit: nat, copied: nat)

  datatype Port = Port(tpri: bool, maxcmsz: nat, maxrmsz: nat, calls: seq<Waiter<Call>>, accepts: seq<Waiter<Pattern>>)

  datatype Reply = Done | WrongNumber | BadSize

  // Void: the acceptor got the message, but the caller may not wait for the end and so the number is void.
  datatype Called =
    | Begun(acceptor: nat, rdvno: nat) | Void(acceptor: nat, rdvno: nat) | Queued | TooLong | Disabled | TimedOut

  datatype Accepted = Got(caller: nat, rdvno: nat, msg: Message, void: bool) | Waiting | Missed | Barred

  datatype Forwarded = Passed(acceptor: nat, rdvno: nat, void: bool) | Requeued | Stopped | Refused(why: Reply)

  /** get_tskid_rdvno. */
  function TaskOf(rdvno: nat): nat {
    rdvno % RDVNO_STEP
  }

  ghost predicate PortOk(tasks: seq<Task>, p: Port, n: nat) {
    && QueueOk(p.calls, p.tpri) && QueueOk(p.accepts, false)
    && (forall w :: w in p.calls ==> w.tid < |tasks| && tasks[w.tid].st == Calls(n) && p.maxrmsz <= tasks[w.tid].limit)
    && (forall w :: w in p.accepts ==> w.tid < |tasks| && tasks[w.tid].st == Accepts(n))
    && (forall w, a :: w in p.calls && a in p.accepts ==> w.req.ptn * a.req == {})
  }

  /** Numbers given out are below the next one, and all of them name the task. */
  ghost predicate TaskOk(tasks: seq<Task>, t: nat)
    requires t < |tasks|
  {
    && TaskOf(tasks[t].wrdvno) == t
    && (tasks[t].st.Ends? ==>
          TaskOf(tasks[t].st.rdvno) == t && tasks[t].st.rdvno < tasks[t].wrdvno
          && tasks[t].st.maxrmsz <= tasks[t].limit)
    && tasks[t].copied <= tasks[t].limit
  }

  /** Spent numbers have been given out and are nobody's current number. */
  ghost predicate SpentOk(tasks: seq<Task>, spent: set<nat>) {
    forall r :: r in spent ==>
             TaskOf(r) < |tasks| && r < tasks[TaskOf(r)].wrdvno
             && !(tasks[TaskOf(r)].st.Ends? && tasks[TaskOf(r)].st.rdvno == r)
  }

  /** The first waiter of q that pattern ptn meets. */
  function FirstMeeting(q: seq<Waiter<Pattern>>, ptn: Pattern): (k: nat)
    ensures k <= |q|
    ensures forall i :: 0 <= i < k ==> ptn * q[i].req == {}
    ensures k < |q| ==> ptn * q[k].req != {}
  {
    if q == [] || ptn * q[0].req != {} then 0 else 1 + FirstMeeting(q[1..], ptn)
  }

  function FirstCaller(q: seq<Waiter<Call>>, ptn: Pattern): (k: nat)
    ensures k <= |q|
    ensures forall i :: 0 <= i < k ==> q[i].req.ptn * ptn == {}
    ensures k < |q| ==> q[k].req.ptn * ptn != {}
  {
    if q == [] || q[0].req.ptn * ptn != {} then 0 else 1 + FirstCaller(q[1..], ptn)
  }

  lemma NextNumber(r: nat)
    ensures TaskOf(r + RDVNO_STEP) == TaskOf(r)
  {
  }

  // ---------------------------------------------------------------- what stays

  /** A port does not notice changes to tasks that do not wait at it. */
  lemma PortKept(tasks: seq<Task>, tasks': seq<Task>, p: Port, n: nat)
    requires PortOk(tasks, p, n) && |tasks'| == |tasks|
    requires forall t :: 0 <= t < |tasks| && (tasks[t].st == Calls(n) || tasks[t].st == Accepts(n)) ==>
               tasks'[t] == tasks[t]
    ensures PortOk(tasks', p, n)
  {
  }

  /** An acceptor leaves its queue. */
  lemma AcceptorLeaves(tasks: seq<Task>, tasks': seq<Task>, p: Port, n: nat, k: nat)
    requires PortOk(tasks, p, n) && k < |p.accepts| && |tasks'| == |tasks|
    requires forall t :: 0 <= t < |tasks| && t != p.accepts[k].tid
                         && (tasks[t].st == Calls(n) || tasks[t].st == Accepts(n)) ==>
               tasks'[t] == tasks[t]
    ensures PortOk(tasks', p.(accepts := Left(p.accepts, k)), n)
  {
    LeftOk(p.accepts, k, false);
    var r := Left(p.accepts, k);
    forall w | w in r ensures w.tid != p.accepts[k].tid {
      var i :| 0 <= i < |r| && r[i] == w;
    }
    assert p.accepts[k] in p.accepts;
  }

  /** A caller leaves its queue. */
  lemma CallerLeaves(tasks: seq<Task>, tasks': seq<Task>, p: Port, n: nat, k: nat)
    requires PortOk(tasks, p, n) && k < |p.calls| && |tasks'| == |tasks|
    requires forall t :: 0 <= t < |tasks| && t != p.calls[k].tid
                         && (tasks[t].st == Calls(n) || tasks[t].st == Accepts(n)) ==>
               tasks'[t] == tasks[t]
    ensures PortOk(tasks', p.(calls := Left(p.calls, k)), n)
  {
    LeftOk(p.calls, k, p.tpri);
    var r := Left(p.calls, k);
    forall w | w in r ensures w.tid != p.calls[k].tid {
      var i :| 0 <= i < |r| && r[i] == w;
    }
    assert p.calls[k] in p.calls;
  }

  /** A task that no acceptor meets joins the callers. */
  lemma CallerJoins(tasks: seq<Task>, tasks': seq<Task>, p: Port, n: nat, w: Waiter<Call>)
    requires PortOk(tasks, p, n) && w.tid < |tasks| == |tasks'| && !tasks[w.tid].st.Calls? && !tasks[w.tid].st.Accepts?
    requires tasks'[w.tid].st == Calls(n) && p.maxrmsz <= tasks'[w.tid].limit
    requires forall t :: 0 <= t < |tasks| && t != w.tid ==> tasks'[t] == tasks[t]
    requires forall i :: 0 <= i < |p.accepts| ==> w.req.ptn * p.accepts[i].req == {}
    ensures PortOk(tasks', p.(calls := Joined(p.calls, w, p.tpri)), n)
  {
    forall i | 0 <= i < |p.calls| ensures p.calls[i].tid != w.tid {
      assert p.calls[i] in p.calls;
    }
    JoinedOk(p.calls, w, p.tpri);
    forall a | a in p.accepts ensures w.req.ptn * a.req == {} {
      var i :| 0 <= i < |p.accepts| && p.accepts[i] == a;
    }
  }

  /** A task that no caller meets joins the acceptors. */
  lemma AcceptorJoins(tasks: seq<Task>, tasks': seq<Task>, p: Port, n: nat, a: Waiter<Pattern>)
    requires PortOk(tasks, p, n) && a.tid < |tasks| == |tasks'| && tasks[a.tid].st == Idle
    requires tasks'[a.tid].st == Accepts(n)
    requires forall t :: 0 <= t < |tasks| && t != a.tid ==> tasks'[t] == tasks[t]
    requires forall i :: 0 <= i < |p.calls| ==> p.calls[i].req.ptn * a.req == {}
    ensures PortOk(tasks', p.(accepts := Joined(p.accepts, a, false)), n)
  {
    forall i | 0 <= i < |p.accepts| ensures p.accepts[i].tid != a.tid {
      assert p.accepts[i] in p.accepts;
    }
    JoinedOk(p.accepts, a, false);
    forall w | w in p.calls ensures w.req.ptn * a.req == {} {
      var i :| 0 <= i < |p.calls| && p.calls[i] == w;
    }
  }

  // ---------------------------------------------------------------- what a step does to the tasks

  /** The most bytes copied so far, msg included. */
  function Longest(copied: nat, msg: Message): (n: nat)
    ensures n >= copied && n >= |msg| && (n == copied || n == |msg|)
  {
    if |msg| > copied then |msg| else copied
  }

  /** A step that gives a task a number or ends a rendezvous, and makes the numbers in gone void. */
  lemma SpentKept(tasks: seq<Task>, tasks': seq<Task>, spent: set<nat>, gone: set<nat>)
    requires SpentOk(tasks, spent) && |tasks'| == |tasks|
    requires forall t :: 0 <= t < |tasks| ==> tasks'[t].wrdvno >= tasks[t].wrdvno
    requires forall t :: 0 <= t < |tasks| && tasks'[t].st.Ends? ==>
               tasks'[t].st == tasks[t].st || tasks'[t].st.rdvno >= tasks[t].wrdvno
    requires forall r :: r in gone ==>
               && TaskOf(r) < |tasks| && r < tasks'[TaskOf(r)].wrdvno
               && !(tasks'[TaskOf(r)].st.Ends? && tasks'[TaskOf(r)].st.rdvno == r)
    ensures SpentOk(tasks', spent + gone)
  {
  }

  /** Everything that holds between steps; the spent numbers are void. */
  ghost predicate Sound(tasks: seq<Task>, ports: seq<Port>, spent: set<nat>) {
    && |tasks| <= RDVNO_STEP
    && (forall n :: 0 <= n < |ports| ==> PortOk(tasks, ports[n], n))
    && (forall t :: 0 <= t < |tasks| ==> TaskOk(tasks, t))
    && SpentOk(tasks, spent)
  }

  /** Acceptor k of port n meets a call of task t, which gets a number and, unless it is void, waits for the end. */
  lemma CallMet(T: seq<Task>, T': seq<Task>, P: seq<Port>, spent: set<nat>, gone: set<nat>, n: nat, k: nat, t: nat)
    requires Sound(T, P, spent) && n < |P| && k < |P[n].accepts| && t < |T| == |T'| && (T[t].st.Idle? || T[t].st.Ends?)
    requires var a := P[n].accepts[k].tid; a < |T| ==> T' == T[a := T[a].(st := Idle)][t := T'[t]]
    requires T'[t].wrdvno == T[t].wrdvno + RDVNO_STEP && T'[t].copied <= T'[t].limit
    requires T'[t].st.Idle? || (T'[t].st.Ends? && T'[t].st.rdvno == T[t].wrdvno && T'[t].st.maxrmsz <= T'[t].limit)
    requires forall r :: r in gone ==> (T'[t].st.Idle? && r == T[t].wrdvno) || (T[t].st.Ends? && r == T[t].st.rdvno)
    ensures Sound(T', P[n := P[n].(accepts := Left(P[n].accepts, k))], spent + gone)
  {
    hide PortOk, SpentOk;
    var a := P[n].accepts[k].tid;
    AcceptorState(T, P[n], n, k);
    assert TaskOk(T, t) && TaskOk(T, a);
    NextNumber(T[t].wrdvno);
    AcceptorLeaves(T, T', P[n], n, k);
    OthersKept(T, T', P, n);
    TasksKept(T, T', {a, t});
    SpentKept(T, T', spent, gone);
  }

  /** Caller k of port n is accepted: it gets a number and, unless it is void, waits for the end. */
  lemma CallerMet(T: seq<Task>, T': seq<Task>, P: seq<Port>, spent: set<nat>, gone: set<nat>, n: nat, k: nat)
    requires Sound(T, P, spent) && n < |P| && k < |P[n].calls| && |T'| == |T|
    requires var t := P[n].calls[k].tid;
             t < |T| ==>
               && T' == T[t := T[t].(wrdvno := T[t].wrdvno + RDVNO_STEP, st := T'[t].st)]
               && (T'[t].st.Idle? || T'[t].st == Ends(T[t].wrdvno, P[n].maxrmsz))
               && forall r :: r in gone ==> T'[t].st.Idle? && r == T[t].wrdvno
    ensures Sound(T', P[n := P[n].(calls := Left(P[n].calls, k))], spent + gone)
  {
    hide PortOk, SpentOk;
    var t := P[n].calls[k].tid;
    CallerState(T, P[n], n, k);
    assert TaskOk(T, t);
    NextNumber(T[t].wrdvno);
    CallerLeaves(T, T', P[n], n, k);
    OthersKept(T, T', P, n);
    TasksKept(T, T', {t});
    SpentKept(T, T', spent, gone);
  }

  /** A task that no acceptor meets is queued, and the number of its last rendezvous, if any, is void. */
  lemma CallQueued(T: seq<Task>, T': seq<Task>, P: seq<Port>, spent: set<nat>, gone: set<nat>, n: nat, w: Waiter<Call>)
    requires Sound(T, P, spent) && n < |P| && w.tid < |T| == |T'| && (T[w.tid].st.Idle? || T[w.tid].st.Ends?)
    requires T' == T[w.tid := T'[w.tid]] && T'[w.tid].wrdvno == T[w.tid].wrdvno && T'[w.tid].copied <= T'[w.tid].limit
    requires T'[w.tid].st == Calls(n) && P[n].maxrmsz <= T'[w.tid].limit
    requires forall i :: 0 <= i < |P[n].accepts| ==> w.req.ptn * P[n].accepts[i].req == {}
    requires forall r :: r in gone ==> T[w.tid].st.Ends? && r == T[w.tid].st.rdvno
    ensures Sound(T', P[n := P[n].(calls := Joined(P[n].calls, w, P[n].tpri))], spent + gone)
  {
    hide PortOk, SpentOk;
    assert TaskOk(T, w.tid);
    CallerJoins(T, T', P[n], n, w);
    OthersKept(T, T', P, n);
    TasksKept(T, T', {w.tid});
    SpentKept(T, T', spent, gone);
  }

  /** A caller moves in the queue. */
  lemma CallMoved(T: seq<Task>, P: seq<Port>, spent: set<nat>, n: nat, k: nat, pri: int)
    requires Sound(T, P, spent) && n < |P| && k < |P[n].calls| && P[n].tpri
    ensures Sound(T, P[n := P[n].(calls := Moved(P[n].calls, k, pri))], spent)
  {
    hide SpentOk, TaskOk;
    var p := P[n];
    assert PortOk(T, p, n);
    MovedOk(p.calls, k, pri);
    assert p.calls[k] in p.calls;
    PortMoved(T, p, p.(calls := Moved(p.calls, k, pri)), n, p.calls[k], p.calls[k].(pri := pri));
  }

  lemma PortMoved(T: seq<Task>, p: Port, p': Port, n: nat, w0: Waiter<Call>, w1: Waiter<Call>)
    requires PortOk(T, p, n) && p' == p.(calls := p'.calls) && QueueOk(p'.calls, p.tpri)
    requires w0 in p.calls && w1 == w0.(pri := w1.pri)
    requires forall x :: x in p'.calls <==> (x in p.calls && x != w0) || x == w1
    ensures PortOk(T, p', n)
  {
  }

  /** A task that no caller meets is queued as an acceptor. */
  lemma AcceptQueued(T: seq<Task>, P: seq<Port>, spent: set<nat>, n: nat, a: Waiter<Pattern>)
    requires Sound(T, P, spent) && n < |P| && a.tid < |T| && T[a.tid].st.Idle?
    requires forall i :: 0 <= i < |P[n].calls| ==> P[n].calls[i].req.ptn * a.req == {}
    ensures Sound(T[a.tid := T[a.tid].(st := Accepts(n))],
                  P[n := P[n].(accepts := Joined(P[n].accepts, a, false))], spent)
  {
    hide PortOk, SpentOk;
    var T' := T[a.tid := T[a.tid].(st := Accepts(n))];
    assert TaskOk(T, a.tid);
    AcceptorJoins(T, T', P[n], n, a);
    OthersKept(T, T', P, n);
    TasksKept(T, T', {a.tid});
    SpentKept(T, T', spent, {});
    assert spent + {} == spent;
  }

  /** The rendezvous of task t ends, and its number is void. */
  lemma RendezvousEnds(T: seq<Task>, T': seq<Task>, P: seq<Port>, spent: set<nat>, t: nat)
    requires Sound(T, P, spent) && t < |T| == |T'| && T[t].st.Ends?
    requires T' == T[t := T[t].(st := Idle, copied := T'[t].copied)] && T'[t].copied <= T[t].limit
    ensures Sound(T', P, spent + {T[t].st.rdvno})
  {
    hide PortOk, SpentOk;
    assert TaskOk(T, t);
    AllKept(T, T', P);
    TasksKept(T, T', {t});
    SpentKept(T, T', spent, {T[t].st.rdvno});
  }

  lemma AcceptorAt(T: seq<Task>, P: seq<Port>, spent: set<nat>, n: nat, k: nat)
    requires Sound(T, P, spent) && n < |P| && k < |P[n].accepts|
    ensures P[n].accepts[k].tid < |T| && T[P[n].accepts[k].tid].st == Accepts(n)
  {
    AcceptorState(T, P[n], n, k);
  }

  lemma CallerAt(T: seq<Task>, P: seq<Port>, spent: set<nat>, n: nat, k: nat)
    requires Sound(T, P, spent) && n < |P| && k < |P[n].calls|
    ensures P[n].calls[k].tid < |T| && T[P[n].calls[k].tid].st == Calls(n)
  {
    CallerState(T, P[n], n, k);
  }

  /** The number that task t gets next is new, and the number it has is not void. */
  lemma Numbers(T: seq<Task>, P: seq<Port>, spent: set<nat>, t: nat)
    requires Sound(T, P, spent) && t < |T|
    ensures TaskOf(T[t].wrdvno) == t && T[t].wrdvno !in spent
    ensures T[t].st.Ends? ==> T[t].st.rdvno !in spent && TaskOf(T[t].st.rdvno) == t && T[t].st.maxrmsz <= T[t].limit
    ensures T[t].copied <= T[t].limit
  {
    assert TaskOk(T, t);
  }

  class Ports {
    var tasks: seq<Task>
    var ports: seq<Port>
    ghost var spent: set<nat> // numbers whose rendezvous has ended, been passed on or been broken off

    ghost predicate Valid()
      reads this
    {
      Sound(tasks, ports, spent)
    }

    constructor (n: nat, made: seq<Port>)
      requires n <= RDVNO_STEP && forall i :: 0 <= i < |made| ==> made[i].calls == [] && made[i].accepts == []
      ensures Valid() && |tasks| == n && ports == made && spent == {}
    {
      tasks := seq(n, i requires 0 <= i < n => Task(i, Idle, 0, 0));
      ports := made;
      spent := {};
    }

    /** gen_rdvno. */
    method GenRdvno(t: nat) returns (rdvno: nat)
      requires t < |tasks|
      modifies `tasks
      ensures rdvno == old(tasks)[t].wrdvno
      ensures tasks == old(tasks)[t := old(tasks)[t].(wrdvno := rdvno + RDVNO_STEP)]
    {
      rdvno := tasks[t].wrdvno;
      tasks := tasks[t := tasks[t].(wrdvno := rdvno + RDVNO_STEP)];
    }

    /**
     _tk_cal_por: the first acceptor that the pattern meets takes the call, else the caller waits.
     noCall and noEnd say which waits are disabled for the caller at this port.
     */
    method CalPor(t: nat, pri: int, n: nat, ptn: Pattern, msg: Message, poll: bool, noCall: bool, noEnd: bool)
      returns (r: Called)
      requires Valid() && t < |tasks| && tasks[t].st == Idle && n < |ports| && ptn != {}
      modifies `tasks, `ports, `spent
      ensures Valid() && |ports| == |old(ports)|
      ensures r == TooLong <==> |msg| > ports[n].maxcmsz
      ensures r != TooLong ==> (r == Disabled <==> noCall)
      ensures r == TimedOut ==> poll
      ensures r in {TooLong, Disabled, TimedOut} ==> tasks == old(tasks) && ports == old(ports) && spent == old(spent)
      ensures r !in {TooLong, Disabled} ==>
                var p := old(ports)[n];
                var k := FirstMeeting(p.accepts, ptn);
                if k < |p.accepts|
                then var a, no := p.accepts[k].tid, old(tasks)[t].wrdvno;
                     && a < |old(tasks)| && a != t
                     && no !in old(spent) && ports == old(ports)[n := p.(accepts := Left(p.accepts, k))]
                     && (if noEnd
                         then r == Void(a, no) && spent == old(spent) + {no}
                              && tasks == old(tasks)[a := old(tasks)[a].(st := Idle)]
                                                    [t := old(tasks)[t].(wrdvno := no + RDVNO_STEP)]
                         else r == Begun(a, no) && spent == old(spent)
                              && tasks == old(tasks)[a := old(tasks)[a].(st := Idle)]
                                                    [t := Task(no + RDVNO_STEP, Ends(no, p.maxrmsz), p.maxrmsz, 0)])
                else r in {Queued, TimedOut}
                     && (r == Queued ==>
                           && !poll && spent == old(spent)
                           && tasks == old(tasks)[t := Task(old(tasks)[t].wrdvno, Calls(n), p.maxrmsz, 0)]
                           && ports == old(ports)[n :=
                                 p.(calls := Joined(p.calls, Waiter(t, pri, Call(ptn, msg)), p.tpri))])
    {
      hide Sound;
      var p := ports[n];
      if |msg| > p.maxcmsz {
        return TooLong;
      }
      ghost var was := tasks;
      var k := FirstMeeting(p.accepts, ptn);
      if k < |p.accepts| {
        if noCall {
          return Disabled;
        }
        var a := p.accepts[k].tid;
        AcceptorAt(tasks, ports, spent, n, k);
        Numbers(tasks, ports, spent, t);
        var rdvno := GenRdvno(t);
        tasks := tasks[a := tasks[a].(st := Idle)];
        if noEnd {
          r := Void(a, rdvno);
        } else {
          tasks := tasks[t := tasks[t].(st := Ends(rdvno, p.maxrmsz), limit := p.maxrmsz, copied := 0)];
          r := Begun(a, rdvno);
        }
        CallMet(was, tasks, ports, spent, if noEnd then {rdvno} else {}, n, k, t);
        ports := ports[n := p.(accepts := Left(p.accepts, k))];
        spent := spent + if noEnd then {rdvno} else {};
      } else if noCall {
        r := Disabled;
      } else if poll {
        r := TimedOut;
      } else {
        tasks := tasks[t := tasks[t].(st := Calls(n), limit := p.maxrmsz, copied := 0)];
        CallQueued(was, tasks, ports, spent, {}, n, Waiter(t, pri, Call(ptn, msg)));
        var q := Join(p.calls, Waiter(t, pri, Call(ptn, msg)), p.tpri);
        ports := ports[n := p.(calls := q)];
        spent := spent + {};
        r := Queued;
      }
    }

    /**
     _tk_acp_por: the first caller that the pattern meets is accepted, else the acceptor waits. A caller
     in noEnd may not wait for the end: it is released with an error, and its number is void.
     */
    method AcpPor(t: nat, n: nat, ptn: Pattern, poll: bool, noAccept: bool, noEnd: set<nat>) returns (r: Accepted)
      requires Valid() && t < |tasks| && tasks[t].st == Idle && n < |ports| && ptn != {}
      modifies `tasks, `ports, `spent
      ensures Valid() && |ports| == |old(ports)|
      ensures r == Barred <==> noAccept
      ensures r == Missed ==> poll
      ensures r in {Barred, Missed} ==> tasks == old(tasks) && ports == old(ports) && spent == old(spent)
      ensures r != Barred ==>
                var p := old(ports)[n];
                var k := FirstCaller(p.calls, ptn);
                if k < |p.calls|
                then var w := p.calls[k];
                     && w.tid < |old(tasks)| && r == Got(w.tid, old(tasks)[w.tid].wrdvno, w.req.msg, w.tid in noEnd)
                     && TaskOf(r.rdvno) == w.tid && r.rdvno !in old(spent)
                     && ports == old(ports)[n := p.(calls := Left(p.calls, k))]
                     && (if r.void
                         then tasks == old(tasks)[w.tid := old(tasks)[w.tid].(st := Idle,
                                                                              wrdvno := r.rdvno + RDVNO_STEP)]
                              && spent == old(spent) + {r.rdvno}
                         else tasks == old(tasks)[w.tid := old(tasks)[w.tid].(st := Ends(r.rdvno, p.maxrmsz),
                                                                              wrdvno := r.rdvno + RDVNO_STEP)]
                              && spent == old(spent))
                else r in {Waiting, Missed}
                     && (r == Waiting ==>
                           && !poll && tasks == old(tasks)[t := old(tasks)[t].(st := Accepts(n))] && spent == old(spent)
                           && ports == old(ports)[n := p.(accepts := Joined(p.accepts, Waiter(t, 0, ptn), false))])
    {
      hide Sound;
      var p := ports[n];
      ghost var was := tasks;
      var k := FirstCaller(p.calls, ptn);
      if k < |p.calls| {
        if noAccept {
          return Barred;
        }
        var w := p.calls[k];
        CallerAt(tasks, ports, spent, n, k);
        Numbers(tasks, ports, spent, w.tid);
        var rdvno := GenRdvno(w.tid);
        tasks := tasks[w.tid := tasks[w.tid].(st := if w.tid in noEnd then Idle else Ends(rdvno, p.maxrmsz))];
        CallerMet(was, tasks, ports, spent, if w.tid in noEnd then {rdvno} else {}, n, k);
        ports := ports[n := p.(calls := Left(p.calls, k))];
        spent := spent + if w.tid in noEnd then {rdvno} else {};
        r := Got(w.tid, rdvno, w.req.msg, w.tid in noEnd);
      } else if noAccept {
        r := Barred;
      } else if poll {
        r := Missed;
      } else {
        tasks := tasks[t := tasks[t].(st := Accepts(n))];
        AcceptQueued(was, ports, spent, n, Waiter(t, 0, ptn));
        var q := Join(p.accepts, Waiter(t, 0, ptn), false);
        ports := ports[n := p.(accepts := q)];
        r := Waiting;
      }
    }

    /** Whether rdvno is the number of a rendezvous that has begun and not ended. */
    predicate Current(rdvno: nat)
      reads this
    {
      TaskOf(rdvno) < |tasks| && tasks[TaskOf(rdvno)].st.Ends? && tasks[TaskOf(rdvno)].st.rdvno == rdvno
    }

    /** How long a reply to the current number rdvno may be. */
    function MaxReply(rdvno: nat): nat
      requires Current(rdvno)
      reads this
    {
      tasks[TaskOf(rdvno)].st.maxrmsz
    }

    /** _tk_rpl_rdv: answers a number that is current, once, with no more bytes than its caller allowed. */
    method RplRdv(rdvno: nat, msg: Message) returns (r: Reply)
      requires Valid()
      modifies `tasks, `spent
      ensures Valid()
      ensures r == WrongNumber <==> !old(Current(rdvno))
      ensures r == BadSize <==> old(Current(rdvno)) && |msg| > old(MaxReply(rdvno))
      ensures r != Done ==> tasks == old(tasks) && spent == old(spent)
      ensures r == Done ==>
                var t := TaskOf(rdvno);
                && rdvno !in old(spent) && spent == old(spent) + {rdvno} && t < |old(tasks)|
                && tasks == old(tasks)[t := old(tasks)[t].(st := Idle, copied := Longest(old(tasks)[t].copied, msg))]
    {
      hide Sound;
      var t := TaskOf(rdvno);
      if !Current(rdvno) {
        return WrongNumber;
      }
      if |msg| > tasks[t].st.maxrmsz {
        return BadSize;
      }
      ghost var was := tasks;
      Numbers(tasks, ports, spent, t);
      tasks := tasks[t := tasks[t].(copied := Longest(tasks[t].copied, msg))];
      tasks := tasks[t := tasks[t].(st := Idle)];
      RendezvousEnds(was, tasks, ports, spent, t);
      spent := spent + {rdvno};
      r := Done;
    }

    /** Whether a forward to port p of the rendezvous rdvno with a message of msgsz bytes is an error. */
    predicate NoForward(p: Port, rdvno: nat, msgsz: nat)
      reads this
    {
      msgsz > p.maxcmsz || !Current(rdvno) || p.maxrmsz > MaxReply(rdvno) || msgsz > MaxReply(rdvno)
    }

    /**
     _tk_fwd_por: passes a current rendezvous on to port n under a new number, or queues its caller there.
     noCall and noEnd say which waits are disabled for the caller at this port.
     */
    method FwdPor(n: nat, pri: int, ptn: Pattern, rdvno: nat, msg: Message, noCall: bool, noEnd: bool)
      returns (r: Forwarded)
      requires Valid() && n < |ports| && ptn != {}
      modifies `tasks, `ports, `spent
      ensures Valid() && |ports| == |old(ports)|
      ensures r.Refused? <==> old(NoForward(ports[n], rdvno, |msg|))
      // E_OBJ for a task that does not exist, a number that is not current or a port with longer replies,
      // E_PAR for a message too long for the port or, all else being right, for its caller
      ensures r == Refused(WrongNumber) <==>
                || TaskOf(rdvno) >= |old(tasks)|
                || (|msg| <= old(ports)[n].maxcmsz
                    && (!old(Current(rdvno)) || old(ports)[n].maxrmsz > old(MaxReply(rdvno))))
      ensures r == Refused(BadSize) <==>
                TaskOf(rdvno) < |old(tasks)| &&
                (|| |msg| > old(ports)[n].maxcmsz
                 || (old(Current(rdvno)) && old(ports)[n].maxrmsz <= old(MaxReply(rdvno)) < |msg|))
      ensures r.Refused? ==> tasks == old(tasks) && ports == old(ports) && spent == old(spent)
      ensures !r.Refused? ==> rdvno !in old(spent) && TaskOf(rdvno) < |old(tasks)| && (r == Stopped <==> noCall)
      ensures r == Stopped ==>
                && tasks == old(tasks)[TaskOf(rdvno) := old(tasks)[TaskOf(rdvno)].(st := Idle)]
                && ports == old(ports) && spent == old(spent) + {rdvno}
      ensures !r.Refused? && r != Stopped ==>
                var p, t := old(ports)[n], TaskOf(rdvno);
                var k := FirstMeeting(p.accepts, ptn);
                if k < |p.accepts|
                then var a, no := p.accepts[k].tid, old(tasks)[t].wrdvno;
                     && r == Passed(a, no, noEnd) && TaskOf(no) == t && no !in old(spent)
                     && a < |old(tasks)| && a != t
                     && ports == old(ports)[n := p.(accepts := Left(p.accepts, k))]
                     && (if noEnd
                         then tasks == old(tasks)[a := old(tasks)[a].(st := Idle)]
                                                 [t := old(tasks)[t].(st := Idle, wrdvno := no + RDVNO_STEP)]
                              && spent == old(spent) + {rdvno, no}
                         else tasks == old(tasks)[a := old(tasks)[a].(st := Idle)]
                                                 [t := old(tasks)[t].(st := Ends(no, p.maxrmsz),
                                                                      wrdvno := no + RDVNO_STEP)]
                              && spent == old(spent) + {rdvno})
                else && r == Requeued && spent == old(spent) + {rdvno}
                     && tasks == old(tasks)[t := old(tasks)[t].(st := Calls(n),
                                                                copied := Longest(old(tasks)[t].copied, msg))]
                     && ports == old(ports)[n := p.(calls := Joined(p.calls, Waiter(t, pri, Call(ptn, msg)), p.tpri))]
    {
      hide Sound;
      var p := ports[n];
      var t := TaskOf(rdvno);
      if t >= |tasks| {
        return Refused(WrongNumber);
      }
      if |msg| > p.maxcmsz {
        return Refused(BadSize);
      }
      if !Current(rdvno) || p.maxrmsz > tasks[t].st.maxrmsz {
        return Refused(WrongNumber);
      }
      if |msg| > tasks[t].st.maxrmsz {
        return Refused(BadSize);
      }
      ghost var was := tasks;
      Numbers(tasks, ports, spent, t);
      var k := FirstMeeting(p.accepts, ptn);
      if noCall {
        tasks := tasks[t := tasks[t].(st := Idle)];
        RendezvousEnds(was, tasks, ports, spent, t);
        spent := spent + {rdvno};
        r := Stopped;
      } else if k < |p.accepts| {
        var a := p.accepts[k].tid;
        AcceptorAt(tasks, ports, spent, n, k);
        var renewed := GenRdvno(t);
        tasks := tasks[a := tasks[a].(st := Idle)];
        tasks := tasks[t := tasks[t].(st := if noEnd then Idle else Ends(renewed, p.maxrmsz))];
        CallMet(was, tasks, ports, spent, if noEnd then {rdvno, renewed} else {rdvno}, n, k, t);
        ports := ports[n := p.(accepts := Left(p.accepts, k))];
        spent := spent + if noEnd then {rdvno, renewed} else {rdvno};
        r := Passed(a, renewed, noEnd);
      } else {
        tasks := tasks[t := tasks[t].(copied := Longest(tasks[t].copied, msg))];
        tasks := tasks[t := tasks[t].(st := Calls(n))];
        CallQueued(was, tasks, ports, spent, {rdvno}, n, Waiter(t, pri, Call(ptn, msg)));
        var q := Join(p.calls, Waiter(t, pri, Call(ptn, msg)), p.tpri);
        ports := ports[n := p.(calls := q)];
        spent := spent + {rdvno};
        r := Requeued;
      }
    }

    /** A calling task leaves its queue by timeout or forced release. */
    method RelCaller(n: nat, k: nat)
      requires Valid() && n < |ports| && k < |ports[n].calls|
      modifies `tasks, `ports
      ensures Valid() && ports == old(ports)[n := old(ports)[n].(calls := Left(old(ports)[n].calls, k))]
      ensures var t := old(ports)[n].calls[k].tid;
              t < |old(tasks)| && tasks == old(tasks)[t := old(tasks)[t].(st := Idle)]
    {
      hide PortOk;
      ghost var was := tasks;
      var p := ports[n];
      var t := p.calls[k].tid;
      CallerState(tasks, p, n, k);
      assert TaskOk(tasks, t);
      tasks := tasks[t := tasks[t].(st := Idle)];
      CallerLeaves(was, tasks, p, n, k);
      ports := ports[n := p.(calls := Left(p.calls, k))];
      OthersKept(was, tasks, old(ports), n);
      TasksKept(was, tasks, {t});
    }

    /** An accepting task leaves its queue by timeout or forced release. */
    method RelAcceptor(n: nat, k: nat)
      requires Valid() && n < |ports| && k < |ports[n].accepts|
      modifies `tasks, `ports
      ensures Valid() && ports == old(ports)[n := old(ports)[n].(accepts := Left(old(ports)[n].accepts, k))]
      ensures var t := old(ports)[n].accepts[k].tid;
              t < |old(tasks)| && tasks == old(tasks)[t := old(tasks)[t].(st := Idle)]
    {
      hide PortOk;
      ghost var was := tasks;
      var p := ports[n];
      var t := p.accepts[k].tid;
      AcceptorState(tasks, p, n, k);
      assert TaskOk(tasks, t);
      tasks := tasks[t := tasks[t].(st := Idle)];
      AcceptorLeaves(was, tasks, p, n, k);
      ports := ports[n := p.(accepts := Left(p.accepts, k))];
      OthersKept(was, tasks, old(ports), n);
      TasksKept(was, tasks, {t});
    }

    /** A caller whose rendezvous has begun is released by force: its number is void from then on. */
    method RelEnd(t: nat)
      requires Valid() && t < |tasks| && tasks[t].st.Ends?
      modifies `tasks, `spent
      ensures Valid() && tasks == old(tasks)[t := old(tasks)[t].(st := Idle)]
      ensures spent == old(spent) + {old(tasks)[t].st.rdvno}
    {
      hide PortOk;
      ghost var was := tasks;
      assert TaskOk(tasks, t);
      spent := spent + {tasks[t].st.rdvno};
      tasks := tasks[t := tasks[t].(st := Idle)];
      AllKept(was, tasks, ports);
      TasksKept(was, tasks, {t});
    }

    /** cal_chg_pri. */
    method ChgPri(n: nat, k: nat, pri: int)
      requires Valid() && n < |ports| && k < |ports[n].calls| && ports[n].tpri
      modifies `ports
      ensures Valid() && ports == old(ports)[n := old(ports)[n].(calls := Moved(old(ports)[n].calls, k, pri))]
    {
      hide Sound;
      CallMoved(tasks, ports, spent, n, k, pri);
      ports := ports[n := ports[n].(calls := Moved(ports[n].calls, k, pri))];
    }
  }

  lemma TasksKept(tasks: seq<Task>, tasks': seq<Task>, T: set<nat>)
    requires |tasks'| == |tasks| && forall t :: 0 <= t < |tasks| ==> TaskOk(tasks, t)
    requires forall t :: 0 <= t < |tasks| ==> tasks'[t] == tasks[t] || t in T
    requires forall t :: t in T && t < |tasks'| ==> TaskOk(tasks', t)
    ensures forall t :: 0 <= t < |tasks'| ==> TaskOk(tasks', t)
  {
    forall t | 0 <= t < |tasks'| ensures TaskOk(tasks', t) {
      assert TaskOk(tasks, t);
    }
  }

  lemma AcceptorState(tasks: seq<Task>, p: Port, n: nat, k: nat)
    requires PortOk(tasks, p, n) && k < |p.accepts|
    ensures p.accepts[k].tid < |tasks| && tasks[p.accepts[k].tid].st == Accepts(n)
  {
    assert p.accepts[k] in p.accepts;
  }

  lemma CallerState(tasks: seq<Task>, p: Port, n: nat, k: nat)
    requires PortOk(tasks, p, n) && k < |p.calls|
    ensures p.calls[k].tid < |tasks| && tasks[p.calls[k].tid].st == Calls(n) && p.maxrmsz <= tasks[p.calls[k].tid].limit
  {
    assert p.calls[k] in p.calls;
  }

  /** Ports other than n keep in order when the tasks that changed waited at n or not at all. */
  lemma OthersKept(tasks: seq<Task>, tasks': seq<Task>, ports: seq<Port>, n: nat)
    requires forall m :: 0 <= m < |ports| ==> PortOk(tasks, ports[m], m)
    requires |tasks'| == |tasks| && n < |ports|
    requires forall t :: 0 <= t < |tasks| && tasks'[t] != tasks[t] ==>
               tasks[t].st == Idle || tasks[t].st.Ends? || tasks[t].st == Calls(n) || tasks[t].st == Accepts(n)
    ensures forall m :: 0 <= m < |ports| && m != n ==> PortOk(tasks', ports[m], m)
  {
    hide PortOk;
    forall m | 0 <= m < |ports| && m != n ensures PortOk(tasks', ports[m], m) {
      PortKept(tasks, tasks', ports[m], m);
    }
  }

  lemma AllKept(tasks: seq<Task>, tasks': seq<Task>, ports: seq<Port>)
    requires forall m :: 0 <= m < |ports| ==> PortOk(tasks, ports[m], m)
    requires |tasks'| == |tasks|
    requires forall t :: 0 <= t < |tasks| && tasks'[t] != tasks[t] ==> tasks[t].st.Ends?
    ensures forall m :: 0 <= m < |ports| ==> PortOk(tasks', ports[m], m)
  {
    hide PortOk;
    forall m | 0 <= m < |ports| ensures PortOk(tasks', ports[m], m) {
      PortKept(tasks, tasks', ports[m], m);
    }
  }
}
