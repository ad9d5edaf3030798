/**
 The fast multi-lock: lock numbers share one word of lock bits, one counter of tasks inside the lock
 operation and one event flag. Every atomic step of every task is a transition, so a run is any
 interleaving of the steps of any number of tasks.
 */
module FastMLock {
  import opened WaitQueue
  import EventFlag

  // Where a task stands in MLockTmo or MUnlock. Test: about to test and set its bit. Wait: has found it
  // set, about to call tk_wai_flg. Leave: about to decrement the counter. ReadWai: has reset its bit,
  // about to read the counter. SetFlg: about to call tk_set_flg.
  datatype PC =
    | Idle | Test(no: nat) | Wait(no: nat) | Blocked(no: nat)
    | Leave(no: nat, ok: bool) | ReadWai(no: nat) | SetFlg(no: nat)

  datatype State = State(pc: seq<PC>, flg: set<nat>, wai: int, ptn: EventFlag.Pattern,
                         queue: EventFlag.Queue, held: set<(nat, nat)>)

  // GiveUp: timeout or forced release of a waiting task. Reorder: its priority changes.
  datatype Action =
    | Enter(no: nat) | Bts | WaiFlg(pri: int, fails: bool) | GiveUp | Reorder(pri: int) | Exit
    | Unlock(no: nat) | Read | Set

  /** The event flag request of a task that waits for lock number no: TWF_ORW and TWF_BITCLR. */
  function Req(no: nat): EventFlag.Request {
    EventFlag.Request({no}, true, false, true)
  }

  predicate Enabled(s: State, t: nat, a: Action) {
    && t < |s.pc|
    && match a
       case Enter(no) => s.pc[t] == Idle
       case Bts => s.pc[t].Test?
       case WaiFlg(_, _) => s.pc[t].Wait?
       case GiveUp => s.pc[t].Blocked? && QueueIndex(s.queue, t) < |s.queue|
       case Reorder(_) => s.pc[t].Blocked? && QueueIndex(s.queue, t) < |s.queue|
       case Exit => s.pc[t].Leave?
       case Unlock(no) => s.pc[t] == Idle && (t, no) in s.held
       case Read => s.pc[t].ReadWai?
       case Set => s.pc[t].SetFlg?
  }

  /** The tasks that tk_set_flg has released try their bit again. */
  function Woken(pc: seq<PC>, tids: set<nat>): seq<PC> {
    seq(|pc|, i requires 0 <= i < |pc| => if i in tids && pc[i].Blocked? then Test(pc[i].no) else pc[i])
  }

  function Next(s: State, t: nat, a: Action): State
    requires Enabled(s, t, a)
  {
    match a
    case Enter(no) => s.(pc := s.pc[t := Test(no)], wai := s.wai + 1)
    case Bts =>
      var no := s.pc[t].no;
      if no in s.flg then s.(pc := s.pc[t := Wait(no)])
      else s.(pc := s.pc[t := Leave(no, true)], flg := s.flg + {no}, held := s.held + {(t, no)})
    case WaiFlg(pri, fails) =>
      var no := s.pc[t].no;
      if fails then s.(pc := s.pc[t := Leave(no, false)])
      else if EventFlag.Cond(s.ptn, Req(no)) then
        s.(pc := s.pc[t := Test(no)], ptn := EventFlag.Cleared(s.ptn, Req(no)))
      else s.(pc := s.pc[t := Blocked(no)], queue := Joined(s.queue, Waiter(t, pri, Req(no)), true))
    case GiveUp => s.(pc := s.pc[t := Leave(s.pc[t].no, false)], queue := Left(s.queue, QueueIndex(s.queue, t)))
    case Reorder(pri) => s.(queue := Moved(s.queue, QueueIndex(s.queue, t), pri))
    case Exit => s.(pc := s.pc[t := Idle], wai := s.wai - 1)
    case Unlock(no) => s.(pc := s.pc[t := ReadWai(no)], flg := s.flg - {no}, held := s.held - {(t, no)})
    case Read => s.(pc := s.pc[t := if s.wai == 0 then Idle else SetFlg(s.pc[t].no)])
    case Set =>
      var o := EventFlag.Scan(s.ptn + {s.pc[t].no}, s.queue);
      s.(pc := Woken(s.pc[t := Idle], EventFlag.Tids(o.released)), ptn := o.ptn, queue := o.queue)
  }

  /** CreateMLock, with n tasks outside the lock. */
  predicate Init(s: State) {
    (forall t :: 0 <= t < |s.pc| ==> s.pc[t] == Idle) && s.flg == {} && s.wai == 0 && s.ptn == {} && s.queue == []
    && s.held == {}
  }

  // ---------------------------------------------------------------- invariants

  predicate Counted(p: PC) {
    p.Test? || p.Wait? || p.Blocked? || p.Leave?
  }

  function Count(pc: seq<PC>): nat {
    if pc == [] then 0 else Count(pc[..|pc| - 1]) + if Counted(pc[|pc| - 1]) then 1 else 0
  }

  /** A lock bit is set exactly while one task holds that number. */
  ghost predicate HeldOk(s: State) {
    && (forall h :: h in s.held ==> h.0 < |s.pc| && h.1 in s.flg)
    && (forall no :: no in s.flg ==> exists t :: (t, no) in s.held)
    && (forall h, g :: h in s.held && g in s.held && h.1 == g.1 ==> h.0 == g.0)
  }

  ghost predicate Waits(s: State, t: nat, w: Waiter<EventFlag.Request>) {
    w in s.queue && w.tid == t
  }

  /** The tasks in the event flag's queue are those that are blocked, and none of their bits is set. */
  ghost predicate QueueState(s: State) {
    QueueOk(s.queue, true) && QueuedBlocked(s) && BlockedQueued(s) && EventFlag.NoneMissed(s.ptn, s.queue)
  }

  ghost predicate QueuedBlocked(s: State) {
    forall w :: w in s.queue ==> w.tid < |s.pc| && s.pc[w.tid].Blocked? && w.req == Req(s.pc[w.tid].no)
  }

  ghost predicate BlockedQueued(s: State) {
    forall t :: 0 <= t < |s.pc| && s.pc[t].Blocked? ==> exists w :: Waits(s, t, w)
  }

  /** Some task is on its way to wake a waiter of number no, or to try the bit itself. */
  ghost predicate OnTheWay(s: State, no: nat) {
    exists u :: 0 <= u < |s.pc| && (s.pc[u] == Test(no) || s.pc[u] == ReadWai(no) || s.pc[u] == SetFlg(no))
  }

  ghost predicate Waiting(p: PC, no: nat) {
    p == Wait(no) || p == Blocked(no)
  }

  /** No wakeup is lost: a free number that a task is waiting for has its event bit set or someone coming. */
  ghost predicate NoneLost(s: State) {
    forall t, no :: 0 <= t < |s.pc| && Waiting(s.pc[t], no) && no !in s.flg ==> no in s.ptn || OnTheWay(s, no)
  }

  /** Whoever is told that it has got a lock number holds it. */
  ghost predicate TruthTold(s: State) {
    forall t :: 0 <= t < |s.pc| && s.pc[t].Leave? && s.pc[t].ok ==> (t, s.pc[t].no) in s.held
  }

  ghost predicate Inv(s: State) {
    HeldOk(s) && TruthTold(s) && s.wai == Count(s.pc) && QueueState(s) && NoneLost(s)
  }

  lemma {:induction false} CountUpdate(pc: seq<PC>, t: nat, p: PC)
    requires t < |pc|
    ensures Count(pc[t := p]) == Count(pc) - (if Counted(pc[t]) then 1 else 0) + if Counted(p) then 1 else 0
  {
    var n := |pc| - 1;
    if t < n {
      CountUpdate(pc[..n], t, p);
      assert pc[t := p][..n] == pc[..n][t := p];
    } else {
      assert pc[t := p][..n] == pc[..n];
    }
  }

  lemma {:induction false} CountSame(pc: seq<PC>, pc': seq<PC>)
    requires |pc| == |pc'| && forall i :: 0 <= i < |pc| ==> Counted(pc[i]) == Counted(pc'[i])
    ensures Count(pc) == Count(pc')
  {
    if pc != [] {
      CountSame(pc[..|pc| - 1], pc'[..|pc| - 1]);
    }
  }

  lemma {:induction false} CountSome(pc: seq<PC>, t: nat)
    requires t < |pc| && Counted(pc[t])
    ensures Count(pc) > 0
  {
    if t < |pc| - 1 {
      CountSome(pc[..|pc| - 1], t);
    }
  }

  lemma {:induction false} InitInv(s: State)
    requires Init(s)
    ensures Inv(s)
  {
    CountNone(s.pc);
  }

  lemma {:induction false} CountNone(pc: seq<PC>)
    requires forall t :: 0 <= t < |pc| ==> pc[t] == Idle
    ensures Count(pc) == 0
  {
    if pc != [] {
      CountNone(pc[..|pc| - 1]);
    }
  }

  // ---------------------------------------------------------------- steps that leave the event flag alone

  /** A task that is not blocked moves, and the event flag stays. */
  lemma QueueStays(s: State, s': State, t: nat)
    requires QueueState(s) && t < |s.pc| && s'.queue == s.queue && s'.ptn <= s.ptn
    requires |s'.pc| == |s.pc| && s'.pc == s.pc[t := s'.pc[t]] && !s.pc[t].Blocked? && !s'.pc[t].Blocked?
    ensures QueueState(s')
  {
    forall w | w in s'.queue ensures !EventFlag.Cond(s'.ptn, w.req) {
      EventFlag.CondMonotone(s.ptn, s'.ptn, w.req);
    }
    forall u | 0 <= u < |s'.pc| && s'.pc[u].Blocked? ensures exists w :: Waits(s', u, w) {
      var w :| Waits(s, u, w);
      assert Waits(s', u, w);
    }
  }

  /** Whoever was on the way, other than t, still is. */
  lemma WayStays(s: State, s': State, t: nat, no: nat)
    requires OnTheWay(s, no) && t < |s.pc| == |s'.pc| && forall u :: 0 <= u < |s.pc| && u != t ==> s'.pc[u] == s.pc[u]
    requires s.pc[t] == Test(no) || s.pc[t] == ReadWai(no) || s.pc[t] == SetFlg(no) ==>
               s'.pc[t] == Test(no) || s'.pc[t] == ReadWai(no) || s'.pc[t] == SetFlg(no)
    ensures OnTheWay(s', no)
  {
    var u :| 0 <= u < |s.pc| && (s.pc[u] == Test(no) || s.pc[u] == ReadWai(no) || s.pc[u] == SetFlg(no));
    assert s'.pc[u] == Test(no) || s'.pc[u] == ReadWai(no) || s'.pc[u] == SetFlg(no);
  }

  lemma EnterInv(s: State, t: nat, no: nat)
    requires Inv(s) && Enabled(s, t, Enter(no))
    ensures Inv(Next(s, t, Enter(no)))
  {
    var s' := Next(s, t, Enter(no));
    CountUpdate(s.pc, t, Test(no));
    QueueStays(s, s', t);
    forall u, n | 0 <= u < |s'.pc| && Waiting(s'.pc[u], n) && n !in s'.flg && n !in s'.ptn ensures OnTheWay(s', n) {
      assert Waiting(s.pc[u], n);
      WayStays(s, s', t, n);
    }
  }

  lemma BtsInv(s: State, t: nat)
    requires Inv(s) && Enabled(s, t, Bts)
    ensures Inv(Next(s, t, Bts))
  {
    var s' := Next(s, t, Bts);
    var no := s.pc[t].no;
    CountUpdate(s.pc, t, s'.pc[t]);
    QueueStays(s, s', t);
    forall u, n | 0 <= u < |s'.pc| && Waiting(s'.pc[u], n) && n !in s'.flg && n !in s'.ptn ensures OnTheWay(s', n) {
      assert n != no && Waiting(s.pc[u], n);
      WayStays(s, s', t, n);
    }
    forall n | n in s'.flg ensures exists u :: (u, n) in s'.held {
      if n in s.flg {
        var u :| (u, n) in s.held;
        assert (u, n) in s'.held;
      } else {
        assert (t, n) in s'.held;
      }
    }
  }

  lemma ExitInv(s: State, t: nat)
    requires Inv(s) && Enabled(s, t, Exit)
    ensures Inv(Next(s, t, Exit))
  {
    var s' := Next(s, t, Exit);
    CountUpdate(s.pc, t, Idle);
    QueueStays(s, s', t);
    forall u, n | 0 <= u < |s'.pc| && Waiting(s'.pc[u], n) && n !in s'.flg && n !in s'.ptn ensures OnTheWay(s', n) {
      assert Waiting(s.pc[u], n);
      WayStays(s, s', t, n);
    }
  }

  lemma UnlockInv(s: State, t: nat, no: nat)
    requires Inv(s) && Enabled(s, t, Unlock(no))
    ensures Inv(Next(s, t, Unlock(no)))
  {
    var s' := Next(s, t, Unlock(no));
    CountUpdate(s.pc, t, ReadWai(no));
    QueueStays(s, s', t);
    forall u, n | 0 <= u < |s'.pc| && Waiting(s'.pc[u], n) && n !in s'.flg && n !in s'.ptn ensures OnTheWay(s', n) {
      if n == no {
        assert s'.pc[t] == ReadWai(n);
      } else {
        assert Waiting(s.pc[u], n);
        WayStays(s, s', t, n);
      }
    }
    forall n | n in s'.flg ensures exists u :: (u, n) in s'.held {
      var u :| (u, n) in s.held;
      assert (u, n) in s'.held;
    }
  }

  /** A counter of zero means that nobody is inside the lock operation, so there is nobody to wake. */
  lemma ReadInv(s: State, t: nat)
    requires Inv(s) && Enabled(s, t, Read)
    ensures Inv(Next(s, t, Read))
  {
    var s' := Next(s, t, Read);
    CountUpdate(s.pc, t, s'.pc[t]);
    QueueStays(s, s', t);
    forall u, n | 0 <= u < |s'.pc| && Waiting(s'.pc[u], n) && n !in s'.flg && n !in s'.ptn ensures OnTheWay(s', n) {
      assert Waiting(s.pc[u], n);
      CountSome(s.pc, u);
      WayStays(s, s', t, n);
    }
  }

  // ---------------------------------------------------------------- steps on the event flag

  lemma CondIsBit(p: EventFlag.Pattern, no: nat)
    ensures EventFlag.Cond(p, Req(no)) <==> no in p
    ensures EventFlag.Cleared(p, Req(no)) == p - {no}
  {
    if no in p {
      assert no in p * {no};
    }
  }

  /** Nobody who is not blocked stands in the queue. */
  lemma NotQueued(s: State, t: nat)
    requires QueueState(s) && t < |s.pc| && !s.pc[t].Blocked?
    ensures Absent(s.queue, t)
  {
    forall i | 0 <= i < |s.queue| ensures s.queue[i].tid != t {
      assert s.queue[i] in s.queue;
    }
  }

  lemma BlockQueue(s: State, t: nat, pri: int, no: nat)
    requires QueueState(s) && t < |s.pc| && !s.pc[t].Blocked? && no !in s.ptn
    ensures QueueState(s.(pc := s.pc[t := Blocked(no)], queue := Joined(s.queue, Waiter(t, pri, Req(no)), true)))
  {
    hide QueuedBlocked, BlockedQueued;
    var w0 := Waiter(t, pri, Req(no));
    var s' := s.(pc := s.pc[t := Blocked(no)], queue := Joined(s.queue, w0, true));
    NotQueued(s, t);
    JoinedOk(s.queue, w0, true);
    CondIsBit(s.ptn, no);
    BlockMembers(s, s', t, w0, no);
  }

  lemma BlockMembers(s: State, s': State, t: nat, w0: Waiter<EventFlag.Request>, no: nat)
    requires QueuedBlocked(s) && BlockedQueued(s) && t < |s.pc| && !s.pc[t].Blocked?
    requires w0.tid == t && w0.req == Req(no) && s'.pc == s.pc[t := Blocked(no)]
    requires forall w :: w in s'.queue <==> w in s.queue || w == w0
    ensures QueuedBlocked(s') && BlockedQueued(s')
  {
    forall u | 0 <= u < |s'.pc| && s'.pc[u].Blocked? ensures exists w :: Waits(s', u, w) {
      if u == t {
        assert Waits(s', u, w0);
      } else {
        var w :| Waits(s, u, w);
        assert Waits(s', u, w);
      }
    }
  }

  lemma WaiFlgInv(s: State, t: nat, pri: int, fails: bool)
    requires Inv(s) && Enabled(s, t, WaiFlg(pri, fails))
    ensures Inv(Next(s, t, WaiFlg(pri, fails)))
  {
    var s' := Next(s, t, WaiFlg(pri, fails));
    var no := s.pc[t].no;
    CountUpdate(s.pc, t, s'.pc[t]);
    CondIsBit(s.ptn, no);
    if s'.pc[t].Blocked? {
      BlockQueue(s, t, pri, no);
    } else {
      QueueStays(s, s', t);
    }
    forall u, n | 0 <= u < |s'.pc| && Waiting(s'.pc[u], n) && n !in s'.flg && n !in s'.ptn ensures OnTheWay(s', n) {
      if n in s.ptn {
        assert s'.pc[t] == Test(n);
      } else {
        assert exists r :: 0 <= r < |s.pc| && Waiting(s.pc[r], n) by {
          assert Waiting(s.pc[u], n);
        }
        WayStays(s, s', t, n);
      }
    }
  }

  lemma GiveUpQueue(s: State, t: nat, p: PC)
    requires QueueState(s) && t < |s.pc| && s.pc[t].Blocked? && QueueIndex(s.queue, t) < |s.queue| && !p.Blocked?
    ensures QueueState(s.(pc := s.pc[t := p], queue := Left(s.queue, QueueIndex(s.queue, t))))
  {
    hide QueuedBlocked, BlockedQueued;
    var k := QueueIndex(s.queue, t);
    var s' := s.(pc := s.pc[t := p], queue := Left(s.queue, k));
    LeftOk(s.queue, k, true);
    forall w | w in s'.queue ensures w.tid != t {
      var i :| 0 <= i < |s'.queue| && s'.queue[i] == w;
    }
    GiveUpMembers(s, s', t, s.queue[k]);
  }

  lemma GiveUpMembers(s: State, s': State, t: nat, w0: Waiter<EventFlag.Request>)
    requires QueuedBlocked(s) && BlockedQueued(s) && t < |s.pc| && |s'.pc| == |s.pc| && s'.pc == s.pc[t := s'.pc[t]]
             && !s'.pc[t].Blocked?
    requires w0.tid == t
    requires forall w :: w in s'.queue <==> w in s.queue && w != w0
    requires forall w :: w in s'.queue ==> w.tid != t
    ensures QueuedBlocked(s') && BlockedQueued(s')
  {
    forall u | 0 <= u < |s'.pc| && s'.pc[u].Blocked? ensures exists w :: Waits(s', u, w) {
      var w :| Waits(s, u, w);
      assert Waits(s', u, w);
    }
  }

  lemma GiveUpInv(s: State, t: nat)
    requires Inv(s) && Enabled(s, t, GiveUp)
    ensures Inv(Next(s, t, GiveUp))
  {
    hide QueueState;
    var s' := Next(s, t, GiveUp);
    CountUpdate(s.pc, t, s'.pc[t]);
    GiveUpQueue(s, t, s'.pc[t]);
    forall u, n | 0 <= u < |s'.pc| && Waiting(s'.pc[u], n) && n !in s'.flg && n !in s'.ptn ensures OnTheWay(s', n) {
      assert Waiting(s.pc[u], n);
      WayStays(s, s', t, n);
    }
  }

  lemma ReorderQueue(s: State, k: nat, pri: int)
    requires QueueState(s) && k < |s.queue|
    ensures QueueState(s.(queue := Moved(s.queue, k, pri)))
  {
    hide QueuedBlocked, BlockedQueued;
    var w0 := s.queue[k];
    var s' := s.(queue := Moved(s.queue, k, pri));
    assert w0 in s.queue;
    MovedOk(s.queue, k, pri);
    ReorderMembers(s, s', w0, w0.(pri := pri));
  }

  lemma ReorderMembers(s: State, s': State, w0: Waiter<EventFlag.Request>, w1: Waiter<EventFlag.Request>)
    requires QueuedBlocked(s) && BlockedQueued(s) && s'.pc == s.pc && w0 in s.queue
    requires w1.tid == w0.tid && w1.req == w0.req
    requires forall w :: w in s'.queue <==> (w in s.queue && w != w0) || w == w1
    ensures QueuedBlocked(s') && BlockedQueued(s')
  {
    forall u | 0 <= u < |s'.pc| && s'.pc[u].Blocked? ensures exists w :: Waits(s', u, w) {
      var w :| Waits(s, u, w);
      assert Waits(s', u, if w == w0 then w1 else w);
    }
  }

  lemma ReorderInv(s: State, t: nat, pri: int)
    requires Inv(s) && Enabled(s, t, Reorder(pri))
    ensures Inv(Next(s, t, Reorder(pri)))
  {
    hide QueueState;
    var s' := Next(s, t, Reorder(pri));
    ReorderQueue(s, QueueIndex(s.queue, t), pri);
    forall u, n | 0 <= u < |s'.pc| && Waiting(s'.pc[u], n) && n !in s'.flg && n !in s'.ptn ensures OnTheWay(s', n) {
      assert OnTheWay(s, n);
      WayStays(s, s', t, n);
    }
  }

  // ---------------------------------------------------------------- tk_set_flg

  lemma ScanHit(p: EventFlag.Pattern, q: EventFlag.Queue, no: nat)
    requires EventFlag.NoneMissed(p, q) && q != [] && q[0].req == Req(no)
    ensures EventFlag.Scan(p + {no}, q) == EventFlag.Outcome(p, q[1..], [EventFlag.Release(q[0].tid, p + {no})])
  {
    assert q[0] in q && q == [q[0]] + q[1..];
    CondIsBit(p, no);
    CondIsBit(p + {no}, no);
    assert p + {no} - {no} == p;
    ScanNone(p, q[1..]);
  }

  lemma ScanPass(p: EventFlag.Pattern, q: EventFlag.Queue, no: nat, n: nat)
    requires EventFlag.NoneMissed(p, q) && q != [] && q[0].req == Req(n) && n != no
    ensures var o := EventFlag.Scan(p + {no}, q[1..]);
            EventFlag.Scan(p + {no}, q) == EventFlag.Outcome(o.ptn, [q[0]] + o.queue, o.released)
    ensures EventFlag.NoneMissed(p, q[1..])
  {
    assert q[0] in q && q == [q[0]] + q[1..];
    CondIsBit(p, n);
    CondIsBit(p + {no}, n);
  }

  /** With single-bit requests that clear their bit, setting one bit serves the first task that waits for it. */
  lemma {:induction false} ScanOne(p: EventFlag.Pattern, q: EventFlag.Queue, no: nat) returns (k: nat)
    requires EventFlag.NoneMissed(p, q)
    requires forall w :: w in q ==> exists n :: w.req == Req(n)
    ensures k <= |q| && (k < |q| ==> q[k].req == Req(no)) && forall i :: 0 <= i < k ==> q[i].req != Req(no)
    ensures EventFlag.Scan(p + {no}, q) ==
            if k < |q| then EventFlag.Outcome(p, Left(q, k), [EventFlag.Release(q[k].tid, p + {no})])
            else EventFlag.Outcome(p + {no}, q, [])
  {
    if q == [] {
      k := 0;
    } else {
      assert q[0] in q && q == [q[0]] + q[1..];
      var n :| q[0].req == Req(n);
      if n == no {
        ScanHit(p, q, no);
        k := 0;
        assert Left(q, 0) == q[1..];
      } else {
        ScanPass(p, q, no, n);
        k := ScanOne(p, q[1..], no);
        if k < |q[1..]| {
          assert Left(q, k + 1) == [q[0]] + Left(q[1..], k);
        }
        k := k + 1;
      }
    }
  }

  lemma {:induction false} ScanNone(p: EventFlag.Pattern, q: EventFlag.Queue)
    requires EventFlag.NoneMissed(p, q)
    ensures EventFlag.Scan(p, q) == EventFlag.Outcome(p, q, [])
  {
    if q != [] {
      assert q[0] in q && q == [q[0]] + q[1..];
      ScanNone(p, q[1..]);
    }
  }

  lemma SetServed(s: State, t: nat, k: nat)
    requires Inv(s) && Enabled(s, t, Set) && k < |s.queue| && s.queue[k].req == Req(s.pc[t].no)
    requires EventFlag.Scan(s.ptn + {s.pc[t].no}, s.queue) ==
             EventFlag.Outcome(s.ptn, Left(s.queue, k), [EventFlag.Release(s.queue[k].tid, s.ptn + {s.pc[t].no})])
    ensures var u := s.queue[k].tid;
            && u < |s.pc| && u != t && s.pc[u] == Blocked(s.pc[t].no)
            && Next(s, t, Set) == s.(pc := s.pc[t := Idle][u := Test(s.pc[t].no)], queue := Left(s.queue, k))
    ensures QueueIndex(s.queue, s.queue[k].tid) == k
  {
    var u, no := s.queue[k].tid, s.pc[t].no;
    assert s.queue[k] in s.queue;
    assert s.pc[u].Blocked? && Req(no) == Req(s.pc[u].no);
    assert Req(no).ptn == Req(s.pc[u].no).ptn && no in Req(no).ptn;
    assert EventFlag.Tids([EventFlag.Release(u, s.ptn + {no})]) == {u};
    assert Woken(s.pc[t := Idle], {u}) == s.pc[t := Idle][u := Test(no)];
    var i := QueueIndex(s.queue, u);
    assert i < |s.queue| && s.queue[i].tid == u;
  }

  lemma SetInv(s: State, t: nat)
    requires Inv(s) && Enabled(s, t, Set)
    ensures Inv(Next(s, t, Set))
  {
    var s' := Next(s, t, Set);
    var no := s.pc[t].no;
    forall w | w in s.queue ensures exists n :: w.req == Req(n) {
      assert w.req == Req(s.pc[w.tid].no);
    }
    var k := ScanOne(s.ptn, s.queue, no);
    CountUpdate(s.pc, t, Idle);
    if k < |s.queue| {
      SetServed(s, t, k);
      SetServedInv(s, s', t, k);
    } else {
      SetUnserved(s, t);
      SetUnservedInv(s, s', t);
    }
  }

  lemma SetServedInv(s: State, s': State, t: nat, k: nat)
    requires Inv(s) && Enabled(s, t, Set) && k < |s.queue| && s.queue[k].tid < |s.pc| && s.queue[k].tid != t
    requires s.pc[s.queue[k].tid] == Blocked(s.pc[t].no) && QueueIndex(s.queue, s.queue[k].tid) == k
    requires s' == s.(pc := s.pc[t := Idle][s.queue[k].tid := Test(s.pc[t].no)], queue := Left(s.queue, k))
    ensures Inv(s')
  {
    hide QueueState;
    var u, no := s.queue[k].tid, s.pc[t].no;
    CountUpdate(s.pc, t, Idle);
    CountUpdate(s.pc[t := Idle], u, Test(no));
    var s1 := s.(pc := s.pc[u := Test(no)], queue := Left(s.queue, k));
    GiveUpQueue(s, u, Test(no));
    QueueStays(s1, s', t);
    forall r, n | 0 <= r < |s'.pc| && Waiting(s'.pc[r], n) && n !in s'.flg && n !in s'.ptn ensures OnTheWay(s', n) {
      if n == no {
        assert s'.pc[u] == Test(n);
      } else {
        assert Waiting(s.pc[r], n);
        WayStays(s, s1, u, n);
        WayStays(s1, s', t, n);
      }
    }
  }

  lemma SetUnserved(s: State, t: nat)
    requires Inv(s) && Enabled(s, t, Set)
    requires EventFlag.Scan(s.ptn + {s.pc[t].no}, s.queue) == EventFlag.Outcome(s.ptn + {s.pc[t].no}, s.queue, [])
    ensures Next(s, t, Set) == s.(pc := s.pc[t := Idle], ptn := s.ptn + {s.pc[t].no})
    ensures EventFlag.NoneMissed(s.ptn + {s.pc[t].no}, s.queue)
  {
    assert EventFlag.Tids([]) == {};
    assert Woken(s.pc[t := Idle], {}) == s.pc[t := Idle];
    forall w | w in s.queue ensures w.req.ptn != {} {
      assert w.req == Req(s.pc[w.tid].no);
      assert s.pc[w.tid].no in w.req.ptn;
    }
    EventFlag.ScanMissesNone(s.ptn + {s.pc[t].no}, s.queue);
  }

  lemma SetUnservedInv(s: State, s': State, t: nat)
    requires Inv(s) && Enabled(s, t, Set)
    requires s' == s.(pc := s.pc[t := Idle], ptn := s.ptn + {s.pc[t].no}) && EventFlag.NoneMissed(s'.ptn, s'.queue)
    ensures Inv(s')
  {
    var no := s.pc[t].no;
    CountUpdate(s.pc, t, Idle);
    QueueStays(s, s.(pc := s.pc[t := Idle]), t);
    forall u | 0 <= u < |s'.pc| && s'.pc[u].Blocked? ensures exists w :: Waits(s', u, w) {
      var w :| Waits(s, u, w);
      assert Waits(s', u, w);
    }
    assert QueueState(s');
    forall r, n | 0 <= r < |s'.pc| && Waiting(s'.pc[r], n) && n !in s'.flg && n !in s'.ptn ensures OnTheWay(s', n) {
      assert n != no && Waiting(s.pc[r], n);
      WayStays(s, s', t, n);
    }
  }

  // ---------------------------------------------------------------- runs

  /** Every step of every task keeps the invariant. */
  lemma StepInv(s: State, t: nat, a: Action)
    requires Inv(s) && Enabled(s, t, a)
    ensures Inv(Next(s, t, a))
  {
    match a
    case Enter(no) => EnterInv(s, t, no);
    case Bts => BtsInv(s, t);
    case WaiFlg(pri, fails) => WaiFlgInv(s, t, pri, fails);
    case GiveUp => GiveUpInv(s, t);
    case Reorder(pri) => ReorderInv(s, t, pri);
    case Exit => ExitInv(s, t);
    case Unlock(no) => UnlockInv(s, t, no);
    case Read => ReadInv(s, t);
    case Set => SetInv(s, t);
  }

  /**
   The answer of MLockTmo: a step lets it be success exactly when the step makes the task the holder, and
   an error exactly when the wait has failed or been given up, and then nobody's holding has changed.
   */
  lemma Answers(s: State, t: nat, a: Action, u: nat, no: nat)
    requires Inv(s) && Enabled(s, t, a) && u < |s.pc|
    ensures var s' := Next(s, t, a);
            && |s'.pc| == |s.pc|
            && (s'.pc[u] == Leave(no, true) && s.pc[u] != Leave(no, true) <==> (u, no) in s'.held && (u, no) !in s.held)
            && (s'.pc[u] == Leave(no, false) && s.pc[u] != Leave(no, false) <==>
                  u == t && ((a.WaiFlg? && a.fails && s.pc[t] == Wait(no)) || (a == GiveUp && s.pc[t] == Blocked(no))))
            && (s'.pc[u] == Leave(no, false) && s.pc[u] != Leave(no, false) ==> s'.held == s.held && s'.flg == s.flg)
            && ((u, no) in s.held && (u, no) !in s'.held <==> u == t && a == Unlock(no))
  {
    if a.Bts? {
      assert (t, s.pc[t].no) in s.held ==> s.pc[t].no in s.flg;
    }
  }

  /** What a step on the event flag's queue does is one of two things. */
  lemma SetIs(s: State, t: nat) returns (k: nat)
    requires Inv(s) && Enabled(s, t, Set)
    ensures var s', no := Next(s, t, Set), s.pc[t].no;
            if k < |s.queue|
            then var u := s.queue[k].tid;
                 u < |s.pc| && u != t && s.pc[u] == Blocked(no) && s'.pc == s.pc[t := Idle][u := Test(no)]
            else s'.pc == s.pc[t := Idle]
  {
    forall w | w in s.queue ensures exists n :: w.req == Req(n) {
      assert w.req == Req(s.pc[w.tid].no);
    }
    k := ScanOne(s.ptn, s.queue, s.pc[t].no);
    if k < |s.queue| {
      SetServed(s, t, k);
    } else {
      SetUnserved(s, t);
    }
  }

  /**
   Nobody spins: a task that finds its number taken goes on to wait, waits until the event bit of that
   number is set, and tries the lock bit again only then.
   */
  lemma TriesAgain(s: State, t: nat, a: Action, u: nat, no: nat)
    requires Inv(s) && Enabled(s, t, a) && u < |s.pc|
    ensures var s' := Next(s, t, a);
            && |s'.pc| == |s.pc|
            && (a == Bts && s.pc[t] == Test(no) ==> s'.pc[t] == if no in s.flg then Wait(no) else Leave(no, true))
            && (s'.pc[u] == Blocked(no) && s.pc[u] != Blocked(no) ==> s.pc[u] == Wait(no) && no !in s.ptn)
            && (s'.pc[u] == Test(no) && s.pc[u] != Test(no) ==>
                  || (s.pc[u] == Idle && u == t && a == Enter(no))
                  || (s.pc[u] == Wait(no) && u == t && no in s.ptn)
                  || (s.pc[u] == Blocked(no) && a == Set && s.pc[t] == SetFlg(no)))
  {
    hide Inv, QueueState;
    if a.WaiFlg? {
      CondIsBit(s.ptn, s.pc[t].no);
    } else if a == Set {
      var k := SetIs(s, t);
    }
  }

  /** States joined by single steps of tasks, in any interleaving. */
  ghost predicate Run(states: seq<State>) {
    && states != [] && Init(states[0])
    && forall i :: 0 <= i < |states| - 1 ==>
         exists t, a :: Enabled(states[i], t, a) && states[i + 1] == Next(states[i], t, a)
  }

  lemma {:induction false} RunInv(states: seq<State>, i: nat)
    requires Run(states) && i < |states|
    ensures Inv(states[i])
  {
    if i == 0 {
      InitInv(states[0]);
    } else {
      RunInv(states, i - 1);
      var t, a :| Enabled(states[i - 1], t, a) && states[i] == Next(states[i - 1], t, a);
      StepInv(states[i - 1], t, a);
    }
  }

  /** At most one task holds a lock number, and the counter is exact. */
  lemma MutualExclusion(states: seq<State>, i: nat, t: nat, u: nat, no: nat)
    requires Run(states) && i < |states| && (t, no) in states[i].held && (u, no) in states[i].held
    ensures t == u && no in states[i].flg && states[i].wai == Count(states[i].pc)
  {
    RunInv(states, i);
  }

  /** At most one task is told that it has got a lock number, and that task holds it alone. */
  lemma AnsweredHolds(states: seq<State>, i: nat, t: nat, u: nat, no: nat)
    requires Run(states) && i < |states| && t < |states[i].pc| && states[i].pc[t] == Leave(no, true)
    ensures (t, no) in states[i].held
    ensures (u, no) in states[i].held || (u < |states[i].pc| && states[i].pc[u] == Leave(no, true)) ==> u == t
  {
    hide QueueState, NoneLost, Run;
    RunInv(states, i);
  }

  /**
   No wakeup is lost: while a number is free and a task is blocked on it, an unlocker has yet to set the
   event bit or some task is about to try the lock bit. So once all tasks have come to rest, nobody is
   blocked on a free number.
   */
  lemma NoLostWakeup(states: seq<State>, i: nat, t: nat, no: nat)
    requires Run(states) && i < |states| && t < |states[i].pc| && states[i].pc[t] == Blocked(no) && no !in states[i].flg
    ensures OnTheWay(states[i], no)
  {
    var s := states[i];
    RunInv(states, i);
    assert Waiting(s.pc[t], no);
    var w :| Waits(s, t, w);
    CondIsBit(s.ptn, no);
  }
}
