/**
 The fast lock: a counter and a binary semaphore. Every atomic step of every task is a transition, so a
 run is any interleaving of the steps of any number of tasks.
 */
module FastLock {
  import opened WaitQueue
  import Semaphore

  // Wait: has incremented, about to call tk_wai_sem. Signal: has decremented, about to call tk_sig_sem.
  datatype PC = Idle | Wait | Blocked | Holds | Signal

  datatype State = State(pc: seq<PC>, cnt: int, semcnt: int, queue: Semaphore.Queue)

  // Reorder: the priority of a waiting task changes.
  datatype Action = Inc | WaiSem(pri: int) | Reorder(pri: int) | Dec | SigSem

  predicate Enabled(s: State, t: nat, a: Action) {
    && t < |s.pc|
    && match a
       case Inc => s.pc[t] == Idle
       case WaiSem(_) => s.pc[t] == Wait
       case Reorder(_) => s.pc[t] == Blocked && QueueIndex(s.queue, t) < |s.queue|
       case Dec => s.pc[t] == Holds
       case SigSem => s.pc[t] == Signal
  }

  /** The tasks that the semaphore has released hold the lock. */
  function Woken(pc: seq<PC>, released: Semaphore.Queue): seq<PC> {
    seq(|pc|, i requires 0 <= i < |pc| =>
      if pc[i] == Blocked && QueueIndex(released, i) < |released| then Holds else pc[i])
  }

  /** Each step; the semaphore was created with maximum 1, TA_TPRI and without TA_CNT. */
  function Next(s: State, t: nat, a: Action): State
    requires Enabled(s, t, a)
  {
    match a
    case Inc => s.(cnt := s.cnt + 1, pc := s.pc[t := if s.cnt + 1 > 0 then Wait else Holds])
    case WaiSem(pri) =>
      if OnTop(s.queue, pri, true) && s.semcnt >= 1 then s.(semcnt := s.semcnt - 1, pc := s.pc[t := Holds])
      else s.(pc := s.pc[t := Blocked], queue := Joined(s.queue, Waiter(t, pri, 1), true))
    case Reorder(pri) => s.(queue := Moved(s.queue, QueueIndex(s.queue, t), pri))
    case Dec => s.(cnt := s.cnt - 1, pc := s.pc[t := if s.cnt > 0 then Signal else Idle])
    case SigSem =>
      if 1 > 1 - s.semcnt then s.(pc := s.pc[t := Idle]) // E_QOVR
      else
        var o := Semaphore.Scan(s.semcnt + 1, s.queue, false);
        s.(pc := Woken(s.pc[t := Idle], o.released), semcnt := o.cnt, queue := o.queue)
  }

  predicate Init(s: State) {
    (forall t :: 0 <= t < |s.pc| ==> s.pc[t] == Idle) && s.cnt == -1 && s.semcnt == 0 && s.queue == []
  }

  // ---------------------------------------------------------------- invariants

  /** The tasks that have incremented the counter and not yet decremented it. */
  function Inside(pc: seq<PC>): nat {
    if pc == [] then 0 else Inside(pc[..|pc| - 1]) + if pc[|pc| - 1] in {Wait, Blocked, Holds} then 1 else 0
  }

  /** The tasks that hold the lock and those about to signal. */
  function Tokens(pc: seq<PC>): nat {
    if pc == [] then 0 else Tokens(pc[..|pc| - 1]) + if pc[|pc| - 1] in {Holds, Signal} then 1 else 0
  }

  ghost predicate Waits(s: State, t: nat, w: Waiter<int>) {
    w in s.queue && w.tid == t
  }

  ghost predicate QueuedBlocked(s: State) {
    forall w :: w in s.queue ==> w.tid < |s.pc| && s.pc[w.tid] == Blocked && w.req == 1
  }

  ghost predicate BlockedQueued(s: State) {
    forall t :: 0 <= t < |s.pc| && s.pc[t] == Blocked ==> exists w :: Waits(s, t, w)
  }

  ghost predicate QueueState(s: State) {
    QueueOk(s.queue, true) && QueuedBlocked(s) && BlockedQueued(s)
  }

  /** Holders, semaphore count and signals on the way add up to one when somebody is inside, else zero. */
  ghost predicate Inv(s: State) {
    && QueueState(s) && 0 <= s.semcnt && (s.semcnt > 0 ==> s.queue == [])
    && s.cnt + 1 == Inside(s.pc)
    && Tokens(s.pc) + s.semcnt == if s.cnt >= 0 then 1 else 0
  }

  lemma {:induction false} Update(pc: seq<PC>, t: nat, p: PC)
    requires t < |pc|
    ensures Inside(pc[t := p])
            == Inside(pc) - (if pc[t] in {Wait, Blocked, Holds} then 1 else 0)
               + if p in {Wait, Blocked, Holds} then 1 else 0
    ensures Tokens(pc[t := p])
            == Tokens(pc) - (if pc[t] in {Holds, Signal} then 1 else 0) + if p in {Holds, Signal} then 1 else 0
  {
    var n := |pc| - 1;
    if t < n {
      Update(pc[..n], t, p);
      assert pc[t := p][..n] == pc[..n][t := p];
    } else {
      assert pc[t := p][..n] == pc[..n];
    }
  }

  lemma {:induction false} NoneInside(pc: seq<PC>)
    requires forall t :: 0 <= t < |pc| ==> pc[t] == Idle
    ensures Inside(pc) == 0 && Tokens(pc) == 0
  {
    if pc != [] {
      NoneInside(pc[..|pc| - 1]);
    }
  }

  lemma {:induction false} TwoTokens(pc: seq<PC>, t: nat, u: nat)
    requires t < u < |pc| && pc[t] in {Holds, Signal} && pc[u] in {Holds, Signal}
    ensures Tokens(pc) >= 2
  {
    var n := |pc| - 1;
    if u < n {
      TwoTokens(pc[..n], t, u);
    } else {
      OneToken(pc[..n], t);
    }
  }

  lemma {:induction false} OneToken(pc: seq<PC>, t: nat)
    requires t < |pc| && pc[t] in {Holds, Signal}
    ensures Tokens(pc) >= 1
  {
    if t < |pc| - 1 {
      OneToken(pc[..|pc| - 1], t);
    }
  }

  lemma {:induction false} SomeInside(pc: seq<PC>, t: nat)
    requires t < |pc| && pc[t] in {Wait, Blocked, Holds}
    ensures Inside(pc) >= 1
  {
    if t < |pc| - 1 {
      SomeInside(pc[..|pc| - 1], t);
    }
  }

  // ---------------------------------------------------------------- the queue

  lemma QueueStays(s: State, s': State, t: nat)
    requires QueueState(s) && t < |s.pc| && s'.queue == s.queue
    requires |s'.pc| == |s.pc| && s'.pc == s.pc[t := s'.pc[t]] && s.pc[t] != Blocked && s'.pc[t] != Blocked
    ensures QueueState(s')
  {
    forall u | 0 <= u < |s'.pc| && s'.pc[u] == Blocked ensures exists w :: Waits(s', u, w) {
      var w :| Waits(s, u, w);
      assert Waits(s', u, w);
    }
  }

  lemma NotQueued(s: State, t: nat)
    requires QueueState(s) && t < |s.pc| && s.pc[t] != Blocked
    ensures Absent(s.queue, t)
  {
    forall i | 0 <= i < |s.queue| ensures s.queue[i].tid != t {
      assert s.queue[i] in s.queue;
    }
  }

  lemma BlockMembers(s: State, s': State, t: nat, w0: Waiter<int>)
    requires QueuedBlocked(s) && BlockedQueued(s) && t < |s.pc| && s.pc[t] != Blocked
    requires w0.tid == t && w0.req == 1 && s'.pc == s.pc[t := Blocked]
    requires forall w :: w in s'.queue <==> w in s.queue || w == w0
    ensures QueuedBlocked(s') && BlockedQueued(s')
  {
    forall u | 0 <= u < |s'.pc| && s'.pc[u] == Blocked ensures exists w :: Waits(s', u, w) {
      if u == t {
        assert Waits(s', u, w0);
      } else {
        var w :| Waits(s, u, w);
        assert Waits(s', u, w);
      }
    }
  }

  lemma LeaveMembers(s: State, s': State, t: nat, w0: Waiter<int>)
    requires QueuedBlocked(s) && BlockedQueued(s) && t < |s.pc| && s'.pc == s.pc[t := Holds] && w0.tid == t
    requires forall w :: w in s'.queue <==> w in s.queue && w != w0
    requires forall w :: w in s'.queue ==> w.tid != t
    ensures QueuedBlocked(s') && BlockedQueued(s')
  {
    forall u | 0 <= u < |s'.pc| && s'.pc[u] == Blocked ensures exists w :: Waits(s', u, w) {
      var w :| Waits(s, u, w);
      assert Waits(s', u, w);
    }
  }

  lemma ReorderMembers(s: State, s': State, w0: Waiter<int>, w1: Waiter<int>)
    requires QueuedBlocked(s) && BlockedQueued(s) && s'.pc == s.pc && w0 in s.queue
    requires w1.tid == w0.tid && w1.req == w0.req
    requires forall w :: w in s'.queue <==> (w in s.queue && w != w0) || w == w1
    ensures QueuedBlocked(s') && BlockedQueued(s')
  {
    forall u | 0 <= u < |s'.pc| && s'.pc[u] == Blocked ensures exists w :: Waits(s', u, w) {
      var w :| Waits(s, u, w);
      assert Waits(s', u, if w == w0 then w1 else w);
    }
  }

  // ---------------------------------------------------------------- steps

  lemma WaiSemInv(s: State, t: nat, pri: int)
    requires Inv(s) && Enabled(s, t, WaiSem(pri))
    ensures Inv(Next(s, t, WaiSem(pri)))
  {
    hide QueuedBlocked, BlockedQueued;
    var s' := Next(s, t, WaiSem(pri));
    Update(s.pc, t, s'.pc[t]);
    SomeInside(s.pc, t);
    if s'.pc[t] == Blocked {
      NotQueued(s, t);
      JoinedOk(s.queue, Waiter(t, pri, 1), true);
      BlockMembers(s, s', t, Waiter(t, pri, 1));
    } else {
      QueueStays(s, s', t);
    }
  }

  lemma ReorderInv(s: State, t: nat, pri: int)
    requires Inv(s) && Enabled(s, t, Reorder(pri))
    ensures Inv(Next(s, t, Reorder(pri)))
  {
    hide QueuedBlocked, BlockedQueued;
    var s' := Next(s, t, Reorder(pri));
    var k := QueueIndex(s.queue, t);
    MovedOk(s.queue, k, pri);
    assert s.queue[k] in s.queue;
    ReorderMembers(s, s', s.queue[k], s.queue[k].(pri := pri));
  }

  /** A signal that finds a count of zero serves the head of the queue if there is one. */
  lemma ServesHead(s: State, t: nat)
    requires QueuedBlocked(s) && s.semcnt == 0 && Enabled(s, t, SigSem)
    ensures s.queue == [] ==> Next(s, t, SigSem) == s.(pc := s.pc[t := Idle], semcnt := 1)
    ensures s.queue != [] ==>
              var u := s.queue[0].tid;
              && u < |s.pc| && u != t && s.pc[u] == Blocked
              && Next(s, t, SigSem) == s.(pc := s.pc[t := Idle][u := Holds], queue := Left(s.queue, 0))
  {
    if s.queue == [] {
      assert Woken(s.pc[t := Idle], []) == s.pc[t := Idle];
    } else {
      var u := s.queue[0].tid;
      assert s.queue[0] in s.queue;
      assert Left(s.queue, 0) == s.queue[1..];
      assert Semaphore.Scan(1, s.queue, false) == Semaphore.Outcome(0, s.queue[1..], [s.queue[0]]);
      assert Woken(s.pc[t := Idle], [s.queue[0]]) == s.pc[t := Idle][u := Holds];
    }
  }

  /** A signal never overflows the semaphore, and it serves the head of the queue if there is one. */
  lemma SignalServes(s: State, t: nat)
    requires Inv(s) && Enabled(s, t, SigSem)
    ensures s.semcnt == 0
    ensures s.queue == [] ==> Next(s, t, SigSem) == s.(pc := s.pc[t := Idle], semcnt := 1)
    ensures s.queue != [] ==>
              var u := s.queue[0].tid;
              && u < |s.pc| && u != t && s.pc[u] == Blocked
              && Next(s, t, SigSem) == s.(pc := s.pc[t := Idle][u := Holds], queue := Left(s.queue, 0))
  {
    OneToken(s.pc, t);
    ServesHead(s, t);
  }

  lemma SigSemInv(s: State, t: nat)
    requires Inv(s) && Enabled(s, t, SigSem)
    ensures Inv(Next(s, t, SigSem))
  {
    hide QueuedBlocked, BlockedQueued, Woken;
    var s' := Next(s, t, SigSem);
    SignalServes(s, t);
    Update(s.pc, t, Idle);
    if s.queue == [] {
      QueueStays(s, s', t);
    } else {
      var u := s.queue[0].tid;
      Update(s.pc[t := Idle], u, Holds);
      LeftOk(s.queue, 0, true);
      var s1 := s.(pc := s.pc[u := Holds], queue := Left(s.queue, 0));
      forall w | w in s1.queue ensures w.tid != u {
        var i :| 0 <= i < |s1.queue| && s1.queue[i] == w;
      }
      LeaveMembers(s, s1, u, s.queue[0]);
      QueueStays(s1, s', t);
    }
  }

  lemma StepInv(s: State, t: nat, a: Action)
    requires Inv(s) && Enabled(s, t, a)
    ensures Inv(Next(s, t, a))
  {
    match a
    case Inc =>
      Update(s.pc, t, Next(s, t, a).pc[t]);
      QueueStays(s, Next(s, t, a), t);
    case WaiSem(pri) => WaiSemInv(s, t, pri);
    case Reorder(pri) => ReorderInv(s, t, pri);
    case Dec =>
      Update(s.pc, t, Next(s, t, a).pc[t]);
      SomeInside(s.pc, t);
      OneToken(s.pc, t);
      QueueStays(s, Next(s, t, a), t);
    case SigSem => SigSemInv(s, t);
  }

  // ---------------------------------------------------------------- runs

  ghost predicate Step(s: State, s': State) {
    exists t, a :: Enabled(s, t, a) && s' == Next(s, t, a)
  }

  /** States joined by single steps of tasks, in any interleaving. */
  ghost predicate Steps(states: seq<State>) {
    states != [] && forall i :: 0 <= i < |states| - 1 ==> Step(states[i], states[i + 1])
  }

  ghost predicate Run(states: seq<State>) {
    Steps(states) && Init(states[0])
  }

  /** CreateLock, with the tasks outside the lock. */
  lemma InitInv(s: State)
    requires Init(s)
    ensures Inv(s)
  {
    NoneInside(s.pc);
  }

  lemma {:induction false} RunInv(states: seq<State>, i: nat)
    requires Run(states) && i < |states|
    ensures Inv(states[i])
  {
    hide Inv, Init, Next, Enabled;
    if i == 0 {
      InitInv(states[0]);
    } else {
      RunInv(states, i - 1);
      assert Step(states[i - 1], states[i - 1 + 1]);
      var t, a :| Enabled(states[i - 1], t, a) && states[i] == Next(states[i - 1], t, a);
      StepInv(states[i - 1], t, a);
    }
  }

  lemma MutualExclusion(states: seq<State>, i: nat, t: nat, u: nat)
    requires Run(states) && i < |states| && t < |states[i].pc| && u < |states[i].pc|
    requires states[i].pc[t] == Holds && states[i].pc[u] == Holds
    ensures t == u
  {
    RunInv(states, i);
    if t < u {
      TwoTokens(states[i].pc, t, u);
    } else if u < t {
      TwoTokens(states[i].pc, u, t);
    }
  }

  /** The semaphore of maximum 1 never overflows. */
  lemma NoOverflow(states: seq<State>, i: nat, t: nat)
    requires Run(states) && i < |states| && Enabled(states[i], t, SigSem)
    ensures states[i].semcnt + 1 <= 1
  {
    RunInv(states, i);
    OneToken(states[i].pc, t);
  }

  /** A blocked task is never forgotten: someone holds the lock or is about to signal. */
  lemma BlockedIsServed(states: seq<State>, i: nat, t: nat)
    requires Run(states) && i < |states| && t < |states[i].pc| && states[i].pc[t] == Blocked
    ensures exists u :: 0 <= u < |states[i].pc| && states[i].pc[u] in {Holds, Signal}
  {
    RunInv(states, i);
    var s := states[i];
    var w :| Waits(s, t, w);
    SomeInside(s.pc, t);
    TokenHolder(s.pc);
  }

  lemma {:induction false} TokenHolder(pc: seq<PC>)
    requires Tokens(pc) > 0
    ensures exists u :: 0 <= u < |pc| && pc[u] in {Holds, Signal}
  {
    var n := |pc| - 1;
    if pc[n] !in {Holds, Signal} {
      TokenHolder(pc[..n]);
      var u :| 0 <= u < n && pc[..n][u] in {Holds, Signal};
      assert pc[u] in {Holds, Signal};
    }
  }

  // ---------------------------------------------------------------- forced release

  predicate CanForce(s: State, t: nat) {
    t < |s.pc| && s.pc[t] == Blocked && QueueIndex(s.queue, t) < |s.queue|
  }

  /** A forced release of a waiting task: Lock ignores the error and returns as if it had the lock. */
  function Forced(s: State, t: nat): State
    requires CanForce(s, t)
  {
    s.(pc := s.pc[t := Holds], queue := Left(s.queue, QueueIndex(s.queue, t)))
  }

  ghost predicate Exclusive(s: State) {
    forall t, u :: 0 <= t < |s.pc| && 0 <= u < |s.pc| && s.pc[t] == Holds && s.pc[u] == Holds ==> t == u
  }

  /** What is left of the queue and the one other token when task t has been released by force. */
  lemma ForcedState(s: State, t: nat) returns (u: nat)
    requires Inv(s) && CanForce(s, t)
    ensures u < |s.pc| && u != t && s.pc[u] in {Holds, Signal}
    ensures s.semcnt == 0 && s.cnt >= 0 && QueuedBlocked(Forced(s, t))
  {
    var k := QueueIndex(s.queue, t);
    assert s.queue[k] in s.queue;
    SomeInside(s.pc, t);
    TokenHolder(s.pc);
    u :| 0 <= u < |s.pc| && s.pc[u] in {Holds, Signal};
    LeftOk(s.queue, k, true);
    var q := Left(s.queue, k);
    forall w | w in q ensures w.tid != t {
      var i :| 0 <= i < |q| && q[i] == w;
    }
  }

  /** The signal on the way serves the next task in the queue. */
  lemma SecondServed(s: State, t: nat, u: nat) returns (states: seq<State>)
    requires QueuedBlocked(s) && s.semcnt == 0 && s.queue != []
    requires t < |s.pc| && s.pc[t] == Holds && u < |s.pc| && s.pc[u] == Signal
    ensures Steps(states) && |states| == 2 && states[0] == s && !Exclusive(states[1])
  {
    ServesHead(s, u);
    var s1 := Next(s, u, SigSem);
    states := [s, s1];
    assert Step(states[0], states[1]);
    assert s1.pc[t] == Holds && s1.pc[s.queue[0].tid] == Holds;
  }

  /** The signal on the way leaves a count behind, which its sender may take for a second lock. */
  lemma SecondAcquired(s: State, t: nat, u: nat) returns (states: seq<State>)
    requires QueuedBlocked(s) && s.semcnt == 0 && s.queue == [] && s.cnt >= 0
    requires t < |s.pc| && s.pc[t] == Holds && u < |s.pc| && s.pc[u] == Signal
    ensures Steps(states) && |states| == 4 && states[0] == s && !Exclusive(states[3])
  {
    ServesHead(s, u);
    var s1 := Next(s, u, SigSem);
    var s2 := Next(s1, u, Inc);
    var s3 := Next(s2, u, WaiSem(0));
    states := [s, s1, s2, s3];
    assert Enabled(s, u, SigSem) && Enabled(s1, u, Inc) && Enabled(s2, u, WaiSem(0));
    assert Step(s, s1) && Step(s1, s2) && Step(s2, s3);
    assert s3.pc[t] == Holds && s3.pc[u] == Holds;
  }

  /** A forced release breaks the lock: at most three steps later two tasks may hold it. */
  lemma ForcedReleaseBreaks(s: State, t: nat) returns (states: seq<State>)
    requires Inv(s) && CanForce(s, t)
    ensures Steps(states) && |states| <= 4 && states[0] == Forced(s, t) && !Exclusive(states[|states| - 1])
  {
    var s' := Forced(s, t);
    var u := ForcedState(s, t);
    if s.pc[u] == Holds {
      states := [s'];
      assert s'.pc[u] == Holds && s'.pc[t] == Holds;
    } else if s'.queue != [] {
      states := SecondServed(s', t, u);
    } else {
      states := SecondAcquired(s', t, u);
    }
  }

  /** Whatever the tasks do from s on, at most one holds the lock. */
  ghost predicate Safe(s: State) {
    forall states :: Steps(states) && states[0] == s ==> Exclusive(states[|states| - 1])
  }

  lemma RunSafe(states: seq<State>)
    requires Run(states)
    ensures Safe(states[|states| - 1])
  {
    forall more | Steps(more) && more[0] == states[|states| - 1] ensures Exclusive(more[|more| - 1]) {
      var all := states + more[1..];
      forall i | 0 <= i < |all| - 1 ensures Step(all[i], all[i + 1]) {
        if i < |states| - 1 {
          assert Step(states[i], states[i + 1]);
        } else {
          assert all[i] == more[i - (|states| - 1)] && all[i + 1] == more[i - (|states| - 1) + 1];
        }
      }
      var s := more[|more| - 1];
      assert all[|all| - 1] == s;
      forall t, u | 0 <= t < |s.pc| && 0 <= u < |s.pc| && s.pc[t] == Holds && s.pc[u] == Holds ensures t == u {
        MutualExclusion(all, |all| - 1, t, u);
      }
    }
  }

  datatype Label = Ordinary(t: nat, a: Action) | Force(t: nat)

  predicate Possible(s: State, l: Label) {
    match l
    case Ordinary(t, a) => Enabled(s, t, a)
    case Force(t) => CanForce(s, t)
  }

  function Apply(s: State, l: Label): State
    requires Possible(s, l)
  {
    match l
    case Ordinary(t, a) => Next(s, t, a)
    case Force(t) => Forced(s, t)
  }

  /** A run in which tasks may also be released by force. */
  ghost predicate ForcedRun(states: seq<State>, labels: seq<Label>) {
    && |states| == |labels| + 1 && Init(states[0])
    && forall i :: 0 <= i < |labels| ==> Possible(states[i], labels[i]) && states[i + 1] == Apply(states[i], labels[i])
  }

  lemma {:induction false} OrdinaryRun(states: seq<State>, labels: seq<Label>, n: nat)
    requires ForcedRun(states, labels) && n <= |labels| && forall i :: 0 <= i < n ==> labels[i].Ordinary?
    ensures Run(states[..n + 1])
  {
    var part := states[..n + 1];
    forall i | 0 <= i < n ensures Step(part[i], part[i + 1]) {
      assert part[i] == states[i] && part[i + 1] == states[i + 1];
      assert Possible(states[i], labels[i]);
    }
  }

  /** The lock is safe in every state of a run if and only if nobody is released by force in the run. */
  lemma SafeIffNeverForced(states: seq<State>, labels: seq<Label>)
    requires ForcedRun(states, labels)
    ensures (forall i :: 0 <= i < |states| ==> Safe(states[i])) <==>
              (forall i :: 0 <= i < |labels| ==> labels[i].Ordinary?)
  {
    if forall i :: 0 <= i < |labels| ==> labels[i].Ordinary? {
      forall i | 0 <= i < |states| ensures Safe(states[i]) {
        OrdinaryRun(states, labels, i);
        RunSafe(states[..i + 1]);
      }
    } else {
      var n := FirstForce(labels);
      OrdinaryRun(states, labels, n);
      RunInv(states[..n + 1], n);
      var broken := ForcedReleaseBreaks(states[n], labels[n].t);
      assert !Safe(states[n + 1]);
    }
  }

  lemma {:induction false} FirstForce(labels: seq<Label>) returns (n: nat)
    requires exists i :: 0 <= i < |labels| && labels[i].Force?
    ensures n < |labels| && labels[n].Force? && forall i :: 0 <= i < n ==> labels[i].Ordinary?
  {
    if labels[0].Force? {
      n := 0;
    } else {
      n := FirstForce(labels[1..]);
      assert labels[n + 1] == labels[1..][n];
      forall i | 0 <= i < n + 1 ensures labels[i].Ordinary? {
        assert i > 0 ==> labels[i] == labels[1..][i - 1];
      }
      n := n + 1;
    }
  }

  lemma TwoStepsIn(s0: State, s1: State, s2: State)
    requires s0 == State([Idle, Idle], -1, 0, []) && s1 == State([Holds, Idle], 0, 0, [])
             && s2 == State([Holds, Wait], 1, 0, [])
    ensures Init(s0)
    ensures Possible(s0, Ordinary(0, Inc)) && Apply(s0, Ordinary(0, Inc)) == s1
    ensures Possible(s1, Ordinary(1, Inc)) && Apply(s1, Ordinary(1, Inc)) == s2
  {
  }

  lemma ThenForced(s2: State, s3: State, s4: State)
    requires s2 == State([Holds, Wait], 1, 0, []) && s3 == State([Holds, Blocked], 1, 0, [Waiter(1, 0, 1)])
    requires s4 == State([Holds, Holds], 1, 0, [])
    ensures Possible(s2, Ordinary(1, WaiSem(0))) && Apply(s2, Ordinary(1, WaiSem(0))) == s3
    ensures Possible(s3, Force(1)) && Apply(s3, Force(1)) == s4
  {
    assert QueueIndex(s3.queue, 1) == 0;
  }

  /** Such a run exists: one task holds the lock, another waits for it and is released. */
  lemma ForcedRunExists() returns (states: seq<State>, labels: seq<Label>)
    ensures ForcedRun(states, labels)
            && labels == [Ordinary(0, Inc), Ordinary(1, Inc), Ordinary(1, WaiSem(0)), Force(1)]
    ensures !Exclusive(states[4])
  {
    hide Apply, Possible, Init;
    var s0 := State([Idle, Idle], -1, 0, []);
    var s1 := State([Holds, Idle], 0, 0, []);
    var s2 := State([Holds, Wait], 1, 0, []);
    var s3 := State([Holds, Blocked], 1, 0, [Waiter(1, 0, 1)]);
    var s4 := State([Holds, Holds], 1, 0, []);
    labels := [Ordinary(0, Inc), Ordinary(1, Inc), Ordinary(1, WaiSem(0)), Force(1)];
    states := [s0, s1, s2, s3, s4];
    TwoStepsIn(s0, s1, s2);
    ThenForced(s2, s3, s4);
    assert s4.pc[0] == Holds && s4.pc[1] == Holds;
  }
}
