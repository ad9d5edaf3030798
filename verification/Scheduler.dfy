/**
 The ready queue and the choice of the task to run. Priorities run from 0, the most urgent, to
 NUM_PRI - 1. No task of this model holds or waits for the kernel lock.
 */
module Scheduler {
  import opened Common
  import opened BitSearch

  const NUM_BITMAP := 5

  type TaskId = nat

  const NONE := -1

  datatype Tcb = Tcb(priority: nat, ready: bool, slicecnt: int, slicetime: int)

  type Queues = seq<seq<TaskId>>

  /** Only slice counters differ. */
  ghost predicate SameTasks(a: seq<Tcb>, b: seq<Tcb>) {
    |a| == |b| && forall t :: 0 <= t < |a| ==> b[t].ready == a[t].ready && b[t].priority == a[t].priority
  }

  ghost predicate QueueOk(tcb: seq<Tcb>, q: seq<TaskId>, p: nat) {
    Distinct(q) && forall t :: t in q ==> t < |tcb| && tcb[t].ready && tcb[t].priority == p
  }

  /** Queue p is exactly the ready tasks of priority p, once each. */
  ghost predicate QueuesOk(tcb: seq<Tcb>, Q: Queues) {
    && |Q| == NUM_PRI
    && (forall t :: 0 <= t < |tcb| ==> tcb[t].priority < NUM_PRI && (tcb[t].ready ==> t in Q[tcb[t].priority]))
    && (forall p :: 0 <= p < NUM_PRI ==> QueueOk(tcb, Q[p], p))
  }

  /** A bit of the bitmap is set exactly while the queue of that priority is not empty. */
  ghost predicate BitmapOk(bitmap: seq<Word>, Q: Queues) {
    && |bitmap| == NUM_BITMAP + 1 && |Q| == NUM_PRI
    && (forall i :: 0 <= i < |bitmap| ==> IsWord(bitmap[i]))
    && (forall p :: 0 <= p < NUM_PRI ==> (Bit(bitmap, p) <==> Q[p] != []))
  }

  /** top is the most urgent priority with a ready task, or NUM_PRI. */
  ghost predicate TopOk(Q: Queues, top: nat) {
    && |Q| == NUM_PRI && top <= NUM_PRI
    && (top < NUM_PRI ==> Q[top] != [])
    && forall p :: 0 <= p < top ==> Q[p] == []
  }

  /** The first task of the most urgent queue. */
  function Head(Q: Queues, top: nat): int {
    if top < |Q| && Q[top] != [] then Q[top][0] else NONE
  }

  lemma JoinFacts(q: seq<TaskId>, t: TaskId)
    requires Distinct(q) && t !in q
    ensures Distinct(q + [t]) && Distinct([t] + q)
    ensures forall u :: u in q + [t] <==> u in q || u == t
  {
  }

  // ---------------------------------------------------------------- what the operations do to the queues

  lemma InsertQueues(tcb: seq<Tcb>, tcb': seq<Tcb>, Q: Queues, t: TaskId)
    requires QueuesOk(tcb, Q) && t < |tcb| == |tcb'| && !tcb[t].ready
    requires tcb'[t].ready && tcb'[t].priority < NUM_PRI
    requires forall u :: 0 <= u < |tcb| && u != t ==>
               tcb'[u].ready == tcb[u].ready && tcb'[u].priority == tcb[u].priority
    ensures var p := tcb'[t].priority;
            && QueuesOk(tcb', Q[p := Q[p] + [t]]) && QueuesOk(tcb', Q[p := [t] + Q[p]])
  {
    var p := tcb'[t].priority;
    assert QueueOk(tcb, Q[p], p) && t !in Q[p];
    JoinFacts(Q[p], t);
    OtherQueues(tcb, tcb', Q, t);
    assert QueueOk(tcb', Q[p] + [t], p) && QueueOk(tcb', [t] + Q[p], p);
  }

  lemma OtherQueues(tcb: seq<Tcb>, tcb': seq<Tcb>, Q: Queues, t: TaskId)
    requires QueuesOk(tcb, Q) && t < |tcb| == |tcb'|
    requires forall u :: 0 <= u < |tcb| && u != t ==>
               tcb'[u].ready == tcb[u].ready && tcb'[u].priority == tcb[u].priority
    ensures forall p :: 0 <= p < NUM_PRI && t !in Q[p] ==> QueueOk(tcb', Q[p], p)
  {
    forall p | 0 <= p < NUM_PRI && t !in Q[p] ensures QueueOk(tcb', Q[p], p) {
      assert QueueOk(tcb, Q[p], p);
    }
  }

  lemma DeleteQueues(tcb: seq<Tcb>, tcb': seq<Tcb>, Q: Queues, t: TaskId)
    requires QueuesOk(tcb, Q) && t < |tcb| == |tcb'| && tcb[t].ready
    requires !tcb'[t].ready && tcb'[t].priority < NUM_PRI
    requires forall u :: 0 <= u < |tcb| && u != t ==>
               tcb'[u].ready == tcb[u].ready && tcb'[u].priority == tcb[u].priority
    ensures var p := tcb[t].priority;
            QueuesOk(tcb', Q[p := Without(Q[p], t)])
  {
    var p := tcb[t].priority;
    assert QueueOk(tcb, Q[p], p);
    WithoutFacts(Q[p], t);
    OtherQueues(tcb, tcb', Q, t);
    forall q | 0 <= q < NUM_PRI && q != p ensures t !in Q[q] {
      assert QueueOk(tcb, Q[q], q);
    }
    assert QueueOk(tcb', Without(Q[p], t), p);
  }

  /** The queue of one priority is permuted. */
  lemma PermuteQueues(tcb: seq<Tcb>, Q: Queues, p: nat, r: seq<TaskId>)
    requires QueuesOk(tcb, Q) && p < NUM_PRI && Distinct(r) && forall u :: u in r <==> u in Q[p]
    ensures QueuesOk(tcb, Q[p := r])
  {
    assert QueueOk(tcb, Q[p], p);
    assert QueueOk(tcb, r, p);
  }

  /** Slice counters do not matter to the queues. */
  lemma SliceQueues(tcb: seq<Tcb>, Q: Queues, t: TaskId, cnt: int)
    requires QueuesOk(tcb, Q) && t < |tcb|
    ensures QueuesOk(tcb[t := tcb[t].(slicecnt := cnt)], Q)
  {
    forall p | 0 <= p < NUM_PRI ensures QueueOk(tcb[t := tcb[t].(slicecnt := cnt)], Q[p], p) {
      assert QueueOk(tcb, Q[p], p);
    }
  }

  lemma SameBitmap(bitmap: seq<Word>, Q: Queues, p: nat, r: seq<TaskId>)
    requires BitmapOk(bitmap, Q) && p < NUM_PRI && (r == [] <==> Q[p] == [])
    ensures BitmapOk(bitmap, Q[p := r])
  {
  }

  function WithBit(words: seq<Word>, p: nat): seq<Word>
    requires p / WORDSZ < |words|
  {
    words[p / WORDSZ := words[p / WORDSZ] + {p % WORDSZ}]
  }

  function WithoutBit(words: seq<Word>, p: nat): seq<Word>
    requires p / WORDSZ < |words|
  {
    words[p / WORDSZ := words[p / WORDSZ] - {p % WORDSZ}]
  }

  lemma SamePosition(p: nat, q: nat)
    requires p / WORDSZ == q / WORDSZ && p % WORDSZ == q % WORDSZ
    ensures p == q
  {
  }

  lemma SetBitmap(bitmap: seq<Word>, Q: Queues, p: nat, r: seq<TaskId>)
    requires BitmapOk(bitmap, Q) && p < NUM_PRI && r != []
    ensures p / WORDSZ < |bitmap| && BitmapOk(WithBit(bitmap, p), Q[p := r])
  {
    forall q | 0 <= q < NUM_PRI ensures Bit(WithBit(bitmap, p), q) <==> q == p || Bit(bitmap, q) {
      if p / WORDSZ == q / WORDSZ && p % WORDSZ == q % WORDSZ {
        SamePosition(p, q);
      }
    }
  }

  lemma ClearBitmap(bitmap: seq<Word>, Q: Queues, p: nat)
    requires BitmapOk(bitmap, Q) && p < NUM_PRI
    ensures p / WORDSZ < |bitmap| && BitmapOk(WithoutBit(bitmap, p), Q[p := []])
  {
    forall q | 0 <= q < NUM_PRI ensures Bit(WithoutBit(bitmap, p), q) <==> q != p && Bit(bitmap, q) {
      if p / WORDSZ == q / WORDSZ && p % WORDSZ == q % WORDSZ {
        SamePosition(p, q);
      }
    }
  }

  /** What the bit search finds is the next priority with a ready task. */
  lemma FoundTop(bitmap: seq<Word>, Q: Queues, top: nat, r: int)
    requires BitmapOk(bitmap, Q) && top < NUM_PRI && forall p :: 0 <= p < top ==> Q[p] == []
    requires r == -1 || 0 <= r < NUM_PRI - top
    requires r == -1 ==> NoneBefore(bitmap, top, NUM_PRI - top)
    requires r != -1 ==> NoneBefore(bitmap, top, r) && Bit(bitmap, top + r)
    ensures TopOk(Q, if r >= 0 then top + r else NUM_PRI)
  {
  }

  /** The part of the state that a time slice changes. */
  datatype ReadyState = ReadyState(tcb: seq<Tcb>, queues: Queues)

  /** Whether charging task t with another period uses up its time slice; zero is no limit. */
  predicate Expires(tcb: seq<Tcb>, t: int, period: int) {
    0 <= t < |tcb| && tcb[t].slicetime > 0 && tcb[t].slicecnt + period > tcb[t].slicetime
  }

  function WithSlice(tcb: seq<Tcb>, t: int, cnt: int): seq<Tcb> {
    if 0 <= t < |tcb| then tcb[t := tcb[t].(slicecnt := cnt)] else tcb
  }

  /** The queues once task t stands behind all tasks of its priority. */
  function MovedLast(tcb: seq<Tcb>, Q: Queues, t: int): Queues {
    if 0 <= t < |tcb| && tcb[t].priority < |Q|
    then Q[tcb[t].priority := Without(Q[tcb[t].priority], t) + [t]]
    else Q
  }

  /** Task t has run for another period: at the end of its slice it goes behind its equals. */
  function Charged(s: ReadyState, t: int, period: int): ReadyState {
    if Expires(s.tcb, t, period) then ReadyState(WithSlice(s.tcb, t, 0), MovedLast(s.tcb, s.queues, t))
    else if 0 <= t < |s.tcb| && s.tcb[t].slicetime > 0 then s.(tcb := WithSlice(s.tcb, t, s.tcb[t].slicecnt + period))
    else s
  }

  /** Task top takes over from task sched, which is charged if it is the one that was running. */
  function TakenOver(s: ReadyState, sched: int, top: int, ctx: int, period: int): ReadyState {
    if sched != top && sched == ctx then Charged(s, sched, period) else s
  }

  function Rotated(s: ReadyState, p: nat): ReadyState {
    if p < |s.queues| && s.queues[p] != []
    then var q := s.queues[p];
         ReadyState(WithSlice(s.tcb, q[0], 0), s.queues[p := q[1..] + [q[0]]])
    else s
  }

  /** Task t is ready with priority p, behind its equals, and begins a new slice. */
  function Joining(s: ReadyState, t: TaskId, p: nat): ReadyState {
    if t < |s.tcb| && p < |s.queues|
    then ReadyState(s.tcb[t := s.tcb[t].(priority := p, ready := true, slicecnt := 0)],
      s.queues[p := s.queues[p] + [t]])
    else s
  }

  function Leaving(s: ReadyState, t: TaskId): ReadyState {
    if t < |s.tcb| && s.tcb[t].priority < |s.queues|
    then ReadyState(s.tcb[t := s.tcb[t].(ready := false)],
               s.queues[s.tcb[t].priority := Without(s.queues[s.tcb[t].priority], t)])
    else s
  }

  function Charges(s: ReadyState, t: int, period: int, n: nat): ReadyState {
    if n == 0 then s else Charged(Charges(s, t, period, n - 1), t, period)
  }

  /** A task keeps its place for as many periods as its slice holds, and gives way after the next. */
  lemma {:induction false} SliceRunsOut(s: ReadyState, t: TaskId, period: int, n: nat)
    requires t < |s.tcb| && s.tcb[t].slicecnt == 0 && s.tcb[t].slicetime > 0 && period > 0
    requires n * period <= s.tcb[t].slicetime
    ensures Charges(s, t, period, n) == s.(tcb := WithSlice(s.tcb, t, n * period))
    ensures (n + 1) * period > s.tcb[t].slicetime ==>
              Charges(s, t, period, n + 1) == ReadyState(s.tcb, MovedLast(s.tcb, s.queues, t))
    decreases n
  {
    assert (n + 1) * period == n * period + period;
    if n > 0 {
      assert (n - 1) * period == n * period - period;
      SliceRunsOut(s, t, period, n - 1);
    }
    assert WithSlice(WithSlice(s.tcb, t, n * period), t, 0) == s.tcb;
  }

  class Sched {
    var tcb: seq<Tcb>
    var tskque: Queues
    var bitmap: seq<Word>
    var topPriority: nat
    var schedtsk: int
    var ctxtsk: int
    const TIMER_PERIOD: int

    function State(): ReadyState
      reads this
    {
      ReadyState(tcb, tskque)
    }

    /** Queues, bitmap and top priority agree. */
    ghost predicate ReadyOk()
      reads this
    {
      QueuesOk(tcb, tskque) && BitmapOk(bitmap, tskque) && TopOk(tskque, topPriority)
    }

    ghost predicate TaskOrNone(t: int)
      reads this
    {
      t == NONE || 0 <= t < |tcb|
    }

    /** The task to run next is the first one of the most urgent queue. */
    ghost predicate Valid()
      reads this
    {
      ReadyOk() && schedtsk == Head(tskque, topPriority) && TaskOrNone(ctxtsk)
    }

    /** ready_queue_initialize, with n tasks that are not ready. */
    constructor (tasks: seq<Tcb>, period: int)
      requires forall t :: 0 <= t < |tasks| ==> !tasks[t].ready && tasks[t].priority < NUM_PRI
      ensures Valid() && schedtsk == NONE && tcb == tasks && tskque == seq(NUM_PRI, _ => [])
    {
      tcb, tskque, topPriority := tasks, seq(NUM_PRI, _ => []), NUM_PRI;
      bitmap := seq(NUM_BITMAP + 1, _ => {});
      schedtsk, ctxtsk, TIMER_PERIOD := NONE, NONE, period;
    }

    // -------------------------------------------------------------- ready_queue.h

    /** ready_queue_top: behind the last queue stands a word that is always NULL. */
    method ReadyQueueTop() returns (t: int)
      requires ReadyOk()
      ensures t == Head(tskque, topPriority)
    {
      if topPriority == NUM_PRI {
        return NONE;
      }
      return tskque[topPriority][0];
    }

    /** ready_queue_insert; true when the task is now the most urgent of all. */
    method Insert(t: TaskId) returns (better: bool)
      requires ReadyOk() && t < |tcb| && !tcb[t].ready
      modifies `tcb, `tskque, `bitmap, `topPriority
      ensures ReadyOk() && better == (old(tcb)[t].priority < old(topPriority))
      ensures tcb == old(tcb)[t := old(tcb)[t].(ready := true, slicecnt := 0)]
      ensures var p := old(tcb)[t].priority;
              tskque == old(tskque)[p := old(tskque)[p] + [t]]
    {
      hide QueuesOk, BitmapOk;
      PriorityIn(tcb, tskque, t);
      var p := tcb[t].priority;
      ghost var was := tcb;
      tcb := tcb[t := tcb[t].(ready := true, slicecnt := 0)];
      InsertQueues(was, tcb, tskque, t);
      SetBitmap(bitmap, tskque, p, tskque[p] + [t]);
      tskque := tskque[p := tskque[p] + [t]];
      bitmap := WithBit(bitmap, p);
      if p < topPriority {
        topPriority := p;
        return true;
      }
      return false;
    }

    /** ready_queue_insert_top. */
    method InsertTop(t: TaskId)
      requires ReadyOk() && t < |tcb| && !tcb[t].ready
      modifies `tcb, `tskque, `bitmap, `topPriority
      ensures ReadyOk() && tcb == old(tcb)[t := old(tcb)[t].(ready := true)]
      ensures var p := old(tcb)[t].priority;
              tskque == old(tskque)[p := [t] + old(tskque)[p]]
    {
      hide QueuesOk, BitmapOk;
      PriorityIn(tcb, tskque, t);
      var p := tcb[t].priority;
      ghost var was := tcb;
      tcb := tcb[t := tcb[t].(ready := true)];
      InsertQueues(was, tcb, tskque, t);
      SetBitmap(bitmap, tskque, p, [t] + tskque[p]);
      tskque := tskque[p := [t] + tskque[p]];
      bitmap := WithBit(bitmap, p);
      if p < topPriority {
        topPriority := p;
      }
    }

    /** ready_queue_delete. */
    method Delete(t: TaskId)
      requires ReadyOk() && t < |tcb| && tcb[t].ready
      modifies `tcb, `tskque, `bitmap, `topPriority
      ensures ReadyOk() && tcb == old(tcb)[t := old(tcb)[t].(ready := false)]
      ensures var p := old(tcb)[t].priority;
              tskque == old(tskque)[p := Without(old(tskque)[p], t)]
    {
      hide QueuesOk, BitmapOk, NoneBefore, Bit;
      PriorityIn(tcb, tskque, t);
      var p := tcb[t].priority;
      ghost var was, Q := tcb, tskque;
      tcb := tcb[t := tcb[t].(ready := false)];
      DeleteQueues(was, tcb, tskque, t);
      tskque := tskque[p := Without(tskque[p], t)];
      if tskque[p] != [] {
        SameBitmap(bitmap, Q, p, tskque[p]);
        return;
      }
      ClearBitmap(bitmap, Q, p);
      bitmap := WithoutBit(bitmap, p);
      if p != topPriority {
        return;
      }
      BitmapWords(bitmap, tskque);
      var i := BitSearch1(bitmap, p, NUM_PRI - p);
      FoundTop(bitmap, tskque, p, i);
      if i >= 0 {
        topPriority := p + i;
      } else {
        topPriority := NUM_PRI;
      }
    }

    /** ready_queue_rotate. */
    method Rotate(p: nat)
      requires ReadyOk() && p < NUM_PRI
      modifies `tcb, `tskque
      ensures ReadyOk() && SameTasks(old(tcb), tcb)
      ensures State() == Rotated(old(State()), p)
      // the first task goes last with a fresh slice, and the others keep their order
      ensures p < |old(tskque)| == |tskque|
      ensures forall r :: 0 <= r < |tskque| && r != p ==> tskque[r] == old(tskque)[r]
      ensures old(tskque)[p] == [] ==> tskque[p] == [] && tcb == old(tcb)
      ensures old(tskque)[p] != [] ==>
                var q := old(tskque)[p];
                && |tskque[p]| == |q| && tskque[p][|q| - 1] == q[0]
                && (forall i :: 0 <= i < |q| - 1 ==> tskque[p][i] == q[i + 1])
                && q[0] < |tcb| && tcb == old(tcb)[q[0] := old(tcb)[q[0]].(slicecnt := 0)]
    {
      hide QueuesOk, BitmapOk;
      QueueShape(tcb, tskque, p);
      var q := tskque[p];
      if q != [] {
        SliceQueues(tcb, tskque, q[0], 0);
        PermuteQueues(tcb[q[0] := tcb[q[0]].(slicecnt := 0)], tskque, p, q[1..] + [q[0]]);
        SameBitmap(bitmap, tskque, p, q[1..] + [q[0]]);
        tskque := tskque[p := q[1..] + [q[0]]];
        tcb := tcb[q[0] := tcb[q[0]].(slicecnt := 0)];
      }
    }

    /** ready_queue_move_last; the new first task of the queue. */
    method MoveLast(t: TaskId) returns (head: int)
      requires ReadyOk() && t < |tcb| && tcb[t].ready
      modifies `tcb, `tskque
      ensures ReadyOk() && SameTasks(old(tcb), tcb)
      ensures State() == ReadyState(WithSlice(old(tcb), t, 0), MovedLast(old(tcb), old(tskque), t))
      ensures var p := old(tcb)[t].priority;
              p < NUM_PRI && tskque[p] != [] && head == tskque[p][0]
      ensures var p := old(tcb)[t].priority;
              && p < |old(tskque)| && tskque == old(tskque)[p := Without(old(tskque)[p], t) + [t]]
              && tcb == old(tcb)[t := old(tcb)[t].(slicecnt := 0)]
    {
      hide QueuesOk, BitmapOk;
      PriorityIn(tcb, tskque, t);
      var p := tcb[t].priority;
      QueueShape(tcb, tskque, p);
      WithoutFacts(tskque[p], t);
      var q := Without(tskque[p], t) + [t];
      JoinFacts(Without(tskque[p], t), t);
      SliceQueues(tcb, tskque, t, 0);
      PermuteQueues(tcb[t := tcb[t].(slicecnt := 0)], tskque, p, q);
      SameBitmap(bitmap, tskque, p, q);
      tskque := tskque[p := q];
      tcb := tcb[t := tcb[t].(slicecnt := 0)];
      return tskque[p][0];
    }

    // -------------------------------------------------------------- task.c

    /** time_slice_schedule: a task that has run longer than its slice goes behind its equals. */
    method TimeSliceSchedule(t: int) returns (head: int)
      requires ReadyOk() && TaskOrNone(t) && (t != NONE ==> tcb[t].ready)
      modifies `tcb, `tskque
      ensures ReadyOk() && SameTasks(old(tcb), tcb)
      ensures State() == Charged(old(State()), t, TIMER_PERIOD)
      ensures if Expires(old(tcb), t, TIMER_PERIOD)
              then tskque[old(tcb)[t].priority] != [] && head == tskque[old(tcb)[t].priority][0]
              else head == t
      // a task without a slice, or none, is left alone; otherwise the period is added, and only a task
      // that is then over its slice starts a new one behind its equals
      ensures t == NONE || old(tcb)[t].slicetime <= 0 ==> tcb == old(tcb) && tskque == old(tskque)
      ensures t != NONE && old(tcb)[t].slicetime > 0 ==>
                var cnt, p := old(tcb)[t].slicecnt + TIMER_PERIOD, old(tcb)[t].priority;
                if cnt <= old(tcb)[t].slicetime
                then tcb == old(tcb)[t := old(tcb)[t].(slicecnt := cnt)] && tskque == old(tskque)
                else && tcb == old(tcb)[t := old(tcb)[t].(slicecnt := 0)]
                     && p < |old(tskque)| && tskque == old(tskque)[p := Without(old(tskque)[p], t) + [t]]
    {
      hide QueuesOk, BitmapOk;
      head := t;
      if t != NONE {
        PriorityIn(tcb, tskque, t);
        if tcb[t].slicetime > 0 {
          SliceQueues(tcb, tskque, t, tcb[t].slicecnt + TIMER_PERIOD);
          tcb := tcb[t := tcb[t].(slicecnt := tcb[t].slicecnt + TIMER_PERIOD)];
          if tcb[t].slicecnt > tcb[t].slicetime {
            head := MoveLast(t);
          }
        }
      }
    }

    /** reschedule: whatever was scheduled, the head of the ready queue is scheduled now. */
    method Reschedule()
      requires ReadyOk() && TaskOrNone(ctxtsk) && TaskOrNone(schedtsk) && (schedtsk != NONE ==> tcb[schedtsk].ready)
      modifies `tcb, `tskque, `schedtsk
      ensures Valid() && SameTasks(old(tcb), tcb)
      ensures schedtsk == Head(old(tskque), topPriority)
      ensures State() == TakenOver(old(State()), old(schedtsk), schedtsk, ctxtsk, TIMER_PERIOD)
      // a period is charged exactly to a running task that another one takes over from
      ensures State() == if old(schedtsk) != schedtsk && old(schedtsk) == ctxtsk
                         then Charged(old(State()), ctxtsk, TIMER_PERIOD) else old(State())
    {
      hide QueuesOk, BitmapOk;
      var top := ReadyQueueTop();
      if schedtsk != top {
        if schedtsk == ctxtsk {
          var head := TimeSliceSchedule(schedtsk);
          if schedtsk != NONE {
            MovedHead(old(tcb), old(tskque), topPriority, schedtsk);
          }
        }
        schedtsk := top;
      }
    }

    /** make_ready. */
    method MakeReady(t: TaskId)
      requires Valid() && t < |tcb| && !tcb[t].ready
      modifies `tcb, `tskque, `bitmap, `topPriority, `schedtsk
      ensures Valid() && SameTasks(old(tcb)[t := old(tcb)[t].(ready := true)], tcb)
      ensures old(tcb)[t].priority < |old(tskque)|
      ensures schedtsk == if old(tcb)[t].priority < old(topPriority) then t else old(schedtsk)
      ensures State() == TakenOver(Joining(old(State()), t, old(tcb)[t].priority), old(schedtsk), schedtsk, ctxtsk,
                TIMER_PERIOD)
    {
      hide QueuesOk, BitmapOk;
      HeadIsReady(tcb, tskque, topPriority);
      PriorityIn(tcb, tskque, t);
      var better := Insert(t);
      InsertedHead(old(tskque), old(tcb)[t].priority, old(topPriority), t);
      if better {
        if schedtsk == ctxtsk {
          ghost var Q := tskque;
          var head := TimeSliceSchedule(schedtsk);
          HeadElsewhere(Q, topPriority, old(topPriority),
                        if old(topPriority) < NUM_PRI then tskque[old(topPriority)] else []);
        }
        schedtsk := t;
      }
    }

    /** make_non_ready. */
    method MakeNonReady(t: TaskId)
      requires Valid() && t < |tcb| && tcb[t].ready
      modifies `tcb, `tskque, `bitmap, `topPriority, `schedtsk
      ensures Valid() && State() == Leaving(old(State()), t)
      ensures old(schedtsk) != t ==> schedtsk == old(schedtsk)
    {
      hide QueuesOk, BitmapOk;
      PriorityIn(tcb, tskque, t);
      QueueShape(tcb, tskque, tcb[t].priority);
      WithoutFacts(tskque[tcb[t].priority], t);
      Delete(t);
      if schedtsk == t {
        schedtsk := ReadyQueueTop();
      } else {
        DeletedHead(old(tskque), tskque, old(tcb)[t].priority, old(topPriority), topPriority, t);
      }
    }

    /** change_task_priority of a task that is ready; the other branch concerns wait queues. */
    method ChangeReadyPriority(t: TaskId, pri: nat)
      requires Valid() && t < |tcb| && tcb[t].ready && pri < NUM_PRI
      modifies `tcb, `tskque, `bitmap, `topPriority, `schedtsk
      ensures Valid() && topPriority <= pri
      ensures SameTasks(old(tcb)[t := old(tcb)[t].(priority := pri)], tcb)
      ensures State() == TakenOver(Joining(Leaving(old(State()), t), t, pri), old(schedtsk), schedtsk, ctxtsk,
                TIMER_PERIOD)
    {
      hide QueuesOk, BitmapOk, TakenOver, Without;
      HeadIsReady(tcb, tskque, topPriority);
      Delete(t);
      IdlePriority(tcb, tskque, t, pri);
      tcb := tcb[t := tcb[t].(priority := pri)];
      var better := Insert(t);
      TopAtMost(tskque, topPriority, pri);
      assert State() == Joining(Leaving(old(State()), t), t, pri);
      Reschedule();
    }

    /** rotate_ready_queue. */
    method RotateReadyQueue(p: nat)
      requires Valid() && p < NUM_PRI
      modifies `tcb, `tskque, `schedtsk
      ensures Valid() && SameTasks(old(tcb), tcb)
      ensures State() == TakenOver(Rotated(old(State()), p), old(schedtsk), schedtsk, ctxtsk, TIMER_PERIOD)
      ensures old(tskque)[p] != [] && p == topPriority ==> schedtsk == (old(tskque)[p][1..] + [old(tskque)[p][0]])[0]
    {
      hide QueuesOk, BitmapOk;
      HeadIsReady(tcb, tskque, topPriority);
      Rotate(p);
      Reschedule();
    }

    /** rotate_ready_queue_run. */
    method RotateReadyQueueRun()
      requires Valid()
      modifies `tcb, `tskque, `schedtsk
      ensures Valid() && SameTasks(old(tcb), tcb) && (schedtsk == NONE <==> old(schedtsk) == NONE)
      ensures schedtsk == NONE ==> State() == old(State())
      ensures schedtsk != NONE ==>
                State() == TakenOver(Rotated(old(State()), topPriority), old(schedtsk), schedtsk, ctxtsk, TIMER_PERIOD)
      ensures schedtsk != NONE ==> schedtsk == (old(tskque)[topPriority][1..] + [old(tskque)[topPriority][0]])[0]
    {
      hide QueuesOk, BitmapOk;
      if schedtsk != NONE {
        HeadTop(tcb, tskque, topPriority);
        RotateReadyQueue(topPriority);
      }
    }

    /** The scheduling part of timer_handler. */
    method TimerTick()
      requires Valid()
      modifies `tcb, `tskque, `schedtsk
      ensures Valid() && SameTasks(old(tcb), tcb) && (schedtsk != old(schedtsk) ==> old(schedtsk) == ctxtsk)
      ensures State() == if old(schedtsk) == ctxtsk then Charged(old(State()), ctxtsk, TIMER_PERIOD) else old(State())
    {
      hide QueuesOk, BitmapOk;
      if ctxtsk != NONE && schedtsk == ctxtsk {
        HeadIsReady(tcb, tskque, topPriority);
        HeadTop(tcb, tskque, topPriority);
        schedtsk := TimeSliceSchedule(ctxtsk);
      }
    }
  }

  // ---------------------------------------------------------------- the head of the ready queue

  lemma PriorityIn(tcb: seq<Tcb>, Q: Queues, t: TaskId)
    requires QueuesOk(tcb, Q) && t < |tcb|
    ensures |Q| == NUM_PRI && tcb[t].priority < NUM_PRI && (tcb[t].ready <==> t in Q[tcb[t].priority])
  {
    assert QueueOk(tcb, Q[tcb[t].priority], tcb[t].priority);
  }

  lemma QueueShape(tcb: seq<Tcb>, Q: Queues, p: nat)
    requires QueuesOk(tcb, Q) && p < NUM_PRI
    ensures |Q| == NUM_PRI && Distinct(Q[p])
    ensures Q[p] != [] ==> Q[p][0] < |tcb| && Q[p][0] in Q[p] && Distinct(Q[p][1..] + [Q[p][0]])
    ensures Q[p] != [] ==> forall u :: u in Q[p][1..] + [Q[p][0]] <==> u in Q[p]
  {
    assert QueueOk(tcb, Q[p], p);
    if Q[p] != [] {
      var q := Q[p];
      assert q[0] in q && q == [q[0]] + q[1..];
    }
  }

  lemma BitmapWords(bitmap: seq<Word>, Q: Queues)
    requires BitmapOk(bitmap, Q)
    ensures |bitmap| == NUM_BITMAP + 1 && forall i :: 0 <= i < |bitmap| ==> IsWord(bitmap[i])
  {
  }

  lemma HeadIsReady(tcb: seq<Tcb>, Q: Queues, top: nat)
    requires QueuesOk(tcb, Q) && TopOk(Q, top)
    ensures var h := Head(Q, top);
            h == NONE || (0 <= h < |tcb| && tcb[h].ready && tcb[h].priority == top)
  {
    if top < NUM_PRI {
      assert QueueOk(tcb, Q[top], top) && Q[top][0] in Q[top];
    }
  }

  /** Sending a task other than the head behind its equals leaves the head where it is. */
  lemma MovedHead(tcb: seq<Tcb>, Q: Queues, top: nat, t: TaskId)
    requires QueuesOk(tcb, Q) && TopOk(Q, top) && t < |tcb| && tcb[t].ready && t != Head(Q, top)
    ensures var p := tcb[t].priority;
            p < NUM_PRI && Head(Q[p := Without(Q[p], t) + [t]], top) == Head(Q, top)
  {
    var p := tcb[t].priority;
    assert QueueOk(tcb, Q[p], p);
    WithoutFacts(Q[p], t);
  }

  lemma HeadTop(tcb: seq<Tcb>, Q: Queues, top: nat)
    requires QueuesOk(tcb, Q) && TopOk(Q, top)
    ensures Head(Q, top) != NONE ==> top < NUM_PRI && Q[top] != [] && Q[top][0] == Head(Q, top)
  {
  }

  lemma InsertedHead(Q: Queues, p: nat, top: nat, t: TaskId)
    requires TopOk(Q, top) && p < NUM_PRI
    ensures p < top ==> Head(Q[p := Q[p] + [t]], p) == t && TopOk(Q[p := Q[p] + [t]], p)
    ensures p >= top ==> Head(Q[p := Q[p] + [t]], top) == Head(Q, top) && TopOk(Q[p := Q[p] + [t]], top)
  {
  }

  /** Another queue does not matter to the head. */
  lemma HeadElsewhere(Q: Queues, top: nat, p: nat, r: seq<TaskId>)
    requires top != p
    ensures p < |Q| ==> Head(Q[p := r], top) == Head(Q, top)
  {
  }

  lemma HeadUnique(Q: Queues, p: nat, q: nat)
    requires TopOk(Q, p) && TopOk(Q, q)
    ensures p == q
  {
  }

  lemma DeletedHead(Q: Queues, Q': Queues, p: nat, top: nat, top': nat, t: TaskId)
    requires TopOk(Q, top) && TopOk(Q', top') && p < NUM_PRI && t in Q[p] && Distinct(Q[p])
    requires Q' == Q[p := Without(Q[p], t)] && Head(Q, top) != t
    ensures Head(Q', top') == Head(Q, top)
  {
    WithoutFacts(Q[p], t);
    assert Q[p] != [] && top <= p;
    assert Q'[top] != [];
    HeadUnique(Q', top, top');
  }

  /** The priority of a task that is not ready is free to change. */
  lemma IdlePriority(tcb: seq<Tcb>, Q: Queues, t: TaskId, pri: nat)
    requires QueuesOk(tcb, Q) && t < |tcb| && !tcb[t].ready && pri < NUM_PRI
    ensures QueuesOk(tcb[t := tcb[t].(priority := pri)], Q)
  {
    forall p | 0 <= p < NUM_PRI ensures QueueOk(tcb[t := tcb[t].(priority := pri)], Q[p], p) {
      assert QueueOk(tcb, Q[p], p);
    }
  }

  lemma TopAtMost(Q: Queues, top: nat, p: nat)
    requires TopOk(Q, top) && p < NUM_PRI && Q[p] != []
    ensures top <= p
  {
  }
}
