/**
 Counting semaphores. With attribute TA_CNT (each) a task is served as soon as its own request fits; without
 it tasks are served strictly from the head of the queue.
 */
module Semaphore {
  import opened WaitQueue

  type Queue = seq<Waiter<int>>

  datatype Reply = Acquired | Waits | TimedOut | BadParam | Disabled

  datatype Outcome = Outcome(cnt: int, queue: Queue, released: Queue)

  /** The release loop over queue q with count cnt. */
  function Scan(cnt: int, q: Queue, each: bool): Outcome
    decreases |q|
  {
    if q == [] then Outcome(cnt, [], [])
    else if cnt < q[0].req then
      if !each then Outcome(cnt, q, [])
      else
        var o := Scan(cnt, q[1..], each);
        Outcome(o.cnt, [q[0]] + o.queue, o.released)
    else if cnt - q[0].req <= 0 then Outcome(cnt - q[0].req, q[1..], [q[0]])
    else
      var o := Scan(cnt - q[0].req, q[1..], each);
      Outcome(o.cnt, o.queue, [q[0]] + o.released)
  }

  ghost predicate Requests(q: Queue, max: int) {
    forall w :: w in q ==> 0 < w.req <= max
  }

  /** Nobody who should be served is waiting. */
  ghost predicate NoneMissed(cnt: int, q: Queue, each: bool) {
    && (q != [] ==> cnt < q[0].req)
    && (each ==> forall w :: w in q ==> cnt < w.req)
  }

  function Sum(q: Queue): int {
    if q == [] then 0 else q[0].req + Sum(q[1..])
  }

  lemma Tail(q: Queue, max: int)
    requires Requests(q, max) && q != []
    ensures 0 < q[0].req <= max && Requests(q[1..], max)
    ensures forall w :: w in q <==> w == q[0] || w in q[1..]
  {
    assert q[0] in q && q == [q[0]] + q[1..];
  }

  /** Every count the scan takes away goes to a released task. */
  lemma {:induction false} ScanCounts(cnt: int, q: Queue, each: bool, max: int)
    requires Requests(q, max) && cnt >= 0
    ensures var o := Scan(cnt, q, each);
            0 <= o.cnt <= cnt && cnt == o.cnt + Sum(o.released)
    decreases |q|
  {
    if q != [] {
      Tail(q, max);
      if cnt < q[0].req {
        if each {
          ScanCounts(cnt, q[1..], each, max);
        }
      } else if cnt - q[0].req > 0 {
        ScanCounts(cnt - q[0].req, q[1..], each, max);
      }
    }
  }

  /** The scan leaves nobody in the queue who could be served. */
  lemma {:induction false} ScanMissesNone(cnt: int, q: Queue, each: bool, max: int)
    requires Requests(q, max) && cnt >= 0
    ensures var o := Scan(cnt, q, each);
            NoneMissed(o.cnt, o.queue, each) && forall w :: w in o.queue ==> w in q
    decreases |q|
  {
    if q != [] {
      Tail(q, max);
      if cnt < q[0].req {
        if each {
          ScanMissesNone(cnt, q[1..], each, max);
          ScanCounts(cnt, q[1..], each, max);
        }
      } else if cnt - q[0].req > 0 {
        ScanMissesNone(cnt - q[0].req, q[1..], each, max);
      } else if q[1..] != [] {
        Tail(q[1..], max);
      }
    }
  }

  /** Without TA_CNT the released tasks are the first of the queue: nobody is overtaken. */
  lemma {:induction false} ScanTakesPrefix(cnt: int, q: Queue)
    ensures var o := Scan(cnt, q, false);
            |o.released| <= |q| && o.queue == q[|o.released|..] && o.released == q[..|o.released|]
    decreases |q|
  {
    if q != [] && cnt >= q[0].req && cnt - q[0].req > 0 {
      ScanTakesPrefix(cnt - q[0].req, q[1..]);
    }
  }

  lemma {:induction false} ScanKeepsOrder(cnt: int, q: Queue, each: bool, tpri: bool, max: int)
    requires QueueOk(q, tpri) && Requests(q, max) && cnt >= 0
    ensures QueueOk(Scan(cnt, q, each).queue, tpri)
    decreases |q|
  {
    if q != [] {
      assert QueueOk(q[1..], tpri);
      Tail(q, max);
      if cnt < q[0].req {
        if each {
          ScanKeepsOrder(cnt, q[1..], each, tpri, max);
          ScanMissesNone(cnt, q[1..], each, max);
          var r := Scan(cnt, q[1..], each).queue;
          forall i | 0 <= i < |r| ensures q[0].tid != r[i].tid && (tpri ==> q[0].pri <= r[i].pri) {
            assert r[i] in r;
          }
        }
      } else if cnt - q[0].req > 0 {
        ScanKeepsOrder(cnt - q[0].req, q[1..], each, tpri, max);
      }
    }
  }

  /** Once the count is used up nobody else is served. */
  lemma {:induction false} ScanZero(q: Queue, each: bool, max: int)
    requires Requests(q, max)
    ensures Scan(0, q, each) == Outcome(0, q, [])
  {
    if q != [] {
      Tail(q, max);
      if each {
        ScanZero(q[1..], each, max);
      }
    }
  }

  /** With TA_CNT the waiting tasks take their turns: the scan of a queue is the scan of its first part, then
      of the rest with the count that is left. */
  lemma {:induction false} ScanInTurn(cnt: int, q: Queue, k: nat, max: int)
    requires k <= |q| && Requests(q, max) && cnt >= 0
    ensures var o := Scan(cnt, q[..k], true);
            var o' := Scan(o.cnt, q[k..], true);
            Scan(cnt, q, true) == Outcome(o'.cnt, o.queue + o'.queue, o.released + o'.released)
    decreases k
  {
    if k > 0 {
      Tail(q, max);
      assert q[..k][0] == q[0] && q[..k][1..] == q[1..][..k - 1] && q[1..][k - 1..] == q[k..];
      if cnt < q[0].req {
        ScanInTurn(cnt, q[1..], k - 1, max);
      } else if cnt - q[0].req > 0 {
        ScanInTurn(cnt - q[0].req, q[1..], k - 1, max);
      } else {
        assert q[..k][1..] + q[k..] == q[1..];
        assert forall w :: w in q[k..] ==> w in q;
        ScanZero(q[k..], true, max);
      }
    } else {
      assert q[..0] == [] && q[0..] == q;
    }
  }

  /** Who is served and who is left. */
  lemma ScanServes(cnt: int, q: Queue, each: bool, max: int)
    requires Requests(q, max) && cnt >= 0
    ensures var o := Scan(cnt, q, each);
            && (!each ==> o.released + o.queue == q && (o.queue != [] ==> o.cnt < o.queue[0].req))
            && (each ==> forall w :: w in o.queue ==> w in q && o.cnt < w.req)
  {
    ScanMissesNone(cnt, q, each, max);
    if !each {
      ScanTakesPrefix(cnt, q);
    }
  }

  /** One task's turn: it is served exactly when the count suffices. */
  lemma ScanOfOne(cnt: int, w: Waiter<int>, each: bool)
    ensures Scan(cnt, [w], each).queue == (if w.req <= cnt then [] else [w])
    ensures Scan(cnt, [w], each).released == (if w.req <= cnt then [w] else [])
    ensures Scan(cnt, [w], each).cnt == (if w.req <= cnt then cnt - w.req else cnt)
  {
    assert [w][1..] == [];
  }

  // ---------------------------------------------------------------- the loops step by step

  ghost predicate Progress(c0: int, q0: Queue, c: int, q: Queue, i: nat, released: Queue, each: bool, max: int) {
    && i <= |q| && 0 <= c && Requests(q, max)
    && Scan(c0, q0, each) == (var o := Scan(c, q[i..], each); Outcome(o.cnt, q[..i] + o.queue, released + o.released))
  }

  lemma ScanStarts(c: int, q: Queue, each: bool, max: int)
    requires 0 <= c && Requests(q, max)
    ensures Progress(c, q, c, q, 0, [], each, max)
  {
    assert q[0..] == q;
  }

  lemma ScanSkips(c0: int, q0: Queue, c: int, q: Queue, i: nat, released: Queue, max: int)
    requires i < |q| && Progress(c0, q0, c, q, i, released, true, max) && c < q[i].req
    ensures Progress(c0, q0, c, q, i + 1, released, true, max)
  {
    assert q[i..][0] == q[i] && q[i..][1..] == q[i + 1..];
    assert q[..i + 1] == q[..i] + [q[i]];
  }

  lemma ScanReleases(c0: int, q0: Queue, c: int, q: Queue, i: nat, released: Queue, each: bool, max: int)
    requires i < |q| && Progress(c0, q0, c, q, i, released, each, max) && q[i].req <= c
    ensures Progress(c0, q0, c - q[i].req, Left(q, i), i, released + [q[i]], each, max) && 0 < q[i].req
  {
    assert q[i..][0] == q[i] && q[i..][1..] == q[i + 1..];
    assert Left(q, i)[..i] == q[..i] && Left(q, i)[i..] == q[i + 1..];
    LeftRequests(q, i, max);
    if c - q[i].req == 0 {
      ScanZero(q[i + 1..], each, max);
    }
  }

  lemma LeftRequests(q: Queue, i: nat, max: int)
    requires i < |q| && Requests(q, max)
    ensures Requests(Left(q, i), max) && Requests(q[i + 1..], max) && 0 < q[i].req
  {
    assert q[i] in q;
    assert forall w :: w in q[..i] ==> w in q;
    assert forall w :: w in q[i + 1..] ==> w in q;
  }

  lemma ScanEnds(c0: int, q0: Queue, c: int, q: Queue, i: nat, released: Queue, each: bool, max: int)
    requires Progress(c0, q0, c, q, i, released, each, max)
    requires i == |q| || c == 0 || (!each && c < q[i].req)
    ensures Outcome(c, q, released) == Scan(c0, q0, each)
  {
    assert q[..i] + q[i..] == q;
    if c == 0 {
      assert forall w :: w in q[i..] ==> w in q;
      ScanZero(q[i..], each, max);
    }
  }

  lemma ScanDone(c0: int, q0: Queue, c: int, q: Queue, released: Queue, each: bool, tpri: bool, max: int)
    requires 0 <= c0 && QueueOk(q0, tpri) && Requests(q0, max) && Outcome(c, q, released) == Scan(c0, q0, each)
    ensures QueueOk(q, tpri) && Requests(q, max) && 0 <= c <= c0 && NoneMissed(c, q, each) && c + Sum(released) == c0
  {
    ScanCounts(c0, q0, each, max);
    ScanMissesNone(c0, q0, each, max);
    ScanKeepsOrder(c0, q0, each, tpri, max);
  }

  /** Reordering the queue lets nobody be missed where everybody is looked at. */
  lemma MovedStays(c: int, q: Queue, each: bool, i: nat, pri: int, max: int)
    requires QueueOk(q, true) && Requests(q, max) && NoneMissed(c, q, each) && i < |q|
    ensures QueueOk(Moved(q, i, pri), true) && Requests(Moved(q, i, pri), max)
    ensures each ==> NoneMissed(c, Moved(q, i, pri), each)
  {
    hide QueueOk;
    MovedOk(q, i, pri);
    assert q[i] in q;
    var r := Moved(q, i, pri);
    assert r[0] in r;
  }

  lemma LeftStays(c: int, q: Queue, each: bool, i: nat, tpri: bool, max: int)
    requires QueueOk(q, tpri) && Requests(q, max) && NoneMissed(c, q, each) && i < |q|
    ensures QueueOk(Left(q, i), tpri) && Requests(Left(q, i), max)
    ensures each ==> NoneMissed(c, Left(q, i), each)
  {
    hide QueueOk;
    LeftOk(q, i, tpri);
    var r := Left(q, i);
    assert r != [] ==> r[0] in r;
  }

  class Sem {
    var semcnt: int
    var queue: Queue
    const maxsem: int
    const tpri: bool
    const each: bool

    ghost predicate Valid()
      reads this
    {
      QueueOk(queue, tpri) && Requests(queue, maxsem) && 0 <= semcnt <= maxsem && NoneMissed(semcnt, queue, each)
    }

    constructor (initial: nat, max: int, byPriority: bool, byCount: bool)
      requires initial <= max
      ensures Valid() && semcnt == initial && queue == []
      ensures maxsem == max && tpri == byPriority && each == byCount
    {
      semcnt, queue, maxsem, tpri, each := initial, [], max, byPriority, byCount;
    }

    /** _tk_sig_sem; false means E_QOVR. */
    method SigSem(cnt: int) returns (ok: bool, released: Queue)
      requires Valid() && cnt > 0
      modifies this
      ensures Valid()
      ensures ok <==> old(semcnt) + cnt <= maxsem
      ensures ok ==> Outcome(semcnt, queue, released) == Scan(old(semcnt) + cnt, old(queue), each)
      ensures ok ==> semcnt + Sum(released) == old(semcnt) + cnt
      // without TA_CNT the first tasks of the queue are served, up to the first one the count is too small for
      ensures ok && !each ==> released + queue == old(queue) && (queue != [] ==> semcnt < queue[0].req)
      // with TA_CNT it is too small for everybody who is left
      ensures ok && each ==> forall w :: w in queue ==> w in old(queue) && semcnt < w.req
      ensures !ok ==> semcnt == old(semcnt) && queue == old(queue) && released == []
    {
      hide Scan, NoneMissed, Requests, QueueOk, Sum;
      ScanServes(semcnt + cnt, queue, each, maxsem);
      if cnt > maxsem - semcnt {
        return false, [];
      }
      semcnt := semcnt + cnt;
      released := ReleaseWaiters();
      return true, released;
    }

    /** The waiter at position i gets the counts it asked for. */
    method ServeAt(i: nat, before: Queue, ghost c0: int, ghost q0: Queue) returns (released: Queue)
      requires i < |queue| && Progress(c0, q0, semcnt, queue, i, before, each, maxsem) && queue[i].req <= semcnt
      modifies this
      ensures queue == Left(old(queue), i) && |queue| == |old(queue)| - 1
      ensures semcnt == old(semcnt - queue[i].req) && 0 <= semcnt
      ensures released == before + [old(queue[i])]
      ensures Progress(c0, q0, semcnt, queue, i, released, each, maxsem)
    {
      hide Scan, NoneMissed, QueueOk, Sum;
      ScanReleases(c0, q0, semcnt, queue, i, before, each, maxsem);
      var w := queue[i];
      queue := Left(queue, i);
      semcnt := semcnt - w.req;
      released := before + [w];
    }

    /** The loop of _tk_sig_sem. */
    method ReleaseWaiters() returns (released: Queue)
      requires QueueOk(queue, tpri) && Requests(queue, maxsem) && 0 <= semcnt <= maxsem
      modifies this
      ensures Valid()
      ensures Outcome(semcnt, queue, released) == Scan(old(semcnt), old(queue), each)
      ensures semcnt + Sum(released) == old(semcnt)
    {
      hide Scan, Progress, NoneMissed, Requests, QueueOk, Sum;
      released := [];
      ghost var q0, c0 := queue, semcnt;
      var i := 0;
      ScanStarts(c0, q0, each, maxsem);
      ProgressMeans(c0, q0, semcnt, queue, i, released, each, maxsem);
      while i < |queue|
        invariant i <= |queue| && Progress(c0, q0, semcnt, queue, i, released, each, maxsem) && 0 <= semcnt
        decreases |queue| - i
      {
        var w := queue[i];
        if semcnt < w.req {
          if !each {
            break;
          }
          ScanSkips(c0, q0, semcnt, queue, i, released, maxsem);
          i := i + 1;
          continue;
        }
        released := ServeAt(i, released, c0, q0);
        if semcnt <= 0 {
          break;
        }
      }
      ScanEnds(c0, q0, semcnt, queue, i, released, each, maxsem);
      ScanDone(c0, q0, semcnt, queue, released, each, tpri, maxsem);
    }

    /** _tk_wai_sem; diswai says that the task may not wait for the semaphore. */
    method WaiSem(tid: nat, pri: int, cnt: int, poll: bool, diswai: bool) returns (reply: Reply)
      requires Valid() && cnt > 0 && Absent(queue, tid)
      modifies this
      ensures Valid()
      ensures reply == BadParam <==> cnt > maxsem
      ensures reply == Disabled <==> cnt <= maxsem && diswai
      ensures reply !in {BadParam, Disabled} ==> (reply == Acquired <==>
                cnt <= old(semcnt) && (each || old(queue) == [] || (tpri && pri < old(queue)[0].pri)))
      ensures reply == Acquired ==> semcnt == old(semcnt) - cnt && queue == old(queue)
      ensures reply == Waits ==>
                !poll && queue == Joined(old(queue), Waiter(tid, pri, cnt), tpri) && semcnt == old(semcnt)
      ensures reply == TimedOut ==> poll
      ensures reply in {TimedOut, BadParam, Disabled} ==> queue == old(queue) && semcnt == old(semcnt)
    {
      if cnt > maxsem {
        return BadParam;
      }
      if diswai {
        return Disabled;
      }
      if (each || OnTop(queue, pri, tpri)) && semcnt >= cnt {
        semcnt := semcnt - cnt;
        reply := Acquired;
      } else if poll {
        reply := TimedOut;
      } else {
        JoinedOk(queue, Waiter(tid, pri, cnt), tpri);
        queue := Join(queue, Waiter(tid, pri, cnt), tpri);
        reply := Waits;
      }
    }

    /** The loop of sem_chg_pri: without TA_CNT the head of the queue is served as long as it fits. */
    method Serve() returns (released: Queue)
      requires QueueOk(queue, tpri) && Requests(queue, maxsem) && 0 <= semcnt <= maxsem
      requires each ==> NoneMissed(semcnt, queue, each)
      modifies this
      ensures Valid()
      ensures each ==> released == [] && queue == old(queue) && semcnt == old(semcnt)
      ensures !each ==> Outcome(semcnt, queue, released) == Scan(old(semcnt), old(queue), each)
      ensures semcnt + Sum(released) == old(semcnt)
    {
      hide Scan, Progress, NoneMissed, Requests, QueueOk;
      released := [];
      if each {
        return;
      }
      ghost var q0, c0 := queue, semcnt;
      ScanStarts(c0, q0, each, maxsem);
      while queue != []
        invariant Progress(c0, q0, semcnt, queue, 0, released, each, maxsem) && 0 <= semcnt
        decreases |queue|
      {
        if semcnt < queue[0].req {
          break;
        }
        released := ServeAt(0, released, c0, q0);
      }
      ScanEnds(c0, q0, semcnt, queue, 0, released, each, maxsem);
      ScanDone(c0, q0, semcnt, queue, released, each, tpri, maxsem);
    }

    /** A task leaves the queue by timeout or forced release; its hook serves the others. */
    method RelWai(i: nat) returns (released: Queue)
      requires Valid() && i < |queue|
      modifies this
      ensures Valid() && semcnt + Sum(released) == old(semcnt)
      ensures each ==> queue == Left(old(queue), i)
      ensures !each ==> Outcome(semcnt, queue, released) == Scan(old(semcnt), Left(old(queue), i), each)
    {
      hide Scan, NoneMissed, Requests, QueueOk;
      LeftStays(semcnt, queue, each, i, tpri, maxsem);
      queue := Left(queue, i);
      released := Serve();
    }

    /** tk_chg_pri of a waiting task; the hook is installed with TA_TPRI only. */
    method ChgPri(i: nat, pri: int) returns (released: Queue)
      requires Valid() && i < |queue| && tpri
      modifies this
      ensures Valid() && semcnt + Sum(released) == old(semcnt)
      ensures each ==> queue == Moved(old(queue), i, pri)
      ensures !each ==> Outcome(semcnt, queue, released) == Scan(old(semcnt), Moved(old(queue), i, pri), each)
    {
      hide Scan, NoneMissed, Requests, QueueOk;
      MovedStays(semcnt, queue, each, i, pri, maxsem);
      queue := Moved(queue, i, pri);
      released := Serve();
    }
  }

  lemma ProgressMeans(c0: int, q0: Queue, c: int, q: Queue, i: nat, released: Queue, each: bool, max: int)
    requires Progress(c0, q0, c, q, i, released, each, max)
    ensures 0 <= c
  {
  }
}
