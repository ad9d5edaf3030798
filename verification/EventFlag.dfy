/**
 Event flags. A bit pattern is the set of its bits. Setting bits scans the wait queue once from the
 head, releasing tasks and clearing bits on the way, and may stop early.
 */
module EventFlag {
  import opened WaitQueue

  type Pattern = set<nat>

  // TWF_ORW, TWF_CLR and TWF_BITCLR
  datatype Request = Request(ptn: Pattern, orw: bool, clr: bool, bitclr: bool)

  type Queue = seq<Waiter<Request>>

  datatype Reply = Meets(ptn: Pattern) | Waits | TimedOut | InUse | Disabled

  /** A released task and the pattern it is told. */
  datatype Release = Release(tid: nat, ptn: Pattern)

  datatype Outcome = Outcome(ptn: Pattern, queue: Queue, released: seq<Release>)

  /** eventflag_cond. */
  predicate Cond(p: Pattern, r: Request) {
    if r.orw then p * r.ptn != {} else r.ptn <= p
  }

  /** The pattern after a task with request r has been released. */
  function Cleared(p: Pattern, r: Request): Pattern {
    if r.clr then {} else if r.bitclr then p - r.ptn else p
  }

  /** After releasing a task with request r the scan stops. */
  predicate Stops(p: Pattern, r: Request) {
    r.clr || (r.bitclr && p - r.ptn == {})
  }

  /** What setting leaves: the scan of queue q with pattern p. */
  function Scan(p: Pattern, q: Queue): Outcome {
    if q == [] then Outcome(p, [], [])
    else if !Cond(p, q[0].req) then
      var o := Scan(p, q[1..]);
      Outcome(o.ptn, [q[0]] + o.queue, o.released)
    else if Stops(p, q[0].req) then Outcome({}, q[1..], [Release(q[0].tid, p)])
    else
      var o := Scan(Cleared(p, q[0].req), q[1..]);
      Outcome(o.ptn, o.queue, [Release(q[0].tid, p)] + o.released)
  }

  ghost predicate Requests(q: Queue) {
    forall w :: w in q ==> w.req.ptn != {}
  }

  /** No waiting task's condition holds. */
  ghost predicate NoneMissed(p: Pattern, q: Queue) {
    forall w :: w in q ==> !Cond(p, w.req)
  }

  /** Bit by bit: any bit asked for will do with TWF_ORW, all are needed without it. */
  lemma CondBits(p: Pattern, r: Request)
    ensures Cond(p, r) <==> if r.orw then exists b :: b in r.ptn && b in p else forall b :: b in r.ptn ==> b in p
  {
    if r.orw {
      if b :| b in r.ptn && b in p {
        assert b in p * r.ptn;
      }
      if p * r.ptn != {} {
        var b :| b in p * r.ptn;
        assert b in r.ptn && b in p;
      }
    }
  }

  /** A condition that fails goes on failing while bits are only cleared. */
  lemma CondMonotone(p: Pattern, p': Pattern, r: Request)
    requires p' <= p && !Cond(p, r)
    ensures !Cond(p', r)
  {
    if r.orw {
      assert p' * r.ptn <= p * r.ptn;
    }
  }

  /** The pattern only shrinks during a scan. */
  lemma {:induction false} ScanShrinks(p: Pattern, q: Queue)
    ensures Scan(p, q).ptn <= p
  {
    if q != [] {
      if !Cond(p, q[0].req) {
        ScanShrinks(p, q[1..]);
      } else if !Stops(p, q[0].req) {
        ScanShrinks(Cleared(p, q[0].req), q[1..]);
      }
    }
  }

  /** One scan is enough, early exits included: no task left in the queue meets its condition. */
  lemma {:induction false} ScanMissesNone(p: Pattern, q: Queue)
    requires Requests(q)
    ensures NoneMissed(Scan(p, q).ptn, Scan(p, q).queue)
  {
    if q != [] {
      assert forall w :: w in q[1..] ==> w in q;
      assert q[0] in q;
      if !Cond(p, q[0].req) {
        ScanMissesNone(p, q[1..]);
        ScanShrinks(p, q[1..]);
        CondMonotone(p, Scan(p, q).ptn, q[0].req);
      } else if !Stops(p, q[0].req) {
        ScanMissesNone(Cleared(p, q[0].req), q[1..]);
      }
    }
  }

  function Tids(rs: seq<Release>): set<nat> {
    set r | r in rs :: r.tid
  }

  /** The scan splits the queue: a task is either kept, in its old place among the kept, or released. */
  lemma {:induction false} ScanSplits(p: Pattern, q: Queue)
    ensures forall w :: w in q ==> w in Scan(p, q).queue || w.tid in Tids(Scan(p, q).released)
    ensures forall w :: w in Scan(p, q).queue ==> w in q
    ensures forall r :: r in Scan(p, q).released ==>
              exists w :: w in q && w.tid == r.tid && Cond(r.ptn, w.req) && r.ptn <= p
    ensures |Scan(p, q).queue| + |Scan(p, q).released| == |q|
  {
    if q != [] {
      var o := Scan(p, q);
      assert q == [q[0]] + q[1..];
      if !Cond(p, q[0].req) {
        ScanSplits(p, q[1..]);
      } else if Stops(p, q[0].req) {
        assert o.released[0] in o.released;
      } else {
        var o1 := Scan(Cleared(p, q[0].req), q[1..]);
        ScanSplits(Cleared(p, q[0].req), q[1..]);
        assert o.released == [Release(q[0].tid, p)] + o1.released;
        assert o.released[0] in o.released;
        forall r | r in o1.released ensures r in o.released {
        }
      }
    }
  }

  lemma {:induction false} ScanKeepsOrder(p: Pattern, q: Queue, tpri: bool)
    requires QueueOk(q, tpri)
    ensures QueueOk(Scan(p, q).queue, tpri)
  {
    if q != [] {
      assert QueueOk(q[1..], tpri);
      if !Cond(p, q[0].req) {
        ScanKeepsOrder(p, q[1..], tpri);
        ScanSplits(p, q[1..]);
        var r := Scan(p, q[1..]).queue;
        forall i | 0 <= i < |r| ensures q[0].tid != r[i].tid && (tpri ==> q[0].pri <= r[i].pri) {
          assert r[i] in r;
        }
      } else if !Stops(p, q[0].req) {
        ScanKeepsOrder(Cleared(p, q[0].req), q[1..], tpri);
      }
    }
  }

  /** The waiting tasks take their turns: the scan of a queue is the scan of its first part, then of the rest
      with the bits that are left. */
  lemma {:induction false} ScanInTurn(p: Pattern, q: Queue, k: nat)
    requires k <= |q| && Requests(q)
    ensures var o := Scan(p, q[..k]);
            var o' := Scan(o.ptn, q[k..]);
            Scan(p, q) == Outcome(o'.ptn, o.queue + o'.queue, o.released + o'.released)
    decreases k
  {
    hide Cond, Cleared, Stops, Scan;
    if k > 0 {
      assert q[..k][0] == q[0] && q[..k][1..] == q[1..][..k - 1] && q[1..][k - 1..] == q[k..];
      assert forall w :: w in q[1..] ==> w in q;
      ScanHead(p, q);
      ScanHead(p, q[..k]);
      if !Cond(p, q[0].req) {
        ScanInTurn(p, q[1..], k - 1);
      } else if !Stops(p, q[0].req) {
        ScanInTurn(Cleared(p, q[0].req), q[1..], k - 1);
      } else {
        assert q[..k][1..] + q[k..] == q[1..];
        assert forall w :: w in q[k..] ==> w in q;
        ScanNoBits(q[k..]);
      }
    } else {
      assert q[..0] == [] && q[0..] == q;
      ScanNobody(p);
    }
  }

  lemma ScanHead(p: Pattern, q: Queue)
    requires q != []
    ensures !Cond(p, q[0].req) ==>
              var o := Scan(p, q[1..]);
              Scan(p, q) == Outcome(o.ptn, [q[0]] + o.queue, o.released)
    ensures Cond(p, q[0].req) && Stops(p, q[0].req) ==> Scan(p, q) == Outcome({}, q[1..], [Release(q[0].tid, p)])
    ensures Cond(p, q[0].req) && !Stops(p, q[0].req) ==>
              var o := Scan(Cleared(p, q[0].req), q[1..]);
              Scan(p, q) == Outcome(o.ptn, o.queue, [Release(q[0].tid, p)] + o.released)
  {
  }

  lemma ScanNobody(p: Pattern)
    ensures Scan(p, []) == Outcome(p, [], [])
  {
  }

  lemma {:induction false} ScanNoBits(q: Queue)
    requires Requests(q)
    ensures Scan({}, q) == Outcome({}, q, [])
  {
    if q != [] {
      assert q[0] in q && q == [q[0]] + q[1..];
      assert forall w :: w in q[1..] ==> w in q;
      ScanNoBits(q[1..]);
    }
  }

  /** One task's turn: it is released with the pattern of that moment, and the bits it is to clear are cleared. */
  lemma ScanOfOne(p: Pattern, w: Waiter<Request>)
    ensures var met := if w.req.orw then exists b :: b in w.req.ptn && b in p
                       else forall b :: b in w.req.ptn ==> b in p;
            && Scan(p, [w]).queue == (if met then [] else [w])
            && Scan(p, [w]).released == (if met then [Release(w.tid, p)] else [])
            && forall b :: b in Scan(p, [w]).ptn <==>
                 b in p && !(met && (w.req.clr || (w.req.bitclr && b in w.req.ptn)))
  {
    CondBits(p, w.req);
    assert Scan(Cleared(p, w.req), []) == Outcome(Cleared(p, w.req), [], []);
  }

  /** The loop of _tk_set_flg has come to position i of what is left of queue q0. */
  ghost predicate Progress(p0: Pattern, q0: Queue, p: Pattern, q: Queue, i: nat, released: seq<Release>, stop: bool) {
    && i <= |q|
    && Scan(p0, q0) == (var o := if stop then Outcome(p, q[i..], []) else Scan(p, q[i..]);
                        Outcome(o.ptn, q[..i] + o.queue, released + o.released))
  }

  lemma ScanStarts(p: Pattern, q: Queue)
    ensures Progress(p, q, p, q, 0, [], false)
  {
    assert q[0..] == q;
  }

  lemma ScanSkips(p0: Pattern, q0: Queue, p: Pattern, q: Queue, i: nat, released: seq<Release>)
    requires i < |q| && Progress(p0, q0, p, q, i, released, false) && !Cond(p, q[i].req)
    ensures Progress(p0, q0, p, q, i + 1, released, false)
  {
    assert q[i..][0] == q[i] && q[i..][1..] == q[i + 1..];
    assert q[..i + 1] == q[..i] + [q[i]];
  }

  lemma ScanReleases(p0: Pattern, q0: Queue, p: Pattern, q: Queue, i: nat, released: seq<Release>)
    requires i < |q| && Progress(p0, q0, p, q, i, released, false) && Cond(p, q[i].req)
    ensures Progress(p0, q0, Cleared(p, q[i].req), Left(q, i), i, released + [Release(q[i].tid, p)], Stops(p, q[i].req))
  {
    assert q[i..][0] == q[i] && q[i..][1..] == q[i + 1..];
    assert Left(q, i)[..i] == q[..i] && Left(q, i)[i..] == q[i + 1..];
  }

  lemma ScanEnds(p0: Pattern, q0: Queue, p: Pattern, q: Queue, i: nat, released: seq<Release>, stop: bool)
    requires Progress(p0, q0, p, q, i, released, stop) && (i == |q| || stop)
    ensures Outcome(p, q, released) == Scan(p0, q0)
  {
    assert q[..i] + q[i..] == q;
  }

  lemma StopsIs(p: Pattern, r: Request)
    ensures Stops(p, r) <==> r.clr || (r.bitclr && p - r.ptn == {})
  {
  }

  class Flag {
    var flgptn: Pattern
    var queue: Queue
    const tpri: bool
    const wmul: bool

    ghost predicate Valid()
      reads this
    {
      QueueOk(queue, tpri) && Requests(queue) && NoneMissed(flgptn, queue) && (!wmul ==> |queue| <= 1)
    }

    constructor (initial: Pattern, byPriority: bool, many: bool)
      ensures Valid() && flgptn == initial && queue == [] && tpri == byPriority && wmul == many
    {
      flgptn, queue, tpri, wmul := initial, [], byPriority, many;
    }

    /** _tk_set_flg. */
    method SetFlg(setptn: Pattern) returns (released: seq<Release>)
      requires Valid()
      modifies this
      ensures Valid()
      ensures Outcome(flgptn, queue, released) == Scan(old(flgptn) + setptn, old(queue))
      // every released task is told the bits it waited for: some with TWF_ORW, all without
      ensures forall r :: r in released ==>
                exists w :: w in old(queue) && w.tid == r.tid && r.ptn <= old(flgptn) + setptn
                            && if w.req.orw then exists b :: b in w.req.ptn && b in r.ptn
                               else forall b :: b in w.req.ptn ==> b in r.ptn
      // every task left lacks all bits it waits for, or some
      ensures forall w :: w in queue ==>
                if w.req.orw then forall b :: b in w.req.ptn ==> b !in flgptn
                else exists b :: b in w.req.ptn && b !in flgptn
      ensures |queue| + |released| == |old(queue)| && forall w :: w in queue ==> w in old(queue)
    {
      hide Scan, Progress, Cond, Stops;
      ghost var q0 := queue;
      flgptn := flgptn + setptn;
      ghost var p0 := flgptn;
      released := [];
      var i := 0;
      var stop := false;
      ScanStarts(p0, q0);
      while i < |queue| && !stop
        invariant i <= |queue|
        invariant Progress(p0, q0, flgptn, queue, i, released, stop)
        decreases |queue| - i, if stop then 0 else 1
      {
        var w := queue[i];
        if Cond(flgptn, w.req) {
          ScanReleases(p0, q0, flgptn, queue, i, released);
          released := released + [Release(w.tid, flgptn)];
          StopsIs(flgptn, w.req);
          queue := Left(queue, i);
          if w.req.bitclr {
            flgptn := flgptn - w.req.ptn;
            if flgptn == {} {
              stop := true;
            }
          }
          if !stop && w.req.clr {
            flgptn := {};
            stop := true;
          }
        } else {
          ScanSkips(p0, q0, flgptn, queue, i, released);
          i := i + 1;
        }
      }
      ScanEnds(p0, q0, flgptn, queue, i, released, stop);
      ScanMissesNone(p0, q0);
      ScanSplits(p0, q0);
      ScanKeepsOrder(p0, q0, tpri);
      forall r | r in released
        ensures exists w :: w in q0 && w.tid == r.tid && r.ptn <= p0
                            && if w.req.orw then exists b :: b in w.req.ptn && b in r.ptn
                               else forall b :: b in w.req.ptn ==> b in r.ptn
      {
        var w :| w in q0 && w.tid == r.tid && Cond(r.ptn, w.req) && r.ptn <= p0;
        CondBits(r.ptn, w.req);
      }
      forall w | w in queue
        ensures if w.req.orw then forall b :: b in w.req.ptn ==> b !in flgptn
                else exists b :: b in w.req.ptn && b !in flgptn
      {
        CondBits(flgptn, w.req);
      }
    }

    /** _tk_clr_flg: the bits outside clrptn are cleared. */
    method ClrFlg(clrptn: Pattern)
      requires Valid()
      modifies `flgptn
      ensures Valid() && flgptn == old(flgptn) * clrptn
    {
      forall w | w in queue ensures !Cond(flgptn * clrptn, w.req) {
        CondMonotone(flgptn, flgptn * clrptn, w.req);
      }
      flgptn := flgptn * clrptn;
    }

    /** _tk_wai_flg; diswai says that the task may not wait for the event flag. */
    method WaiFlg(tid: nat, pri: int, r: Request, poll: bool, diswai: bool) returns (reply: Reply)
      requires Valid() && r.ptn != {} && Absent(queue, tid)
      modifies this
      ensures Valid()
      ensures reply == InUse <==> !wmul && old(queue) != []
      ensures reply != InUse ==> (reply == Disabled <==> diswai)
      // met at once exactly when some bit asked for is set (TWF_ORW), or all are
      ensures reply != InUse && reply != Disabled ==>
                (reply.Meets? <==> if r.orw then exists b :: b in r.ptn && b in old(flgptn)
                                   else forall b :: b in r.ptn ==> b in old(flgptn))
      ensures reply.Meets? ==>
                && reply.ptn == old(flgptn) && queue == old(queue)
                && forall b :: b in flgptn <==> b in old(flgptn) && !r.clr && !(r.bitclr && b in r.ptn)
      ensures reply == Waits ==>
                !poll && queue == Joined(old(queue), Waiter(tid, pri, r), tpri) && flgptn == old(flgptn)
      ensures reply == TimedOut ==> poll
      ensures reply in {TimedOut, InUse, Disabled} ==> queue == old(queue) && flgptn == old(flgptn)
    {
      if !wmul && queue != [] {
        return InUse;
      }
      if diswai {
        return Disabled;
      }
      CondBits(flgptn, r);
      if Cond(flgptn, r) {
        reply := Meets(flgptn);
        forall w | w in queue ensures !Cond(Cleared(flgptn, r), w.req) {
          CondMonotone(flgptn, Cleared(flgptn, r), w.req);
        }
        if r.bitclr {
          flgptn := flgptn - r.ptn;
        }
        if r.clr {
          flgptn := {};
        }
      } else if poll {
        reply := TimedOut;
      } else {
        JoinedOk(queue, Waiter(tid, pri, r), tpri);
        queue := Join(queue, Waiter(tid, pri, r), tpri);
        reply := Waits;
      }
    }

    /** A task leaves the queue by timeout or forced release. */
    method Rel(i: nat)
      requires Valid() && i < |queue|
      modifies `queue
      ensures Valid() && queue == Left(old(queue), i)
    {
      LeftOk(queue, i, tpri);
      queue := Left(queue, i);
    }

    /** flg_chg_pri. */
    method ChgPri(i: nat, pri: int)
      requires Valid() && i < |queue| && tpri
      modifies `queue
      ensures Valid() && queue == Moved(old(queue), i, pri)
    {
      MovedOk(queue, i, pri);
      assert queue[i] in queue;
      queue := Moved(queue, i, pri);
    }
  }
}
