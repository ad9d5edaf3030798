/**
 Variable-size memory pools: the allocator in one fixed piece of memory, and the tasks that wait for a
 block. Sizes are counted in cells of eight bytes.
 */
module MemPool {
  import opened Common
  import opened Rings
  import opened FreeQueue
  import opened HeapLayout
  import opened HeapSteps
  import opened HeapPages
  import opened HeapSearch
  import opened HeapCheck
  import opened MemAlloc
  import opened MemAllocTheorem
  import opened WaitQueue

  const MIN_FRAGMENT := 16 // bytes

  datatype Reply = Got(ptr: Addr) | Waits | BadParam | Disabled | TimedOut

  /** A block handed to a task that waited for it. */
  datatype Grant = Grant(tid: nat, ptr: Addr)

  /** roundSize, in cells. */
  function RoundSize(size: nat): nat {
    ((if size < MIN_FRAGMENT then MIN_FRAGMENT else size) + 7) / 8
  }

  /** The fewest cells that hold the bytes asked for and a minimal fragment. */
  lemma RoundSizeLeast(size: nat, n: nat)
    ensures 8 * RoundSize(size) >= size && 8 * RoundSize(size) >= MIN_FRAGMENT
    ensures 8 * n >= size && 8 * n >= MIN_FRAGMENT ==> n >= RoundSize(size)
  {
  }

  class Pool {
    const heap: Heap
    const base: Addr
    const mplsz: nat
    const tpri: bool
    var queue: seq<Waiter<nat>>

    /** The memory is the one piece of the pool. */
    ghost predicate Memory()
      reads heap
    {
      && heap.Valid() && heap.testmode == 0 && heap.minBytes == MIN_FRAGMENT && heap.pagesz == mplsz >= 2
      && heap.view.pages == map[base := mplsz + 2]
    }

    ghost predicate Queue()
      reads this
    {
      QueueOk(queue, tpri) && forall w :: w in queue ==> 2 <= w.req <= mplsz
    }

    /** The task at the head of the queue cannot be served. */
    ghost predicate Stuck()
      reads this, heap
    {
      queue != [] ==> NoneFits(heap.mem, heap.view, queue[0].req)
    }

    ghost predicate Valid()
      reads this, heap
    {
      Memory() && Queue() && Stuck()
    }

    /** _tk_cre_mpl: the memory becomes one free area. */
    constructor (memory: Memory, control: Addr, mempool: Addr, size: nat, byPriority: bool)
      requires control + 2 <= |memory| && mempool + RoundSize(size) + 2 <= |memory|
      requires mempool + RoundSize(size) + 2 <= control || control + 2 <= mempool
      ensures Valid() && fresh(heap) && queue == [] && heap.Contents() == map[]
      ensures base == mempool && mplsz == RoundSize(size) && tpri == byPriority
    {
      hide HeapOk, Blocks, NoneFits, Free;
      base, mplsz, tpri, queue := mempool, RoundSize(size), byPriority, [];
      heap := new Heap(memory, control, RoundSize(size), MIN_FRAGMENT);
      new;
      ghost var was := heap.mem;
      heap.AddPage(mempool, RoundSize(size) + 2);
      var released := heap.Retire(mempool, true);
    }

    // -------------------------------------------------------------- blocks

    /** The size of the largest free area, or zero. */
    method MaxFreeSize() returns (max: int)
      requires heap.Valid()
      ensures forall n: nat :: n > 0 ==> (max < n <==> NoneFits(heap.mem, heap.view, n))
    {
      hide HeapOk, NoneFits;
      HeapParts(heap.mem, heap.view);
      SizeLinks(heap.mem, heap.aq + 1, heap.view.groups, -1);
      SizeLinks(heap.mem, heap.aq + 1, heap.view.groups, |heap.view.groups|);
      LargestLast(heap.mem, heap.view);
      if heap.view.groups != [] {
        SizeHeader(heap.mem, heap.aq + 1, heap.view.groups, 0);
      }
      var q := heap.mem[heap.aq + 1].next;
      if q == heap.aq + 1 {
        return 0;
      }
      q := heap.mem[heap.aq + 1].prev.ptr;
      return heap.mem[q - 1].next - q;
    }

    method GetBlk(n: nat) returns (blk: Addr)
      requires Memory() && 2 <= n
      modifies heap`mem, heap`view
      ensures Memory()
      ensures blk == NULL <==> old(NoneFits(heap.mem, heap.view, n))
      ensures blk == NULL ==> heap.mem == old(heap.mem) && heap.view == old(heap.view)
      ensures forall m: int :: old(NoneFits(heap.mem, heap.view, m)) ==> NoneFits(heap.mem, heap.view, m)
      ensures blk != NULL ==>
                && blk - 1 !in old(heap.Contents()) && blk - 1 in heap.Contents()
                && n <= |heap.Contents()[blk - 1]| <= n + 2
                && heap.Contents() == old(heap.Contents())[blk - 1 := heap.Contents()[blk - 1]]
    {
      hide HeapOk, NoneFits, Blocks;
      HeapParts(heap.mem, heap.view);
      var found := heap.TakeFree(n);
      if found.None? {
        return NULL;
      }
      blk := heap.UseTaken(found.value, n);
    }

    /** rel_blk of an area of the pool; false when the area is not in use. */
    method RelBlk(blk: Addr) returns (ok: bool)
      requires Memory()
      requires blk > 0 && blk - 1 in heap.view.areas && blk - 1 < |heap.mem| && !heap.mem[blk - 1].prev.end
      modifies heap`mem, heap`view
      ensures Memory()
      ensures ok <==> blk - 1 in old(heap.Contents())
      ensures !ok ==> heap.mem == old(heap.mem) && heap.view == old(heap.view)
      ensures ok ==> heap.Contents() == old(heap.Contents()) - {blk - 1}
    {
      hide HeapOk, Blocks;
      HeapTiled(heap.mem, heap.view, {});
      InUse(heap.mem, heap.view, blk - 1);
      if !heap.mem[blk - 1].prev.use {
        return false;
      }
      var released := heap.MemFree(blk, true);
      return true;
    }

    // -------------------------------------------------------------- waiting tasks

    /** mpl_wakeup: serves the queue from its head as long as the memory suffices. */
    method Wakeup() returns (given: seq<Grant>)
      requires Memory() && Queue()
      modifies this`queue, heap`mem, heap`view
      ensures Valid() && Served(old(queue), queue, given, old(heap.Contents()), heap.Contents())
    {
      hide HeapOk, NoneFits, Blocks, QueueOk, Served;
      given := [];
      NoneServed(queue, heap.Contents());
      while queue != []
        invariant Memory() && Queue() && Served(old(queue), queue, given, old(heap.Contents()), heap.Contents())
        decreases |queue|
      {
        var top := queue[0];
        var max := MaxFreeSize();
        if top.req > max {
          break;
        }
        ghost var was := heap.Contents();
        var blk := GetBlk(top.req);
        OneServed(old(queue), queue, given, old(heap.Contents()), was, heap.Contents(), blk);
        DropOk(queue, 1, tpri);
        queue := queue[1..];
        given := given + [Grant(top.tid, blk)];
      }
    }

    /**
     _tk_get_mpl for calling task tid. A request is served at once only if no waiting task is at
     least as urgent; otherwise, or when no area fits, the task joins the queue. diswai says whether
     the task may not wait for the pool.
     */
    method GetMpl(tid: nat, pri: int, size: nat, poll: bool, diswai: bool) returns (reply: Reply)
      requires Valid() && Absent(queue, tid) && size > 0
      modifies this`queue, heap`mem, heap`view
      ensures Valid()
      ensures reply == BadParam <==> size > 8 * mplsz
      ensures reply == Disabled <==> size <= 8 * mplsz && diswai
      // served at once exactly when nobody at least as urgent waits and some free area is large enough
      ensures reply !in {BadParam, Disabled} ==>
                (reply.Got? <==>
                  && (old(queue) == [] || (tpri && pri < old(queue)[0].pri))
                  && !old(NoneFits(heap.mem, heap.view, RoundSize(size))))
      ensures reply.Got? ==> reply.ptr - 1 in heap.Contents() && 8 * |heap.Contents()[reply.ptr - 1]| >= size
      ensures reply.Got? ==>
                && queue == old(queue) && reply.ptr > 0
                && reply.ptr - 1 !in old(heap.Contents()) && reply.ptr - 1 in heap.Contents()
                && heap.Contents() == old(heap.Contents())[reply.ptr - 1 := heap.Contents()[reply.ptr - 1]]
                && RoundSize(size) <= |heap.Contents()[reply.ptr - 1]| <= RoundSize(size) + 2
      ensures !reply.Got? ==> heap.mem == old(heap.mem) && heap.view == old(heap.view)
      ensures reply == Waits ==> !poll && queue == Joined(old(queue), Waiter(tid, pri, RoundSize(size)), tpri)
      ensures reply == TimedOut ==> poll
      ensures reply in {BadParam, Disabled, TimedOut} ==> queue == old(queue)
    {
      hide HeapOk, NoneFits, Blocks, QueueOk, Absent;
      RoundSizeLeast(size, mplsz);
      var n := RoundSize(size);
      if n > mplsz {
        return BadParam;
      }
      if diswai {
        return Disabled;
      }
      var blk := NULL;
      if OnTop(queue, pri, tpri) {
        blk := GetBlk(n);
      }
      if blk != NULL {
        return Got(blk);
      }
      if poll {
        return TimedOut;
      }
      JoinedOk(queue, Waiter(tid, pri, n), tpri);
      queue := Join(queue, Waiter(tid, pri, n), tpri);
      return Waits;
    }

    /** _tk_rel_mpl. */
    method RelMpl(blk: Addr) returns (ok: bool, given: seq<Grant>)
      requires Valid()
      requires blk > 0 && blk - 1 in heap.view.areas && blk - 1 < |heap.mem| && !heap.mem[blk - 1].prev.end
      modifies this`queue, heap`mem, heap`view
      ensures Valid()
      ensures ok <==> blk - 1 in old(heap.Contents())
      ensures ok ==> Served(old(queue), queue, given, old(heap.Contents()) - {blk - 1}, heap.Contents())
      ensures !ok ==> given == [] && heap.mem == old(heap.mem) && heap.view == old(heap.view) && queue == old(queue)
    {
      hide HeapOk, NoneFits, Blocks, QueueOk, Served;
      ok := RelBlk(blk);
      if !ok {
        return false, [];
      }
      given := Wakeup();
    }

    /** A task leaves the queue by timeout or forced release; the hook then serves the new head. */
    method RelWai(i: nat) returns (given: seq<Grant>)
      requires Valid() && i < |queue|
      modifies this`queue, heap`mem, heap`view
      ensures Valid() && Served(Left(old(queue), i), queue, given, old(heap.Contents()), heap.Contents())
    {
      hide HeapOk, NoneFits, Blocks, QueueOk, Served;
      LeftOk(queue, i, tpri);
      queue := Left(queue, i);
      given := Wakeup();
    }

    /** tk_chg_pri of a waiting task; the hook is installed on TA_TPRI pools only. */
    method ChgPri(i: nat, pri: int) returns (given: seq<Grant>)
      requires Valid() && i < |queue| && tpri
      modifies this`queue, heap`mem, heap`view
      ensures Valid() && Served(Moved(old(queue), i, pri), queue, given, old(heap.Contents()), heap.Contents())
    {
      hide HeapOk, NoneFits, Blocks, QueueOk, Served;
      MovedOk(queue, i, pri);
      queue := Moved(queue, i, pri);
      given := Wakeup();
    }
  }

  /** The blocks there were are as they were, and those in addition are the granted ones. */
  ghost predicate Kept(was: map<Addr, seq<Cell>>, now: map<Addr, seq<Cell>>, given: seq<Grant>) {
    && (forall a :: a in was ==> a in now && now[a] == was[a])
    && (forall a :: a in now && a !in was ==> Given(given, a + 1))
  }

  ghost predicate Given(given: seq<Grant>, ptr: Addr) {
    exists i :: 0 <= i < |given| && given[i].ptr == ptr
  }

  /**
   From queue q0 the first tasks were served and q is left. Each got a block of its own with the room
   it asked for, and the blocks there were before have not changed.
   */
  ghost predicate Served(q0: seq<Waiter<nat>>, q: seq<Waiter<nat>>, given: seq<Grant>, was: map<Addr, seq<Cell>>,
                         now: map<Addr, seq<Cell>>) {
    && |given| <= |q0| && q == q0[|given|..] && Kept(was, now, given)
    && (forall i :: 0 <= i < |given| ==>
          && given[i].tid == q0[i].tid && given[i].ptr > 0 && given[i].ptr - 1 !in was
          && given[i].ptr - 1 in now && q0[i].req <= |now[given[i].ptr - 1]| <= q0[i].req + 2)
    && (forall i, j :: 0 <= i < j < |given| ==> given[i].ptr != given[j].ptr)
  }

  lemma NoneServed(q: seq<Waiter<nat>>, was: map<Addr, seq<Cell>>)
    ensures Served(q, q, [], was, was)
  {
  }

  lemma GivenMore(given: seq<Grant>, x: Grant, ptr: Addr)
    ensures Given(given, ptr) || ptr == x.ptr ==> Given(given + [x], ptr)
  {
    var g := given + [x];
    if Given(given, ptr) {
      var i :| 0 <= i < |given| && given[i].ptr == ptr;
      assert g[i].ptr == ptr;
    } else if ptr == x.ptr {
      assert g[|given|].ptr == ptr;
    }
  }

  lemma OneServed(q0: seq<Waiter<nat>>, q: seq<Waiter<nat>>, given: seq<Grant>, was: map<Addr, seq<Cell>>,
                  mid: map<Addr, seq<Cell>>, now: map<Addr, seq<Cell>>, blk: Addr)
    requires Served(q0, q, given, was, mid) && q != [] && blk > 0 && blk - 1 !in mid && blk - 1 in now
    requires now == mid[blk - 1 := now[blk - 1]] && q[0].req <= |now[blk - 1]| <= q[0].req + 2
    ensures Served(q0, q[1..], given + [Grant(q[0].tid, blk)], was, now)
  {
    hide Given;
    var g := given + [Grant(q[0].tid, blk)];
    forall i | 0 <= i < |g|
      ensures g[i].tid == q0[i].tid && g[i].ptr > 0 && g[i].ptr - 1 !in was && g[i].ptr - 1 in now
      ensures q0[i].req <= |now[g[i].ptr - 1]| <= q0[i].req + 2
    {
      if i < |given| {
        assert given[i].ptr - 1 in mid;
      }
    }
    forall a | a in now && a !in was ensures Given(g, a + 1) {
      GivenMore(given, Grant(q[0].tid, blk), a + 1);
    }
  }

  lemma InUse(mem: Memory, v: View, a: Addr)
    requires Tiled(mem, v) && a in v.areas && a < |mem| && !mem[a].prev.end
    ensures mem[a].prev.use <==> a in Blocks(mem, v.areas)
  {
    hide Ring, PagesOk;
    LiveContents(mem, v, a);
  }

  /** When every block has been returned the pool is one free area of its full size. */
  lemma AllReturned(mem: Memory, v: View, base: Addr, size: nat)
    requires HeapOk(mem, v, {}) && v.pages == map[base := size + 2] && Blocks(mem, v.areas) == map[]
    ensures v.areas == [base, base + size + 1] && base < |mem| && Free(mem, base) && Size(mem, base) == size
    ensures forall n: nat :: n <= size ==> !NoneFits(mem, v, n)
  {
    hide FreeQueueOk, Ring, Settled, Blocks;
    assert base in v.pages;
    StartIsTop(mem, v, 0);
    NextArea(mem, v, 0);
    LiveContents(mem, v, base);
    FreeAreasApart(mem, v, 0);
    var n := v.areas[1];
    assert AreaAt(mem, v, n);
    if !mem[n].prev.end {
      LiveContents(mem, v, n);
    }
    if |v.areas| > 2 {
      StartIsTop(mem, v, 2);
      AreasDiffer(mem, v, 0, 2);
    }
  }

  lemma AreasDiffer(mem: Memory, v: View, i: nat, j: nat)
    requires Ring(mem, [v.aq] + v.areas) && i < j < |v.areas|
    ensures v.areas[i] != v.areas[j]
  {
    assert ([v.aq] + v.areas)[i + 1] != ([v.aq] + v.areas)[j + 1];
  }

  /** So a task that waits always waits for a block that some other task holds. */
  lemma WaitersWaitForBlocks(p: Pool)
    requires p.Valid() && p.queue != []
    ensures p.heap.Contents() != map[]
  {
    hide HeapOk, Blocks, NoneFits;
    assert p.queue[0] in p.queue;
    if p.heap.Contents() == map[] {
      AllReturned(p.heap.mem, p.heap.view, p.base, p.mplsz);
    }
  }
}
