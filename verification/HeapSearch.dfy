/** Facts about the free queue that the allocator's searches and calls rely on. */
module HeapSearch {
  import opened Common
  import opened Rings
  import opened FreeQueue
  import opened HeapLayout
  import opened HeapSteps
  import opened HeapSplit
  import opened HeapPages

  /** The k-th cell of the size order; both the first and the last neighbour of the head is the head. */
  function SizeCell(fq: Addr, F: Groups, k: int): Addr {
    if 0 <= k < |F| then Rep(F[k]) + 1 else fq
  }

  lemma SizeLinks(mem: Memory, fq: Addr, F: Groups, k: int)
    requires FreeQueueOk(mem, fq, F) && -1 <= k <= |F|
    ensures var c := SizeCell(fq, F, k);
            && c < |mem|
            && (k >= 0 ==> mem[c].prev.ptr == SizeCell(fq, F, k - 1) < |mem|)
            && (k < |F| ==> mem[c].next == SizeCell(fq, F, k + 1) < |mem|)
  {
    var s := SizeRing(fq, F);
    var n := |s|;
    var i := if 0 <= k < |F| then k + 1 else 0;
    assert s[i] == SizeCell(fq, F, k);
    assert LinkAt(mem, s, i);
    assert k >= 0 ==> s[Pv(i, n)] == SizeCell(fq, F, k - 1);
    assert k < |F| ==> s[Nx(i, n)] == SizeCell(fq, F, k + 1);
  }

  /** A size-order cell other than the head belongs to the representative just before it in memory. */
  lemma SizeHeader(mem: Memory, fq: Addr, F: Groups, k: nat)
    requires FreeQueueOk(mem, fq, F) && k < |F|
    ensures F[k] != [] && Rep(F[k]) + 2 < |mem| && SizeCell(fq, F, k) != fq
    ensures Rep(F[k]) in Members(F)
  {
    assert GroupOk(mem, F[k]);
    MemberOf(F, k, 0);
  }

  ghost predicate SmallerTo(mem: Memory, F: Groups, k: int, size: int) {
    forall l :: 0 <= l < |F| && l < k && Rep(F[l]) < |mem| ==> Size(mem, Rep(F[l])) < size
  }

  /** Sizes ascend strictly, so one comparison settles all groups on one side. */
  lemma SizesBelow(mem: Memory, fq: Addr, F: Groups, k: nat, size: int)
    requires FreeQueueOk(mem, fq, F) && k < |F| && Rep(F[k]) < |mem|
    ensures Size(mem, Rep(F[k])) <= size ==> SmallerTo(mem, F, k, size)
    ensures Size(mem, Rep(F[k])) < size ==> SmallerTo(mem, F, k + 1, size)
  {
  }

  lemma FitFromAbove(mem: Memory, F: Groups, k: nat, size: int)
    requires k <= |F| && SmallerTo(mem, F, k, size)
    requires k < |F| && Rep(F[k]) < |mem| ==> size <= Size(mem, Rep(F[k]))
    ensures FitsAt(mem, F, k, size)
  {
  }

  /** No free area is as large as size. */
  ghost predicate NoneFits(mem: Memory, v: View, size: int) {
    forall a :: a in v.areas && a < |mem| && Free(mem, a) ==> Size(mem, a) < size
  }

  /** A search that ends at the head has seen that no free area fits. */
  lemma SearchFailed(mem: Memory, v: View, size: int)
    requires HeapOk(mem, v, {}) && FitsAt(mem, v.groups, |v.groups|, size)
    ensures NoneFits(mem, v, size)
  {
    hide Tiled, Settled, Ring;
    forall a | a in v.areas && a < |mem| && Free(mem, a) ensures Size(mem, a) < size {
      assert a in Members(v.groups);
      var k, j :| 0 <= k < |v.groups| && 0 <= j < |v.groups[k]| && v.groups[k][j] == a;
      assert GroupOk(mem, v.groups[k]);
      assert Size(mem, v.groups[k][j]) == Size(mem, v.groups[k][0]);
    }
  }

  /** The area found is the smallest free one that fits. */
  lemma SearchBest(mem: Memory, v: View, k: nat, size: int)
    requires HeapOk(mem, v, {}) && k < |v.groups| && FitsAt(mem, v.groups, k, size)
    ensures var a := Rep(v.groups[k]);
            && a < |mem| && a in v.areas && size <= Size(mem, a)
            && forall b :: b in v.areas && b < |mem| && Free(mem, b) && size <= Size(mem, b) ==>
                 Size(mem, a) <= Size(mem, b)
  {
    hide Tiled, Settled, Ring;
    var F := v.groups;
    SizeHeader(mem, v.aq + 1, F, k);
    var a := Rep(F[k]);
    assert a in v.areas;
    forall b | b in v.areas && b < |mem| && Free(mem, b) && size <= Size(mem, b) ensures Size(mem, a) <= Size(mem, b) {
      assert b in Members(F);
      var l, j :| 0 <= l < |F| && 0 <= j < |F[l]| && F[l][j] == b;
      assert GroupOk(mem, F[l]);
      assert Size(mem, F[l][j]) == Size(mem, F[l][0]);
    }
  }

  lemma NoneFitsSame(mem: Memory, mem': Memory, v: View, F': Groups, n: int)
    requires SameHeaders(mem, mem', v)
    ensures NoneFits(mem', v.(groups := F'), n) <==> NoneFits(mem, v, n)
  {
    var v' := v.(groups := F');
    if NoneFits(mem, v, n) {
      forall a | a in v'.areas && a < |mem'| && Free(mem', a) ensures Size(mem', a) < n {
        assert mem'[a] == mem[a];
      }
    }
    if NoneFits(mem', v', n) {
      forall a | a in v.areas && a < |mem| && Free(mem, a) ensures Size(mem, a) < n {
        assert mem'[a] == mem[a];
      }
    }
  }

  /** Allocation never makes room: what did not fit before does not fit afterwards. */
  lemma AllocatedNoneFits(mem: Memory, mem': Memory, v: View, v': View, i: nat, q: Addr, rest: bool, n: int)
    requires Allocated(mem, mem', v, v', i, q, rest) && NoneFits(mem, v, n) && Free(mem, v.areas[i])
    requires rest ==> v.areas[i] < q && mem[v.areas[i]].next < |mem| && v.areas[i] < mem[v.areas[i]].next
    ensures NoneFits(mem', v', n)
  {
    hide InsertAt;
    var a := v.areas[i];
    assert a in v.areas;
    if rest {
      InsertFacts(v.areas, i + 1, q);
    }
    forall b | b in v'.areas && b < |mem'| && Free(mem', b) ensures Size(mem', b) < n {
      assert Size(mem, a) < n;
      if b in v.areas && b != q {
        assert Free(mem, b);
      }
    }
  }

  /** The largest free area is the last in the size order. */
  lemma LargestLast(mem: Memory, v: View)
    requires HeapOk(mem, v, {})
    ensures v.groups == [] ==> forall n: nat :: NoneFits(mem, v, n)
    ensures v.groups != [] ==>
              && Rep(v.groups[|v.groups| - 1]) < |mem|
              && SizeCell(v.aq + 1, v.groups, |v.groups| - 1) != v.aq + 1
              && forall n: nat :: Size(mem, Rep(v.groups[|v.groups| - 1])) < n <==> NoneFits(mem, v, n)
  {
    hide Tiled, Settled, Ring, NoneFits;
    var F := v.groups;
    forall n: nat | F == [] ensures NoneFits(mem, v, n) {
      SearchFailed(mem, v, n);
    }
    if F != [] {
      var k := |F| - 1;
      SizeHeader(mem, v.aq + 1, F, k);
      forall n: nat ensures Size(mem, Rep(F[k])) < n <==> NoneFits(mem, v, n) {
        if Size(mem, Rep(F[k])) < n {
          SizesBelow(mem, v.aq + 1, F, k, n);
          FitFromAbove(mem, F, k + 1, n);
          SearchFailed(mem, v, n);
        } else {
          SomeFits(mem, v, Rep(F[k]), n);
        }
      }
    }
  }

  lemma SomeFits(mem: Memory, v: View, a: Addr, n: int)
    requires HeapOk(mem, v, {}) && a in Members(v.groups) && a < |mem| && n <= Size(mem, a)
    ensures !NoneFits(mem, v, n)
  {
    hide Tiled, FreeQueueOk, Settled, Members;
    assert a in Members(v.groups) + {};
  }

  /** Where an area stands in the free queue. */
  lemma MemberPlace(F: Groups, a: Addr) returns (k: nat, j: nat)
    requires a in Members(F)
    ensures k < |F| && j < |F[k]| && F[k][j] == a
  {
    k, j :| 0 <= k < |F| && 0 <= j < |F[k]| && F[k][j] == a;
  }

  lemma AreaIndex(R: seq<Addr>, a: Addr) returns (i: nat)
    requires a in R
    ensures i < |R| && R[i] == a
  {
    i :| 0 <= i < |R| && R[i] == a;
  }

  // ---------------------------------------------------------------- registering and taking

  ghost predicate AllSettled(mem: Memory, v: View, X: set<Addr>) {
    forall b :: b in v.areas && Quiet(mem, b, X) ==> Settled(mem, b, X, v.kept)
  }

  /** The header in memory of the size-order cell q says that its area has the given size. */
  predicate SizeAt(mem: Memory, q: Addr, size: int) {
    0 < q <= |mem| && mem[q - 1].next - q == size
  }

  lemma AppendReady(mem: Memory, v: View, X: set<Addr>, a: Addr)
    requires HeapOk(mem, v, X) && a in X
    ensures a + 2 < |mem| && a in v.areas && Free(mem, a) && Size(mem, a) > 0
    ensures a !in Members(v.groups) && Spaced(v.aq + 1, Members(v.groups) + {a})
  {
    hide Ring, FreeQueueOk, Settled, Spaced;
    TiledInMemory(mem, v);
    assert a in v.areas && Free(mem, a);
    forall b | b in Members(v.groups) + {a} ensures b in v.areas && b < |mem| && !mem[b].prev.end {
      assert Free(mem, b);
    }
    FreeSpaced(mem, v, Members(v.groups) + {a});
  }

  /** What registering area a at the place q of its size leads to. */
  ghost predicate Registered(mem: Memory, v: View, X: set<Addr>, a: Addr, q: Addr, F': Groups)
    requires a < |mem|
  {
    var p := if q != v.aq + 1 && SizeAt(mem, q, Size(mem, a)) then q + 1 else q;
    && a + 2 < |mem| && p < |mem| && mem[p].prev.ptr < |mem| && p != a + 1
    && HeapOk(Appended(mem, a, p), v.(groups := F'), X - {a})
    && SameHeaders(mem, Appended(mem, a, p), v)
    && Blocks(Appended(mem, a, p), v.areas) == Blocks(mem, v.areas)
  }

  lemma AppendStep(mem: Memory, v: View, X: set<Addr>, a: Addr, k: nat, q: Addr) returns (F': Groups)
    requires HeapOk(mem, v, X) && a in X && a < |mem| && AllSettled(mem, v, X - {a})
    requires q == SizePlace(v.aq + 1, v.groups, k) && FitsAt(mem, v.groups, k, Size(mem, a))
    ensures Registered(mem, v, X, a, q, F')
  {
    hide Tiled, Settled, Ring, GroupsOk, Spaced, Members, Blocks, SizeRing, Appended, Quiet, SameHeaders, Touched;
    AppendReady(mem, v, X, a);
    var fq, F := v.aq + 1, v.groups;
    AppendPlace(mem, fq, F, k, a);
    var p := if q != fq && SizeAt(mem, q, Size(mem, a)) then q + 1 else q;
    if p == q + 1 {
      AppendSameSize(mem, fq, F, k, a);
      F' := F[k := F[k] + [a]];
    } else {
      AppendNewSize(mem, fq, F, k, a);
      F' := NewGroup(F, k, a);
    }
    var mem' := Appended(mem, a, p);
    TouchedMore(mem, mem', fq, Members(F) + {a}, Members(F) + X);
    QueueWork(mem, mem', v, X, F', X - {a});
  }

  lemma TouchedMore(mem: Memory, mem': Memory, fq: Addr, S: set<Addr>, S': set<Addr>)
    requires Touched(mem, mem', fq, S) && S <= S'
    ensures Touched(mem, mem', fq, S')
  {
  }

  lemma AppendPlace(mem: Memory, fq: Addr, F: Groups, k: nat, a: Addr)
    requires FreeQueueOk(mem, fq, F) && a + 2 < |mem| && k <= |F|
    requires a !in Members(F) && Spaced(fq, Members(F) + {a})
    ensures var q := SizePlace(fq, F, k);
            && (k < |F| ==>
                 F[k] != [] && Rep(F[k]) + 2 < |mem| && q != fq
                 && (SizeAt(mem, q, Size(mem, a)) <==> Size(mem, Rep(F[k])) == Size(mem, a)))
            && q != a + 1 && (q != fq ==> q + 1 != a + 1)
  {
    hide Ring, SizeRing, GroupOk;
    if k < |F| {
      SizeHeader(mem, fq, F, k);
      assert Spread(Rep(F[k]), a);
    }
  }

  /** Area a may be registered: no queued area stands next to it and it does not fill its page. */
  lemma AppendOk(mem: Memory, v: View, X: set<Addr>, a: Addr)
    requires HeapOk(mem, v, X) && a in X && a < |mem|
    requires !Quiet(mem, mem[a].next, X - {a})
    requires a !in v.kept ==> !(mem[a].prev.top && mem[a].next < |mem| && mem[mem[a].next].prev.end)
    requires !mem[a].prev.top ==> !Quiet(mem, mem[a].prev.ptr, X - {a})
    ensures AllSettled(mem, v, X - {a})
  {
    hide Ring, FreeQueueOk, PagesOk, Members;
    forall b | b in v.areas && Quiet(mem, b, X - {a}) ensures Settled(mem, b, X - {a}, v.kept) {
      assert AreaAt(mem, v, b);
      if b != a {
        assert Settled(mem, b, X, v.kept);
      }
    }
  }

  /** The rest that a split leaves may be registered when the area behind it is not free. */
  lemma SplitRest(mem: Memory, mem': Memory, v: View, X: set<Addr>, i: nat, q: Addr)
    requires i < |v.areas| && HeapOk(mem, v, X) && CanSplit(mem, v, v.areas[i], q)
             && SplitCells(mem, mem', v.areas[i], q)
    requires X == if mem[v.areas[i]].prev.use then {} else {v.areas[i]}
    requires mem[v.areas[i]].next < |mem| && !Free(mem, mem[v.areas[i]].next)
    requires HeapOk(mem', SplitView(v, i, q), X + {q}) && q !in v.areas
    ensures q < |mem'| && AllSettled(mem', SplitView(v, i, q), X + {q} - {q}) && X + {q} - {q} == X
  {
    hide HeapOk, AllSettled;
    AppendOk(mem', SplitView(v, i, q), X + {q}, q);
  }

  /** The same-size ring of an area is empty unless it is the first of several of its size. */
  lemma RemoveKind(mem: Memory, fq: Addr, F: Groups, k: nat, j: nat)
    requires FreeQueueOk(mem, fq, F) && k < |F| && j < |F[k]|
    ensures F[k][j] + 2 < |mem|
    ensures mem[F[k][j] + 2].next == F[k][j] + 2 <==> j > 0 || |F[k]| == 1
  {
    hide Spaced, Members, SizeRing;
    var g := F[k];
    assert GroupOk(mem, g);
    if j > 0 {
      assert LinkAt(mem, [g[j] + 2], 0);
    } else {
      assert LinkAt(mem, SameRing(g), 0);
      assert |g| > 1 ==> SameRing(g)[0] != SameRing(g)[1];
    }
  }

  lemma TakeStep(mem: Memory, mem': Memory, v: View, X: set<Addr>, a: Addr, F': Groups)
    requires HeapOk(mem, v, X) && a in Members(v.groups)
    requires FreeQueueOk(mem', v.aq + 1, F') && Touched(mem, mem', v.aq + 1, Members(v.groups))
    requires Members(F') == Members(v.groups) - {a}
    ensures HeapOk(mem', v.(groups := F'), X + {a}) && SameHeaders(mem, mem', v)
    ensures Blocks(mem', v.areas) == Blocks(mem, v.areas)
  {
    hide Tiled, Ring, GroupsOk, Spaced, Members, Blocks, SizeRing, SameHeaders, Touched, FreeQueueOk;
    forall b | b in v.areas && Quiet(mem, b, X + {a}) ensures Settled(mem, b, X + {a}, v.kept) {
      assert Settled(mem, b, X, v.kept);
    }
    TouchedMore(mem, mem', v.aq + 1, Members(v.groups), Members(v.groups) + X);
    QueueWork(mem, mem', v, X, F', X + {a});
  }

  /** A queued area is free, not END, and the area behind it is not free. */
  lemma QueuedArea(mem: Memory, v: View, a: Addr)
    requires HeapOk(mem, v, {}) && a in Members(v.groups)
    ensures a in v.areas && a < |mem| && Free(mem, a) && a !in Blocks(mem, v.areas)
    ensures mem[a].next in v.areas && mem[a].next < |mem| && !Free(mem, mem[a].next)
  {
    hide Ring, FreeQueueOk, PagesOk, Members;
    assert a in Members(v.groups) + {};
    assert AreaAt(mem, v, a);
    assert Free(mem, a) && Quiet(mem, a, {});
  }

  /** A free area that is not being worked on is queued, and the area behind it is not free. */
  lemma FreeIsQueued(mem: Memory, v: View, X: set<Addr>, n: Addr)
    requires HeapOk(mem, v, X) && n in v.areas && n < |mem| && Free(mem, n) && n !in X
    ensures n in Members(v.groups) && !mem[n].prev.end
    ensures mem[n].next in v.areas && n < mem[n].next < |mem| && !Quiet(mem, mem[n].next, X)
    ensures n !in v.kept ==> !(mem[n].prev.top && mem[mem[n].next].prev.end)
  {
    hide Ring, FreeQueueOk, PagesOk, Members, PrevOk;
    assert n in Members(v.groups) + X;
    assert Quiet(mem, n, X) && Settled(mem, n, X, v.kept);
    assert AreaAt(mem, v, n);
  }

  lemma NextIndex(mem: Memory, v: View, i: nat)
    requires Tiled(mem, v) && i < |v.areas| && v.areas[i] < |mem| && !mem[v.areas[i]].prev.end
    ensures i + 1 < |v.areas| && v.areas[i + 1] == mem[v.areas[i]].next
    ensures v.areas[i + 1] < |mem| && v.areas[i] < v.areas[i + 1]
    ensures mem[v.areas[i + 1]].prev.ptr == v.areas[i] && !mem[v.areas[i + 1]].prev.top
  {
    hide Ring, PagesOk, PrevOk;
    ControlOutside(mem, v);
    RingNext(mem, v.aq, v.areas, i);
    assert AreaAt(mem, v, v.areas[i]);
  }

  lemma RingNext(mem: Memory, aq: Addr, R: seq<Addr>, i: nat)
    requires Ring(mem, [aq] + R) && i < |R|
    ensures R[i] < |mem| && mem[R[i]].next == if i + 1 < |R| then R[i + 1] else aq
  {
    var s := [aq] + R;
    assert s[i + 1] == R[i] && LinkAt(mem, s, i + 1);
  }

  /** The area before a queued one is not free. */
  lemma FreeBefore(mem: Memory, v: View, X: set<Addr>, p: Addr)
    requires HeapOk(mem, v, X) && p in v.areas && Quiet(mem, p, X)
    ensures !mem[p].prev.top ==> mem[p].prev.ptr in v.areas && mem[p].prev.ptr < p && !Quiet(mem, mem[p].prev.ptr, X)
  {
    hide Ring, FreeQueueOk, PagesOk, Members;
    assert AreaAt(mem, v, p);
    if !mem[p].prev.top {
      var b := mem[p].prev.ptr;
      assert AreaAt(mem, v, b);
      assert Quiet(mem, b, X) ==> Settled(mem, b, X, v.kept);
    }
  }

  lemma PrevArea(mem: Memory, v: View, a: Addr)
    requires Tiled(mem, v) && a in v.areas && a < |mem| && !mem[a].prev.top
    ensures var p := mem[a].prev.ptr;
            p in v.areas && p < a && p < |mem| && !mem[p].prev.end && mem[p].next == a
  {
    hide Ring, PagesOk;
    assert AreaAt(mem, v, a);
    assert AreaAt(mem, v, mem[a].prev.ptr);
  }

  // ---------------------------------------------------------------- user data

  /** Only cells inside the live block at a have changed. */
  ghost predicate InsideWrite(mem: Memory, mem': Memory, a: Addr) {
    |mem'| == |mem| && a < |mem| && forall c :: 0 <= c < |mem| && !(a < c < mem[a].next) ==> mem'[c] == mem[c]
  }

  lemma InsideHeaders(mem: Memory, mem': Memory, v: View, a: Addr)
    requires Tiled(mem, v) && a in v.areas && Live(mem, a) && InsideWrite(mem, mem', a)
    ensures SameHeaders(mem, mem', v) && !mem[a].prev.end
  {
    hide Ring, PagesOk, NextOk, PrevOk;
    assert AreaAt(mem, v, a);
    ControlApart(mem, v, a);
    forall b | (b in v.areas || b == v.aq) && b < |mem| ensures mem'[b] == mem[b] {
      if b in v.areas && b != a {
        HeaderOutside(mem, v, a, b);
      }
    }
  }

  lemma InsideQueue(mem: Memory, mem': Memory, v: View, X: set<Addr>, a: Addr)
    requires HeapOk(mem, v, X) && a in v.areas && Live(mem, a) && InsideWrite(mem, mem', a)
    ensures FreeQueueOk(mem', v.aq + 1, v.groups)
  {
    hide FreeQueueOk, Ring, AreaAt, PagesOk, Members, Settled;
    TiledInMemory(mem, v);
    InsideHeaders(mem, mem', v, a);
    ControlApart(mem, v, a);
    forall m | m in Members(v.groups) && m + 2 < |mem|
      ensures mem'[m].next == mem[m].next && mem'[m + 1] == mem[m + 1] && mem'[m + 2] == mem[m + 2]
    {
      assert m in v.areas && Free(mem, m);
      InsideOther(mem, v, a, m);
    }
    QueueCellsFrame(mem, mem', v.aq + 1, v.groups);
  }

  lemma InsideOther(mem: Memory, v: View, a: Addr, m: Addr)
    requires Tiled(mem, v) && a in v.areas && Live(mem, a) && m in v.areas && m != a
    requires m < |mem| && !mem[m].prev.end
    ensures !(a < m < mem[a].next) && !(a < m + 1 < mem[a].next) && !(a < m + 2 < mem[a].next)
  {
    hide Ring, PagesOk;
    assert AreaAt(mem, v, m) && AreaAt(mem, v, a);
    AreasApart(mem, v, a, m);
  }

  lemma InsideBlock(mem: Memory, mem': Memory, v: View, a: Addr, b: Addr)
    requires Tiled(mem, v) && a in v.areas && Live(mem, a) && InsideWrite(mem, mem', a)
    requires b in v.areas && b != a
    ensures SameBlock(mem, mem', b)
  {
    hide Ring, PagesOk, NextOk, PrevOk;
    InsideHeaders(mem, mem', v, a);
    assert AreaAt(mem, v, b);
    if Live(mem, b) {
      AreasApart(mem, v, a, b);
      assert mem'[b + 1..mem[b].next] == mem[b + 1..mem[b].next];
    }
  }

  /** Writing into a live block changes the contents of that block and nothing else. */
  lemma InsideStep(mem: Memory, mem': Memory, v: View, X: set<Addr>, a: Addr)
    requires HeapOk(mem, v, X) && a in v.areas && Live(mem, a) && InsideWrite(mem, mem', a)
    ensures HeapOk(mem', v, X)
    ensures Blocks(mem', v.areas) == Blocks(mem, v.areas)[a := mem'[a + 1..mem[a].next]]
  {
    hide FreeQueueOk, Members, Ring, PagesOk, AreaAt, Blocks, Settled, SameBlock;
    TiledInMemory(mem, v);
    InsideHeaders(mem, mem', v, a);
    InsideQueue(mem, mem', v, X, a);
    TiledHeaders(mem, mem', v, v.groups);
    assert v.(groups := v.groups) == v;
    SettledHeaders(mem, mem', v, X);
    forall b | b in v.areas && b != a ensures SameBlock(mem, mem', b) {
      InsideBlock(mem, mem', v, a, b);
    }
    BlocksPlus(mem, mem', v.areas, v.areas, a);
  }
}
