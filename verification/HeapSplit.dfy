/** Splitting an area in two and merging an area into the one before it. */
module HeapSplit {
  import opened Common
  import opened Rings
  import opened FreeQueue
  import opened HeapLayout
  import opened HeapSteps

  // ---------------------------------------------------------------- splitting

  ghost predicate CanSplit(mem: Memory, v: View, a: Addr, q: Addr) {
    && a in v.areas && a < |mem| && !mem[a].prev.end
    && a + 1 + v.minfrag <= q && q + 1 + v.minfrag <= mem[a].next
  }

  ghost function SplitView(v: View, i: nat, q: Addr): View
    requires i < |v.areas|
  {
    v.(areas := InsertAt(v.areas, i + 1, q),
       own := if v.areas[i] in v.own then v.own[q := v.own[v.areas[i]]] else v.own)
  }

  ghost predicate SplitCells(mem: Memory, mem': Memory, a: Addr, q: Addr) {
    && a < q < |mem| == |mem'| && q < mem[a].next < |mem|
    && var n := mem[a].next;
       && mem'[q] == Cell(n, Plain(a)) && mem'[a] == mem[a].(next := q)
       && mem'[n] == mem[n].(prev := mem[n].prev.(ptr := q))
       && forall c :: 0 <= c < |mem| && c != a && c != q && c != n ==> mem'[c] == mem[c]
  }

  lemma SplitWrites(mem: Memory, v: View, a: Addr, q: Addr)
    requires Tiled(mem, v) && CanSplit(mem, v, a, q)
    ensures q < |mem| && mem[a].next < |mem| && SplitCells(mem, AreaInserted(mem, a, q), a, q)
    ensures q !in v.areas && q !in v.pages && q != v.aq && mem[a].next in v.areas
  {
    hide Ring;
    assert AreaAt(mem, v, a);
    ControlApart(mem, v, a);
    BelowEnd(mem, v, a);
    if q in v.areas {
      AreasApart(mem, v, a, q);
      BelowEnd(mem, v, q);
    }
  }

  lemma SplitAreaNew(mem: Memory, mem': Memory, v: View, v': View, a: Addr, q: Addr)
    requires AreaAt(mem, v, a) && CanSplit(mem, v, a, q) && SplitCells(mem, mem', a, q)
    requires v' == v.(areas := v'.areas, own := v.own[q := v.own[a]]) && q !in v.pages
    requires forall c :: c in v'.areas <==> c in v.areas || c == q
    ensures AreaAt(mem', v', q)
  {
  }

  lemma SplitAreaFirst(mem: Memory, mem': Memory, v: View, v': View, a: Addr, q: Addr)
    requires AreaAt(mem, v, a) && CanSplit(mem, v, a, q) && SplitCells(mem, mem', a, q)
    requires v' == v.(areas := v'.areas, own := v.own[q := v.own[a]]) && q !in v.areas
    requires forall c :: c in v'.areas <==> c in v.areas || c == q
    requires !mem[a].prev.top ==> mem[a].prev.ptr < a
    ensures AreaAt(mem', v', a)
  {
  }

  lemma SplitAreaNext(mem: Memory, mem': Memory, v: View, v': View, a: Addr, q: Addr)
    requires AreaAt(mem, v, a) && CanSplit(mem, v, a, q) && SplitCells(mem, mem', a, q)
    requires v' == v.(areas := v'.areas, own := v.own[q := v.own[a]]) && q !in v.areas
    requires forall c :: c in v'.areas <==> c in v.areas || c == q
    requires AreaAt(mem, v, mem[a].next)
    ensures AreaAt(mem', v', mem[a].next)
  {
  }

  lemma SplitAreaOther(mem: Memory, mem': Memory, v: View, v': View, a: Addr, q: Addr, b: Addr)
    requires AreaAt(mem, v, a) && CanSplit(mem, v, a, q) && SplitCells(mem, mem', a, q)
    requires v' == v.(areas := v'.areas, own := v.own[q := v.own[a]]) && q !in v.areas
    requires forall c :: c in v'.areas <==> c in v.areas || c == q
    requires b in v.areas && b != a && b != mem[a].next && AreaAt(mem, v, b)
    ensures AreaAt(mem', v', b)
  {
  }

  lemma PrevBelow(mem: Memory, v: View, a: Addr)
    requires Tiled(mem, v) && a in v.areas
    ensures AreaAt(mem, v, a) && (!mem[a].prev.top ==> mem[a].prev.ptr < a)
  {
    hide Ring;
    assert AreaAt(mem, v, a);
    if !mem[a].prev.top {
      assert AreaAt(mem, v, mem[a].prev.ptr);
    }
  }

  lemma SplitTiled(mem: Memory, v: View, i: nat, q: Addr)
    requires i < |v.areas| && Tiled(mem, v) && CanSplit(mem, v, v.areas[i], q)
    ensures q < |mem| && mem[v.areas[i]].next < |mem|
    ensures Tiled(AreaInserted(mem, v.areas[i], q), SplitView(v, i, q))
  {
    hide Ring, AreaAt, AreaInserted, SplitCells, CanSplit, InsertAt;
    var a := v.areas[i];
    var v' := SplitView(v, i, q);
    SplitInMemory(mem, v, a, q);
    SplitWrites(mem, v, a, q);
    PrevBelow(mem, v, a);
    var mem' := AreaInserted(mem, a, q);
    SplitRing(mem, v, i, q);
    InsertFacts(v.areas, i + 1, q);
    forall b | b in v'.areas ensures AreaAt(mem', v', b) {
      if b == q {
        SplitAreaNew(mem, mem', v, v', a, q);
      } else {
        assert AreaAt(mem, v, b);
        assert AreaAt(mem, v, mem[a].next);
        if b == a {
          SplitAreaFirst(mem, mem', v, v', a, q);
        } else if b == mem[a].next {
          SplitAreaNext(mem, mem', v, v', a, q);
        } else {
          SplitAreaOther(mem, mem', v, v', a, q, b);
        }
      }
    }
    SplitPages(mem, mem', v, v');
  }

  lemma SplitInMemory(mem: Memory, v: View, a: Addr, q: Addr)
    requires Tiled(mem, v) && CanSplit(mem, v, a, q)
    ensures a < |mem| && AreaAt(mem, v, a) && a in v.own
  {
    assert AreaAt(mem, v, a);
  }

  lemma SplitPages(mem: Memory, mem': Memory, v: View, v': View)
    requires PagesOk(mem, v) && |mem'| == |mem| && v'.pages == v.pages && v'.aq == v.aq
    requires forall c :: c in v.areas ==> c in v'.areas
    ensures PagesOk(mem', v')
  {
  }

  lemma SplitRing(mem: Memory, v: View, i: nat, q: Addr)
    requires i < |v.areas| && Tiled(mem, v) && q < |mem| && q !in v.areas && q != v.aq
    ensures v.areas[i] < |mem| && mem[v.areas[i]].next < |mem|
    ensures Ring(AreaInserted(mem, v.areas[i], q), [v.aq] + InsertAt(v.areas, i + 1, q))
  {
    hide AreaAt, Ring, AreaInserted, PagesOk;
    var s := [v.aq] + v.areas;
    assert s[i + 1] == v.areas[i] && q !in s;
    AreaInsertRing(mem, s, i + 1, q);
    assert InsertAt(s, i + 2, q) == [v.aq] + InsertAt(v.areas, i + 1, q);
  }

  lemma SplitQueue(mem: Memory, mem': Memory, v: View, X: set<Addr>, a: Addr, q: Addr)
    requires HeapOk(mem, v, X) && CanSplit(mem, v, a, q) && SplitCells(mem, mem', a, q)
    requires a !in Members(v.groups)
    ensures FreeQueueOk(mem', v.aq + 1, v.groups)
  {
    hide FreeQueueOk, Ring, AreaAt, PagesOk, Members, Settled;
    TiledInMemory(mem, v);
    forall m | m in Members(v.groups) && m + 2 < |mem|
      ensures mem'[m].next == mem[m].next && mem'[m + 1] == mem[m + 1] && mem'[m + 2] == mem[m + 2]
    {
      assert m in v.areas && Free(mem, m);
      MemberCells(mem, v, m, a);
      MemberCells(mem, v, m, mem[a].next);
      assert a <= q < Extent(mem, a);
      InsideApart(mem, v, a, q, m);
    }
    ControlApart(mem, v, a);
    BelowEnd(mem, v, a);
    ControlApart(mem, v, mem[a].next);
    BelowEnd(mem, v, mem[a].next);
    QueueCellsFrame(mem, mem', v.aq + 1, v.groups);
  }

  lemma InsideApart(mem: Memory, v: View, a: Addr, q: Addr, m: Addr)
    requires Tiled(mem, v) && a in v.areas && m in v.areas && a != m
    requires a < |mem| && a <= q < Extent(mem, a) && m < |mem| && !mem[m].prev.end
    ensures q != m && q != m + 1 && q != m + 2
  {
    AreasApart(mem, v, a, m);
    assert AreaAt(mem, v, m);
  }

  lemma SplitSettled(mem: Memory, mem': Memory, v: View, X: set<Addr>, a: Addr, q: Addr, b: Addr)
    requires AreaAt(mem, v, b) && SplitCells(mem, mem', a, q) && q !in v.areas
    requires b in v.areas && b != a
    requires !mem[b].prev.end ==> AreaAt(mem, v, mem[b].next)
    requires Quiet(mem', b, X + {q})
    requires Quiet(mem, b, X) ==> Settled(mem, b, X, v.kept)
    ensures Settled(mem', b, X + {q}, v.kept)
  {
  }

  /** allocate's split: the rest of the area becomes a free area of its own, not yet registered. */
  lemma SplitStep(mem: Memory, v: View, X: set<Addr>, i: nat, q: Addr)
    requires i < |v.areas| && HeapOk(mem, v, X) && CanSplit(mem, v, v.areas[i], q)
    requires v.areas[i] in X || mem[v.areas[i]].prev.use
    ensures q < |mem| && mem[v.areas[i]].next < |mem| && q !in v.areas
    ensures var mem' := AreaInserted(mem, v.areas[i], q);
            && HeapOk(mem', SplitView(v, i, q), X + {q}) && SplitCells(mem, mem', v.areas[i], q)
  {
    hide FreeQueueOk, Ring, AreaAt, AreaInserted, InsertAt, Members, Settled, PagesOk;
    var a := v.areas[i];
    SplitWrites(mem, v, a, q);
    SplitTiled(mem, v, i, q);
    InsertFacts(v.areas, i + 1, q);
    var mem' := AreaInserted(mem, a, q);
    var v' := SplitView(v, i, q);
    TiledInMemory(mem, v);
    assert a !in Members(v.groups);
    SplitQueue(mem, mem', v, X, a, q);
    SplitFree(mem, mem', v, a, q);
    forall b | b in v'.areas && Quiet(mem', b, X + {q}) ensures Settled(mem', b, X + {q}, v.kept) {
      assert AreaAt(mem, v, b);
      if b != a {
        if !mem[b].prev.end {
          assert AreaAt(mem, v, mem[b].next);
        }
        SplitSettled(mem, mem', v, X, a, q, b);
      }
    }
  }

  lemma SplitFree(mem: Memory, mem': Memory, v: View, a: Addr, q: Addr)
    requires SplitCells(mem, mem', a, q) && q !in v.areas
    ensures Free(mem', q)
    ensures forall b :: b in v.areas && b < |mem| ==>
              mem'[b].prev.use == mem[b].prev.use && mem'[b].prev.end == mem[b].prev.end
              && mem'[b].prev.top == mem[b].prev.top
  {
  }

  lemma SplitBlock(mem: Memory, mem': Memory, v: View, a: Addr, q: Addr, b: Addr)
    requires Tiled(mem, v) && CanSplit(mem, v, a, q) && SplitCells(mem, mem', a, q)
    requires b in v.areas && b != a
    ensures SameBlock(mem, mem', b)
  {
    hide Ring, PagesOk;
    assert AreaAt(mem, v, b) && AreaAt(mem, v, a);
    if Live(mem, b) {
      HeaderOutside(mem, v, b, a);
      if b != mem[a].next {
        HeaderOutside(mem, v, b, mem[a].next);
      }
      AreasApart(mem, v, a, b);
      assert mem'[b + 1..mem[b].next] == mem[b + 1..mem[b].next];
    }
  }

  lemma SplitBlocks(mem: Memory, mem': Memory, v: View, i: nat, q: Addr)
    requires i < |v.areas| && Tiled(mem, v) && CanSplit(mem, v, v.areas[i], q) && SplitCells(mem, mem', v.areas[i], q)
    requires q !in v.areas
    ensures var a := v.areas[i];
            Blocks(mem', SplitView(v, i, q).areas) ==
            if mem[a].prev.use then Blocks(mem, v.areas)[a := mem[a + 1..q]] else Blocks(mem, v.areas)
  {
    hide Tiled, Blocks, CanSplit, SameBlock, InsertAt;
    var a := v.areas[i];
    var R' := SplitView(v, i, q).areas;
    InsertFacts(v.areas, i + 1, q);
    forall b | b in v.areas && b != a ensures SameBlock(mem, mem', b) {
      SplitBlock(mem, mem', v, a, q, b);
    }
    if mem[a].prev.use {
      assert mem'[a + 1..q] == mem[a + 1..q];
      BlocksPlus(mem, mem', v.areas, R', a);
    } else {
      SplitFreeSame(mem, mem', a, q);
      BlocksSame(mem, mem', v.areas, R');
    }
  }

  lemma SplitFreeSame(mem: Memory, mem': Memory, a: Addr, q: Addr)
    requires SplitCells(mem, mem', a, q) && !mem[a].prev.use
    ensures SameBlock(mem, mem', a)
  {
  }

  /**
   The whole effect of allocate on the headers: area a is in use, and if rest is set the cells from
   q on are a free area of their own.
   */
  ghost predicate Allocated(mem: Memory, mem': Memory, v: View, v': View, i: nat, q: Addr, rest: bool) {
    && |mem'| == |mem| && i < |v.areas| && v.areas[i] < |mem|
    && v'.pages == v.pages && v'.aq == v.aq && v'.minfrag == v.minfrag && v'.kept == v.kept
    && var a := v.areas[i];
       var n := mem[a].next;
       if rest then
         && q < |mem| && n < |mem| && v'.areas == InsertAt(v.areas, i + 1, q)
         && a in v.own && v'.own == v.own[q := v.own[a]]
         && mem'[q] == Cell(n, Plain(a))
         && mem'[a] == Cell(q, mem[a].prev.(use := true))
         && mem'[n] == mem[n].(prev := mem[n].prev.(ptr := q))
         && forall b :: b in v.areas && b != a && b != n && b < |mem| ==> mem'[b] == mem[b]
       else
         && v'.areas == v.areas && v'.own == v.own
         && mem'[a] == Cell(n, mem[a].prev.(use := true))
         && forall b :: b in v.areas && b != a && b < |mem| ==> mem'[b] == mem[b]
  }

  lemma AllocateBounds(mem: Memory, v: View, X: set<Addr>, a: Addr)
    requires HeapOk(mem, v, X) && a in v.areas && a < |mem| && !mem[a].prev.end
    ensures a + 1 <= mem[a].next < |mem|
  {
    hide Ring, PagesOk, FreeQueueOk, Settled;
    assert AreaAt(mem, v, a);
  }

  lemma AllocatedRest(m0: Memory, m1: Memory, m2: Memory, v: View, v': View, i: nat, q: Addr)
    requires i < |v.areas| && Tiled(m0, v) && CanSplit(m0, v, v.areas[i], q) && SplitCells(m0, m1, v.areas[i], q)
    requires q !in v.areas && v' == SplitView(v, i, q).(groups := v'.groups) && SameHeaders(m1, m2, SplitView(v, i, q))
    ensures v.areas[i] < |m2| && Allocated(m0, WithUse(m2, v.areas[i], true), v, v', i, q, true)
    ensures m2[v.areas[i]].next == q && m2[v.areas[i]].prev == m0[v.areas[i]].prev
    ensures v.areas[i] in v'.areas
  {
    hide Ring, PagesOk, NextOk, PrevOk, InsertAt;
    var a := v.areas[i];
    assert AreaAt(m0, v, a);
    SplitWrites(m0, v, a, q);
    InsertFacts(v.areas, i + 1, q);
    assert a in v.areas && m0[a].next in v.areas;
  }

  lemma AllocatedWhole(mem: Memory, v: View, i: nat, q: Addr)
    requires i < |v.areas| && v.areas[i] < |mem|
    ensures Allocated(mem, WithUse(mem, v.areas[i], true), v, v, i, q, false)
  {
  }

  // ---------------------------------------------------------------- merging

  ghost predicate CanMerge(mem: Memory, v: View, a: Addr, n: Addr) {
    && a in v.areas && a < |mem| && !mem[a].prev.end && mem[a].next == n
    && n in v.areas && n < |mem| && !mem[n].prev.end
  }

  ghost function MergeView(v: View, j: nat): View
    requires j < |v.areas|
  {
    v.(areas := Cut(v.areas, j))
  }

  ghost predicate MergeCells(mem: Memory, mem': Memory, a: Addr, n: Addr) {
    && a < n < |mem| == |mem'| && n < mem[n].next < |mem|
    && var m := mem[n].next;
       && mem'[a] == mem[a].(next := m) && mem'[m] == mem[m].(prev := mem[m].prev.(ptr := a))
       && forall c :: 0 <= c < |mem| && c != a && c != m ==> mem'[c] == mem[c]
  }

  lemma MergeWrites(mem: Memory, v: View, a: Addr, n: Addr)
    requires Tiled(mem, v) && CanMerge(mem, v, a, n)
    ensures mem[n].prev.ptr == a && mem[n].next < |mem| && !mem[n].prev.top && n !in v.pages
    ensures MergeCells(mem, AreaRemoved(mem, n), a, n)
    ensures AreaAt(mem, v, a) && AreaAt(mem, v, n) && AreaAt(mem, v, mem[n].next)
    ensures mem[n].next in v.areas
  {
    hide Ring, PagesOk;
    assert AreaAt(mem, v, a);
    assert AreaAt(mem, v, n);
    assert AreaAt(mem, v, mem[n].next);
  }

  lemma MergeAreaFirst(mem: Memory, mem': Memory, v: View, v': View, a: Addr, n: Addr)
    requires AreaAt(mem, v, a) && AreaAt(mem, v, n) && CanMerge(mem, v, a, n) && MergeCells(mem, mem', a, n)
    requires v' == v.(areas := v'.areas) && forall c :: c in v'.areas <==> c in v.areas && c != n
    requires !mem[a].prev.top ==> mem[a].prev.ptr < a
    ensures AreaAt(mem', v', a)
  {
  }

  lemma MergeAreaNext(mem: Memory, mem': Memory, v: View, v': View, a: Addr, n: Addr)
    requires AreaAt(mem, v, a) && AreaAt(mem, v, n) && CanMerge(mem, v, a, n) && MergeCells(mem, mem', a, n)
    requires v' == v.(areas := v'.areas) && forall c :: c in v'.areas <==> c in v.areas && c != n
    requires AreaAt(mem, v, mem[n].next)
    ensures AreaAt(mem', v', mem[n].next)
  {
  }

  lemma MergeAreaOther(mem: Memory, mem': Memory, v: View, v': View, a: Addr, n: Addr, b: Addr)
    requires AreaAt(mem, v, a) && AreaAt(mem, v, n) && CanMerge(mem, v, a, n) && MergeCells(mem, mem', a, n)
    requires v' == v.(areas := v'.areas) && forall c :: c in v'.areas <==> c in v.areas && c != n
    requires b in v'.areas && b != a && b != mem[n].next && AreaAt(mem, v, b)
    ensures AreaAt(mem', v', b)
  {
  }

  lemma MergeRing(mem: Memory, v: View, j: nat)
    requires j < |v.areas| && Ring(mem, [v.aq] + v.areas)
    ensures v.areas[j] < |mem| && mem[v.areas[j]].prev.ptr < |mem| && mem[v.areas[j]].next < |mem|
    ensures Ring(AreaRemoved(mem, v.areas[j]), [v.aq] + Cut(v.areas, j))
    ensures forall c :: c in Cut(v.areas, j) <==> c in v.areas && c != v.areas[j]
  {
    hide AreaRemoved;
    var s := [v.aq] + v.areas;
    assert s[j + 1] == v.areas[j];
    AreaRemoveRing(mem, s, j + 1);
    assert Cut(s, j + 1) == [v.aq] + Cut(v.areas, j);
    assert Distinct(v.areas) by {
      forall k, l | 0 <= k < l < |v.areas| ensures v.areas[k] != v.areas[l] {
        assert s[k + 1] != s[l + 1];
      }
    }
    DistinctCut(v.areas, j);
  }

  lemma MergeTiled(mem: Memory, v: View, a: Addr, j: nat)
    requires j < |v.areas| && Tiled(mem, v) && CanMerge(mem, v, a, v.areas[j])
    ensures mem[v.areas[j]].prev.ptr < |mem| && mem[v.areas[j]].next < |mem|
    ensures Tiled(AreaRemoved(mem, v.areas[j]), MergeView(v, j))
  {
    hide Ring, AreaAt, AreaRemoved, MergeCells, CanMerge, Cut;
    var n := v.areas[j];
    var v' := MergeView(v, j);
    MergeInMemory(mem, v, a, n);
    MergeWrites(mem, v, a, n);
    PrevBelow(mem, v, a);
    var mem' := AreaRemoved(mem, n);
    MergeRing(mem, v, j);
    forall b | b in v'.areas ensures AreaAt(mem', v', b) {
      if b == a {
        MergeAreaFirst(mem, mem', v, v', a, n);
      } else if b == mem[n].next {
        MergeAreaNext(mem, mem', v, v', a, n);
      } else {
        assert AreaAt(mem, v, b);
        MergeAreaOther(mem, mem', v, v', a, n, b);
      }
    }
    MergePages(mem, mem', v, v', n);
  }

  lemma MergeInMemory(mem: Memory, v: View, a: Addr, n: Addr)
    requires CanMerge(mem, v, a, n)
    ensures a < |mem| && n < |mem| && a in v.areas
  {
  }

  lemma MergePages(mem: Memory, mem': Memory, v: View, v': View, n: Addr)
    requires PagesOk(mem, v) && |mem'| == |mem| && v'.pages == v.pages && v'.aq == v.aq && n !in v.pages
    requires forall c :: c in v.areas && c != n ==> c in v'.areas
    ensures PagesOk(mem', v')
  {
  }

  lemma MergeQueue(mem: Memory, mem': Memory, v: View, X: set<Addr>, a: Addr, n: Addr)
    requires HeapOk(mem, v, X) && CanMerge(mem, v, a, n) && MergeCells(mem, mem', a, n)
    requires a !in Members(v.groups)
    ensures FreeQueueOk(mem', v.aq + 1, v.groups)
  {
    hide FreeQueueOk, Ring, AreaAt, PagesOk, Members, Settled;
    TiledInMemory(mem, v);
    forall m | m in Members(v.groups) && m + 2 < |mem|
      ensures mem'[m].next == mem[m].next && mem'[m + 1] == mem[m + 1] && mem'[m + 2] == mem[m + 2]
    {
      assert m in v.areas && Free(mem, m);
      MemberCells(mem, v, m, a);
      MemberCells(mem, v, m, mem[n].next);
    }
    ControlApart(mem, v, a);
    BelowEnd(mem, v, a);
    ControlApart(mem, v, mem[n].next);
    BelowEnd(mem, v, mem[n].next);
    QueueCellsFrame(mem, mem', v.aq + 1, v.groups);
  }

  lemma MergeSettled(mem: Memory, mem': Memory, v: View, X: set<Addr>, a: Addr, n: Addr, b: Addr)
    requires AreaAt(mem, v, b) && MergeCells(mem, mem', a, n) && CanMerge(mem, v, a, n) && mem[n].prev.ptr == a
    requires b in v.areas && b != a && b != n
    requires !mem[b].prev.end ==> AreaAt(mem, v, mem[b].next)
    requires Quiet(mem', b, X - {n})
    requires Quiet(mem, b, X) ==> Settled(mem, b, X, v.kept)
    ensures Settled(mem', b, X - {n}, v.kept)
  {
  }

  lemma MergeFlags(mem: Memory, mem': Memory, v: View, a: Addr, n: Addr)
    requires MergeCells(mem, mem', a, n)
    ensures |mem'| == |mem|
    ensures forall b :: 0 <= b < |mem| ==>
              mem'[b].prev.use == mem[b].prev.use && mem'[b].prev.end == mem[b].prev.end
              && mem'[b].prev.top == mem[b].prev.top
    ensures a < n < |mem| && mem'[a].next == mem[n].next && mem'[a].prev == mem[a].prev
  {
  }

  /** removeAreaQue of free area n, which becomes part of the area a before it. */
  lemma MergeStep(mem: Memory, v: View, X: set<Addr>, a: Addr, j: nat)
    requires j < |v.areas| && HeapOk(mem, v, X) && CanMerge(mem, v, a, v.areas[j])
    requires (a in X || mem[a].prev.use) && v.areas[j] in X
    ensures mem[v.areas[j]].prev.ptr < |mem| && mem[v.areas[j]].next < |mem|
    ensures var mem' := AreaRemoved(mem, v.areas[j]);
            && HeapOk(mem', MergeView(v, j), X - {v.areas[j]}) && MergeCells(mem, mem', a, v.areas[j])
    ensures forall c :: c in Cut(v.areas, j) <==> c in v.areas && c != v.areas[j]
  {
    hide FreeQueueOk, Ring, AreaAt, AreaRemoved, Cut, Members, Settled, PagesOk, MergeCells;
    var n := v.areas[j];
    MergeWrites(mem, v, a, n);
    MergeTiled(mem, v, a, j);
    MergeRing(mem, v, j);
    var mem' := AreaRemoved(mem, n);
    var v' := MergeView(v, j);
    TiledInMemory(mem, v);
    assert a !in Members(v.groups);
    MergeQueue(mem, mem', v, X, a, n);
    MergeFlags(mem, mem', v, a, n);
    forall b | b in v'.areas && Quiet(mem', b, X - {n}) ensures Settled(mem', b, X - {n}, v.kept) {
      assert AreaAt(mem, v, b);
      if b != a {
        if !mem[b].prev.end {
          assert AreaAt(mem, v, mem[b].next);
        }
        MergeSettled(mem, mem', v, X, a, n, b);
      }
    }
  }

  lemma MergeBlock(mem: Memory, mem': Memory, v: View, a: Addr, n: Addr, b: Addr)
    requires Tiled(mem, v) && CanMerge(mem, v, a, n) && MergeCells(mem, mem', a, n)
    requires b in v.areas && b != a
    ensures SameBlock(mem, mem', b)
  {
    hide Ring, PagesOk;
    assert AreaAt(mem, v, b) && AreaAt(mem, v, n);
    if Live(mem, b) {
      HeaderOutside(mem, v, b, a);
      if b != mem[n].next {
        HeaderOutside(mem, v, b, mem[n].next);
      }
      assert mem'[b + 1..mem[b].next] == mem[b + 1..mem[b].next];
    }
  }

  lemma MergeBlocks(mem: Memory, mem': Memory, v: View, a: Addr, j: nat)
    requires j < |v.areas| && Tiled(mem, v) && CanMerge(mem, v, a, v.areas[j]) && MergeCells(mem, mem', a, v.areas[j])
    requires !mem[v.areas[j]].prev.use
    requires forall c :: c in Cut(v.areas, j) <==> c in v.areas && c != v.areas[j]
    ensures var n := v.areas[j];
            Blocks(mem', MergeView(v, j).areas) ==
            if mem[a].prev.use then Blocks(mem, v.areas)[a := mem[a + 1..mem[n].next]] else Blocks(mem, v.areas)
  {
    hide Tiled, Blocks, SameBlock, Cut;
    var n := v.areas[j];
    var R' := MergeView(v, j).areas;
    forall b | b in v.areas && b != a ensures SameBlock(mem, mem', b) {
      MergeBlock(mem, mem', v, a, n, b);
    }
    assert !Live(mem, n);
    if mem[a].prev.use {
      assert mem'[a + 1..mem[n].next] == mem[a + 1..mem[n].next];
      BlocksPlus(mem, mem', v.areas, R', a);
    } else {
      MergeFreeSame(mem, mem', a, n);
      BlocksSame(mem, mem', v.areas, R');
    }
  }

  lemma MergeFreeSame(mem: Memory, mem': Memory, a: Addr, n: Addr)
    requires MergeCells(mem, mem', a, n) && !mem[a].prev.use
    ensures SameBlock(mem, mem', a)
  {
  }

  /** The whole effect on the headers of merging area a, at position i, with a free area behind it. */
  ghost predicate Absorbed(mem: Memory, mem': Memory, v: View, v': View, i: nat, merged: bool) {
    && |mem'| == |mem| && i < |v.areas| && v.areas[i] < |mem|
    && v'.pages == v.pages && v'.own == v.own && v'.aq == v.aq && v'.minfrag == v.minfrag && v'.kept == v.kept
    && var a := v.areas[i];
       var n := mem[a].next;
       if merged then
         && n < |mem| && mem[n].next < |mem| && i + 1 < |v.areas| && v.areas[i + 1] == n
         && v'.areas == Cut(v.areas, i + 1)
         && mem'[a] == mem[a].(next := mem[n].next)
         && mem'[mem[n].next] == mem[mem[n].next].(prev := mem[mem[n].next].prev.(ptr := a))
         && forall b :: b in v.areas && b != a && b != n && b != mem[n].next && b < |mem| ==> mem'[b] == mem[b]
       else
         v'.areas == v.areas && forall b :: b in v.areas && b < |mem| ==> mem'[b] == mem[b]
  }

  lemma AbsorbedMerge(m0: Memory, m1: Memory, m2: Memory, v: View, v1: View, v': View, i: nat)
    requires i < |v.areas| - 1 && Tiled(m0, v) && CanMerge(m0, v, v.areas[i], v.areas[i + 1])
    requires SameHeaders(m0, m1, v) && v1 == v.(groups := v1.groups)
    requires MergeCells(m1, m2, v.areas[i], v.areas[i + 1]) && v' == MergeView(v1, i + 1).(groups := v'.groups)
    ensures Absorbed(m0, m2, v, v', i, true)
  {
    hide Ring, PagesOk;
    var a, n := v.areas[i], v.areas[i + 1];
    assert a in v.areas && n in v.areas;
    assert AreaAt(m0, v, n);
  }

  lemma AbsorbedNone(mem: Memory, v: View, i: nat)
    requires i < |v.areas| && v.areas[i] < |mem|
    ensures Absorbed(mem, mem, v, v, i, false)
  {
  }

  lemma CanMergeSame(m0: Memory, m1: Memory, v: View, v1: View, a: Addr, n: Addr)
    requires CanMerge(m0, v, a, n) && SameHeaders(m0, m1, v) && v1 == v.(groups := v1.groups)
    ensures CanMerge(m1, v1, a, n) && m1[a] == m0[a] && m1[n] == m0[n]
  {
  }

  lemma AreasDistinct(mem: Memory, v: View, j: nat)
    requires Ring(mem, [v.aq] + v.areas) && j < |v.areas|
    ensures forall c :: c in Cut(v.areas, j) <==> c in v.areas && c != v.areas[j]
    ensures InsertAt(Cut(v.areas, j), j, v.areas[j]) == v.areas
  {
    MergeRing(mem, v, j);
  }

  lemma FreeHeader(mem: Memory, v: View, a: Addr)
    requires Tiled(mem, v) && a in v.areas && a < |mem| && !mem[a].prev.end
    ensures var n := mem[a].next;
            && n in v.areas && a < n < |mem| && a in v.own && n in v.own && v.own[n] == v.own[a]
            && (Free(mem, n) ==>
                 mem[n].prev == Plain(a) && mem[n].next in v.areas && n < mem[n].next < |mem|
                 && mem[mem[n].next].prev.ptr == n)
  {
    hide Ring, PagesOk, PrevOk;
    assert AreaAt(mem, v, a);
    assert AreaAt(mem, v, mem[a].next);
  }

  /** Merging then splitting again at the old size gives back the headers there were. */
  lemma AbsorbedUndone(m0: Memory, m1: Memory, m2: Memory, v0: View, v1: View, v2: View, i: nat, merged: bool)
    requires Tiled(m0, v0) && i < |v0.areas| && v0.areas[i] < |m0| && m0[v0.areas[i]].prev.use
             && !m0[v0.areas[i]].prev.end
    requires merged ==> m0[v0.areas[i]].next < |m0| && Free(m0, m0[v0.areas[i]].next)
    requires Absorbed(m0, m1, v0, v1, i, merged) && Allocated(m1, m2, v1, v2, i, m0[v0.areas[i]].next, merged)
    ensures v2 == v0.(groups := v2.groups)
    ensures forall b :: b in v0.areas && b < |m0| ==> m2[b] == m0[b]
  {
    var a := v0.areas[i];
    if merged {
      UndoneMerge(m0, m1, m2, v0, v1, v2, i);
    } else {
      assert m2[a] == m0[a];
    }
  }

  lemma UndoneMerge(m0: Memory, m1: Memory, m2: Memory, v0: View, v1: View, v2: View, i: nat)
    requires Tiled(m0, v0) && i < |v0.areas| && v0.areas[i] < |m0| && m0[v0.areas[i]].prev.use
             && !m0[v0.areas[i]].prev.end
    requires m0[v0.areas[i]].next < |m0| && Free(m0, m0[v0.areas[i]].next)
    requires Absorbed(m0, m1, v0, v1, i, true) && Allocated(m1, m2, v1, v2, i, m0[v0.areas[i]].next, true)
    ensures v2 == v0.(groups := v2.groups)
    ensures forall b :: b in v0.areas && b < |m0| ==> m2[b] == m0[b]
  {
    hide Ring, InsertAt, Cut, AreaAt, PagesOk;
    var a := v0.areas[i];
    var n := m0[a].next;
    FreeHeader(m0, v0, a);
    AreasDistinct(m0, v0, i + 1);
    CutBefore(v0.areas, i + 1, i);
    assert v2.areas == v0.areas;
    assert v0.own[n := v0.own[a]] == v0.own;
    forall b | b in v0.areas && b < |m0| ensures m2[b] == m0[b] {
      if b != a && b != n && b != m0[n].next {
        assert m1[b] == m0[b];
      }
    }
  }

  lemma CutBefore(s: seq<Addr>, j: nat, i: nat)
    requires i < j < |s|
    ensures |Cut(s, j)| == |s| - 1 && Cut(s, j)[i] == s[i]
  {
  }
}
