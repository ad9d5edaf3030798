/** Adding a page to the area queue and giving a page back. */
module HeapPages {
  import opened Common
  import opened Rings
  import opened FreeQueue
  import opened HeapLayout
  import opened HeapSteps
  import opened HeapSplit

  // ---------------------------------------------------------------- neighbours in the area queue

  lemma RingNeighbours(mem: Memory, v: View, a: Addr)
    requires Ring(mem, [v.aq] + v.areas) && a in v.areas
    ensures a < |mem|
    ensures var h := mem[a].prev.ptr;
            (h == v.aq || h in v.areas) && h < |mem| && mem[h].next == a
    ensures var g := mem[a].next;
            (g == v.aq || g in v.areas) && g < |mem| && mem[g].prev.ptr == a
  {
    var s := [v.aq] + v.areas;
    var j :| 0 <= j < |v.areas| && v.areas[j] == a;
    assert s[j + 1] == a;
    var n := |s|;
    assert LinkAt(mem, s, j + 1) && LinkAt(mem, s, Pv(j + 1, n)) && LinkAt(mem, s, Nx(j + 1, n));
    assert Nx(Pv(j + 1, n), n) == j + 1 && Pv(Nx(j + 1, n), n) == j + 1;
  }

  lemma NoShortRing(mem: Memory, v: View, a: Addr, n: Addr)
    requires Ring(mem, [v.aq] + v.areas) && a in v.areas && n in v.areas && v.aq !in v.areas && a < |mem| && n < |mem|
    requires mem[a].next == n
    ensures mem[n].next != a
  {
    var s := [v.aq] + v.areas;
    var j :| 0 <= j < |v.areas| && v.areas[j] == a;
    assert s[j + 1] == a && LinkAt(mem, s, j + 1);
    var k := Nx(j + 1, |s|);
    assert k != 0 && s[k] == n && LinkAt(mem, s, k);
    assert s[Nx(k, |s|)] != s[j + 1];
  }

  lemma FirstArea(mem: Memory, v: View)
    requires Ring(mem, [v.aq] + v.areas)
    ensures v.aq < |mem|
    ensures var f := mem[v.aq].next;
            && f < |mem| && mem[f].prev.ptr == v.aq
            && (v.areas == [] ==> f == v.aq) && (v.areas != [] ==> f == v.areas[0])
  {
    var s := [v.aq] + v.areas;
    assert LinkAt(mem, s, 0) && LinkAt(mem, s, Nx(0, |s|));
    assert Pv(Nx(0, |s|), |s|) == 0;
  }

  /** After an END header, or first in the queue, comes a TOP header. */
  lemma TopFollows(mem: Memory, v: View, g: Addr)
    requires Tiled(mem, v) && g in v.areas
    requires g < |mem| && (mem[g].prev.ptr == v.aq || (mem[g].prev.ptr < |mem| && mem[mem[g].prev.ptr].prev.end))
    ensures mem[g].prev.top
  {
    hide Ring, PagesOk;
    assert AreaAt(mem, v, g);
    if !mem[g].prev.top && mem[g].prev.ptr == v.aq {
      ControlApart(mem, v, v.aq);
      BelowEnd(mem, v, v.aq);
    }
  }

  // ---------------------------------------------------------------- a new page

  /** What the page allocator promises: cells that belong neither to a page held nor to the control block. */
  ghost predicate Granted(mem: Memory, v: View, p: Addr, len: nat) {
    && p + len <= |mem|
    && (p + len <= v.aq || v.aq + 2 <= p)
    && forall q :: q in v.pages ==> p + len <= q || q + v.pages[q] <= p
  }

  ghost predicate CanAdd(mem: Memory, v: View, p: Addr, len: nat) {
    v.minfrag + 2 <= len && Granted(mem, v, p, len)
  }

  function WithTop(mem: Memory, a: Addr): Memory
    requires a < |mem|
  {
    SetPrev(mem, a, mem[a].prev.(top := true))
  }

  function WithEnd(mem: Memory, a: Addr): Memory
    requires a < |mem|
  {
    SetPrev(mem, a, mem[a].prev.(end := true))
  }

  ghost function AddView(v: View, p: Addr, len: nat): View
    requires len > 0
  {
    v.(areas := [p, p + len - 1] + v.areas, own := v.own[p := p][p + len - 1 := p], pages := v.pages[p := len])
  }

  /** What newPage leaves in memory. */
  ghost predicate AddCells(mem: Memory, mem': Memory, aq: Addr, p: Addr, e: Addr) {
    && |mem'| == |mem| && aq < |mem| && p < e < |mem| && mem[aq].next < |mem|
    && var f := mem[aq].next;
       && mem'[p] == Cell(e, Word(aq, false, true, false)) && mem'[e] == Cell(f, Word(p, false, false, true))
       && mem'[f].prev == mem[f].prev.(ptr := e) && (f != aq ==> mem'[f].next == mem[f].next)
       && forall c :: 0 <= c < |mem| && c != aq && c != p && c != e && c != f ==> mem'[c] == mem[c]
  }

  /** newPage's two insertions and flags. */
  ghost predicate Adding(mem: Memory, aq: Addr, p: Addr, e: Addr, m1: Memory, m2: Memory, m3: Memory, m4: Memory) {
    && aq < |mem| && p < |mem| && e < |mem| && mem[aq].next < |mem| && m1 == AreaInserted(mem, aq, e)
    && m1[aq].next < |m1| && m2 == AreaInserted(m1, aq, p)
    && m3 == WithTop(m2, p) && m4 == WithEnd(m3, e)
  }

  lemma AddWrites(mem: Memory, aq: Addr, p: Addr, e: Addr, m1: Memory, m2: Memory, m3: Memory, m4: Memory)
    requires Adding(mem, aq, p, e, m1, m2, m3, m4) && p < e && p != aq && e != aq && mem[aq].next != p
             && mem[aq].next != e
    ensures AddCells(mem, m4, aq, p, e)
  {
  }

  lemma AddRing(mem: Memory, v: View, p: Addr, e: Addr, m1: Memory, m2: Memory, m3: Memory, m4: Memory)
    requires Adding(mem, v.aq, p, e, m1, m2, m3, m4) && Ring(mem, [v.aq] + v.areas)
    requires p != e && p !in [v.aq] + v.areas && e !in [v.aq] + v.areas
    ensures Ring(m4, [v.aq] + ([p, e] + v.areas))
  {
    hide Ring, AreaInserted;
    var s := [v.aq] + v.areas;
    AreaInsertRing(mem, s, 0, e);
    var s1 := [v.aq, e] + v.areas;
    assert InsertAt(s, 1, e) == s1;
    AreaInsertRing(m1, s1, 0, p);
    assert InsertAt(s1, 1, p) == [v.aq] + ([p, e] + v.areas);
    RingFlags(m2, m4, [v.aq] + ([p, e] + v.areas));
  }

  lemma PageFresh(mem: Memory, v: View, p: Addr, len: nat, a: Addr)
    requires Tiled(mem, v) && CanAdd(mem, v, p, len) && a in v.areas
    ensures a < |mem| && (Extent(mem, a) <= p || p + len <= a) && a < Extent(mem, a)
  {
    hide Ring;
    AboveStart(mem, v, a);
    BelowEnd(mem, v, a);
  }

  lemma AddFresh(mem: Memory, v: View, p: Addr, len: nat)
    requires Tiled(mem, v) && CanAdd(mem, v, p, len)
    ensures var e := p + len - 1;
            p != v.aq && e != v.aq && p !in v.areas && e !in v.areas && v.aq < |mem| && mem[v.aq].next < |mem|
    ensures var f := mem[v.aq].next;
            && f != p && f != p + len - 1 && (f != v.aq ==> f in v.areas && mem[f].prev.top)
            && (f == v.aq ==> v.areas == [])
  {
    hide Ring;
    FirstArea(mem, v);
    forall a | a in v.areas ensures a != p && a != p + len - 1 && a != v.aq {
      PageFresh(mem, v, p, len, a);
      ControlApart(mem, v, a);
    }
    if v.areas != [] {
      TopFollows(mem, v, mem[v.aq].next);
    }
  }

  lemma AddAreaOld(mem: Memory, mem': Memory, v: View, p: Addr, len: nat, b: Addr)
    requires CanAdd(mem, v, p, len) && AddCells(mem, mem', v.aq, p, p + len - 1)
    requires v.aq !in v.areas && p !in v.areas && p + len - 1 !in v.areas
    requires mem[v.aq].next in v.areas ==> mem[mem[v.aq].next].prev.top
    requires b in v.areas && AreaAt(mem, v, b) && p !in v.pages
    ensures AreaAt(mem', AddView(v, p, len), b)
  {
  }

  lemma AddAreaTop(mem: Memory, mem': Memory, v: View, p: Addr, len: nat)
    requires CanAdd(mem, v, p, len) && AddCells(mem, mem', v.aq, p, p + len - 1)
    ensures AreaAt(mem', AddView(v, p, len), p)
  {
    assert p + len - 1 in AddView(v, p, len).areas by {
      assert AddView(v, p, len).areas[1] == p + len - 1;
    }
  }

  lemma AddAreaEnd(mem: Memory, mem': Memory, v: View, p: Addr, len: nat)
    requires CanAdd(mem, v, p, len) && AddCells(mem, mem', v.aq, p, p + len - 1)
    requires p + len - 1 !in v.pages
    ensures AreaAt(mem', AddView(v, p, len), p + len - 1)
  {
    assert p in AddView(v, p, len).areas by {
      assert AddView(v, p, len).areas[0] == p;
    }
  }

  lemma AddPages(mem: Memory, mem': Memory, v: View, p: Addr, len: nat)
    requires PagesOk(mem, v) && CanAdd(mem, v, p, len) && |mem'| == |mem|
    ensures PagesOk(mem', AddView(v, p, len))
  {
    var v' := AddView(v, p, len);
    assert v'.areas[0] == p;
    forall q | q in v'.pages ensures q in v'.areas {
      if q != p {
        assert q in v.areas;
      }
    }
  }

  lemma AddMembers(v: View, p: Addr, len: nat)
    requires len > 0
    ensures forall b :: b in AddView(v, p, len).areas <==> b in v.areas || b == p || b == p + len - 1
  {
    var R := [p, p + len - 1] + v.areas;
    assert R[0] == p && R[1] == p + len - 1;
  }

  lemma AddTiled(mem: Memory, mem': Memory, v: View, p: Addr, len: nat)
    requires Tiled(mem, v) && CanAdd(mem, v, p, len) && AddCells(mem, mem', v.aq, p, p + len - 1)
    requires Ring(mem', [v.aq] + ([p, p + len - 1] + v.areas))
    ensures Tiled(mem', AddView(v, p, len))
  {
    hide Ring, AreaAt, AddCells, CanAdd;
    AddLength(mem, mem', v, p, len);
    AddFresh(mem, v, p, len);
    AddPages(mem, mem', v, p, len);
    AddMembers(v, p, len);
    assert p !in v.pages && p + len - 1 !in v.pages;
    var v' := AddView(v, p, len);
    forall b | b in v'.areas ensures AreaAt(mem', v', b) {
      if b in v.areas {
        assert AreaAt(mem, v, b);
        ControlOutside(mem, v);
        AddAreaOld(mem, mem', v, p, len, b);
      } else if b == p {
        AddAreaTop(mem, mem', v, p, len);
      } else {
        AddAreaEnd(mem, mem', v, p, len);
      }
    }
  }

  lemma ControlOutside(mem: Memory, v: View)
    requires Tiled(mem, v)
    ensures v.aq !in v.areas
  {
    hide Ring;
    if v.aq in v.areas {
      ControlApart(mem, v, v.aq);
      BelowEnd(mem, v, v.aq);
    }
  }

  lemma AddLength(mem: Memory, mem': Memory, v: View, p: Addr, len: nat)
    requires CanAdd(mem, v, p, len) && AddCells(mem, mem', v.aq, p, p + len - 1)
    ensures |mem'| == |mem| && len > 1
  {
  }

  lemma AddQueue(mem: Memory, mem': Memory, v: View, X: set<Addr>, p: Addr, len: nat)
    requires HeapOk(mem, v, X) && CanAdd(mem, v, p, len) && AddCells(mem, mem', v.aq, p, p + len - 1)
    ensures FreeQueueOk(mem', v.aq + 1, v.groups)
  {
    hide FreeQueueOk, Ring, AreaAt, PagesOk, Members, Settled;
    TiledInMemory(mem, v);
    AddFresh(mem, v, p, len);
    ControlOutside(mem, v);
    var f := mem[v.aq].next;
    forall m | m in Members(v.groups) && m + 2 < |mem|
      ensures mem'[m].next == mem[m].next && mem'[m + 1] == mem[m + 1] && mem'[m + 2] == mem[m + 2]
    {
      assert m in v.areas && Free(mem, m);
      AddOutside(mem, v, p, len, m);
      if f in v.areas {
        MemberCells(mem, v, m, f);
      }
    }
    if f in v.areas {
      ControlApart(mem, v, f);
      BelowEnd(mem, v, f);
    }
    QueueCellsFrame(mem, mem', v.aq + 1, v.groups);
  }

  lemma AddOutside(mem: Memory, v: View, p: Addr, len: nat, m: Addr)
    requires Tiled(mem, v) && CanAdd(mem, v, p, len) && m in v.areas && m < |mem| && !mem[m].prev.end
    ensures m != p && m != p + len - 1 && m != v.aq
    ensures m + 1 != p && m + 1 != p + len - 1 && m + 1 != v.aq
    ensures m + 2 != p && m + 2 != p + len - 1 && m + 2 != v.aq
  {
    hide Ring;
    PageFresh(mem, v, p, len, m);
    ControlApart(mem, v, m);
    assert AreaAt(mem, v, m);
  }

  lemma AddSettled(mem: Memory, mem': Memory, v: View, X: set<Addr>, p: Addr, len: nat, b: Addr)
    requires len > 1 && AreaAt(mem, v, b) && AddCells(mem, mem', v.aq, p, p + len - 1)
    requires v.aq !in v.areas && p !in v.areas && p + len - 1 !in v.areas
    requires b in v.areas
    requires Quiet(mem', b, X + {p})
    requires Quiet(mem, b, X) ==> Settled(mem, b, X, v.kept)
    ensures Settled(mem', b, X + {p}, v.kept)
  {
  }

  lemma AddFlags(mem: Memory, mem': Memory, v: View, p: Addr, len: nat)
    requires len > 1 && AddCells(mem, mem', v.aq, p, p + len - 1)
    requires v.aq !in v.areas && p !in v.areas && p + len - 1 !in v.areas
    ensures |mem'| == |mem| && p + len - 1 < |mem|
    ensures forall b :: b in v.areas && b < |mem| ==>
              mem'[b].prev.use == mem[b].prev.use && mem'[b].prev.end == mem[b].prev.end && mem'[b].next == mem[b].next
    ensures Free(mem', p) && mem'[p].next == p + len - 1 && mem'[p].prev.top
    ensures !Free(mem', p + len - 1) && mem'[p + len - 1].prev.end && !mem'[p + len - 1].prev.use
  {
  }

  /** newPage: the page becomes one free area, not yet registered. */
  lemma AddStep(mem: Memory, v: View, X: set<Addr>, p: Addr, len: nat, m1: Memory, m2: Memory, m3: Memory, mem': Memory)
    requires HeapOk(mem, v, X) && CanAdd(mem, v, p, len)
    requires Adding(mem, v.aq, p, p + len - 1, m1, m2, m3, mem')
    ensures HeapOk(mem', AddView(v, p, len), X + {p}) && p !in v.areas && p + len - 1 !in v.areas
    ensures AddCells(mem, mem', v.aq, p, p + len - 1)
  {
    hide FreeQueueOk, Ring, AreaAt, Members, Settled, PagesOk, Adding, AddCells;
    AddFresh(mem, v, p, len);
    ControlOutside(mem, v);
    AddWrites(mem, v.aq, p, p + len - 1, m1, m2, m3, mem');
    AddRing(mem, v, p, p + len - 1, m1, m2, m3, mem');
    AddTiled(mem, mem', v, p, len);
    AddQueue(mem, mem', v, X, p, len);
    AddFlags(mem, mem', v, p, len);
    AddMembers(v, p, len);
    TiledInMemory(mem, v);
    var v' := AddView(v, p, len);
    forall b | b in v'.areas && Quiet(mem', b, X + {p}) ensures Settled(mem', b, X + {p}, v.kept) {
      if b in v.areas {
        assert AreaAt(mem, v, b);
        AddSettled(mem, mem', v, X, p, len, b);
      }
    }
  }

  lemma AddBlock(mem: Memory, mem': Memory, v: View, p: Addr, len: nat, b: Addr)
    requires Tiled(mem, v) && CanAdd(mem, v, p, len) && AddCells(mem, mem', v.aq, p, p + len - 1)
    requires b in v.areas && v.aq !in v.areas && (mem[v.aq].next == v.aq || mem[v.aq].next in v.areas)
    requires p !in v.areas && p + len - 1 !in v.areas
    ensures SameBlock(mem, mem', b)
  {
    hide Ring, PagesOk, CanAdd;
    AddLength(mem, mem', v, p, len);
    AddFlags(mem, mem', v, p, len);
    assert AreaAt(mem, v, b);
    if Live(mem, b) {
      PageFresh(mem, v, p, len, b);
      ControlApart(mem, v, b);
      if mem[v.aq].next in v.areas && b != mem[v.aq].next {
        HeaderOutside(mem, v, b, mem[v.aq].next);
      }
      assert mem'[b + 1..mem[b].next] == mem[b + 1..mem[b].next];
    }
  }

  lemma AddBlocks(mem: Memory, mem': Memory, v: View, p: Addr, len: nat)
    requires Tiled(mem, v) && CanAdd(mem, v, p, len) && AddCells(mem, mem', v.aq, p, p + len - 1)
    ensures Blocks(mem', AddView(v, p, len).areas) == Blocks(mem, v.areas)
  {
    hide Tiled, CanAdd, AddCells, Blocks, SameBlock;
    AddLength(mem, mem', v, p, len);
    AddFresh(mem, v, p, len);
    ControlOutside(mem, v);
    AddMembers(v, p, len);
    AddFlags(mem, mem', v, p, len);
    forall b | b in v.areas ensures SameBlock(mem, mem', b) {
      AddBlock(mem, mem', v, p, len, b);
    }
    BlocksSame(mem, mem', v.areas, AddView(v, p, len).areas);
  }

  // ---------------------------------------------------------------- giving a page back

  ghost predicate CanDrop(mem: Memory, v: View, a: Addr, n: Addr) {
    && a in v.areas && a < |mem| && mem[a].prev.top && mem[a].next == n
    && n in v.areas && n < |mem| && mem[n].prev.end
  }

  ghost function DropView(v: View, j: nat, k: nat): View
    requires j < |v.areas| && k < |v.areas| - 1
  {
    v.(areas := Cut(Cut(v.areas, j), k), pages := v.pages - {v.areas[if k < j then k else k + 1]})
  }

  /** What the two removals leave: the neighbours of the page now point to each other. */
  ghost predicate DropCells(mem: Memory, mem': Memory, a: Addr, n: Addr) {
    && |mem'| == |mem| && a < |mem| && n < |mem| && mem[a].prev.ptr < |mem| && mem[n].next < |mem|
    && var h, g := mem[a].prev.ptr, mem[n].next;
       && mem'[h].next == g && mem'[g].prev == mem[g].prev.(ptr := h)
       && (h != g ==> mem'[h].prev == mem[h].prev && mem'[g].next == mem[g].next)
       && forall c :: 0 <= c < |mem| && c != a && c != h && c != g ==> mem'[c] == mem[c]
  }

  ghost predicate Dropping(mem: Memory, a: Addr, n: Addr, m1: Memory, m2: Memory) {
    && a < |mem| && n < |mem| && mem[n].prev.ptr < |mem| && mem[n].next < |mem| && m1 == AreaRemoved(mem, n)
    && m1[a].prev.ptr < |m1| && m1[a].next < |m1| && m2 == AreaRemoved(m1, a)
  }

  lemma DropWrites(mem: Memory, a: Addr, n: Addr, m1: Memory, m2: Memory)
    requires Dropping(mem, a, n, m1, m2) && a != n && mem[n].prev.ptr == a && mem[a].next == n
    requires mem[a].prev.ptr != a && mem[a].prev.ptr != n && mem[n].next != n && mem[n].next != a
    ensures DropCells(mem, m2, a, n)
  {
  }

  /** What stands around a page in the area queue. */
  lemma DropNeighbours(mem: Memory, v: View, a: Addr, n: Addr)
    requires Tiled(mem, v) && CanDrop(mem, v, a, n)
    ensures AreaAt(mem, v, a) && AreaAt(mem, v, n)
    ensures a < n && mem[n].prev.ptr == a && v.aq < |mem| && !mem[a].prev.end && v.own[n] == a && v.own[a] == a
            && a in v.pages
    ensures var h := mem[a].prev.ptr;
            h < |mem| && h != a && h != n && (h == v.aq || (h in v.areas && mem[h].prev.end))
    ensures var g := mem[n].next;
            g < |mem| && g != a && g != n && (g == v.aq || (g in v.areas && mem[g].prev.top))
  {
    hide Ring, PagesOk;
    ControlOutside(mem, v);
    assert AreaAt(mem, v, a);
    assert AreaAt(mem, v, n);
    RingNeighbours(mem, v, a);
    RingNeighbours(mem, v, n);
    var h, g := mem[a].prev.ptr, mem[n].next;
    if h in v.areas {
      assert AreaAt(mem, v, h);
    }
    if g in v.areas {
      TopFollows(mem, v, g);
    }
    NoShortRing(mem, v, a, n);
  }

  lemma DropRing(mem: Memory, v: View, a: Addr, j: nat, k: nat, m1: Memory, m2: Memory)
    requires Ring(mem, [v.aq] + v.areas) && j < |v.areas| && k < |v.areas| - 1 && Cut(v.areas, j)[k] == a
    requires Dropping(mem, a, v.areas[j], m1, m2)
    ensures Ring(m2, [v.aq] + Cut(Cut(v.areas, j), k))
    ensures forall c :: c in Cut(Cut(v.areas, j), k) <==> c in v.areas && c != v.areas[j] && c != a
  {
    hide Ring, AreaRemoved, Cut;
    CutLength(v.areas, j);
    MergeRing(mem, v, j);
    MergeRing(m1, v.(areas := Cut(v.areas, j)), k);
  }

  lemma CutLength(s: seq<Addr>, j: nat)
    requires j < |s|
    ensures |Cut(s, j)| == |s| - 1
    ensures forall k :: 0 <= k < |s| - 1 ==> Cut(s, j)[k] == s[if k < j then k else k + 1]
  {
  }

  /** An area in the page of a is a itself or its END header. */
  lemma AlonePage(mem: Memory, v: View, a: Addr, n: Addr, b: Addr)
    requires Tiled(mem, v) && CanDrop(mem, v, a, n) && b in v.areas && b != a && b != n
    ensures AreaAt(mem, v, b) && v.own[b] != a
  {
    hide Ring, PagesOk, NextOk, PrevOk;
    DropNeighbours(mem, v, a, n);
    AboveStart(mem, v, b);
    BelowEnd(mem, v, b);
    if v.own[b] == a {
      AreasApart(mem, v, a, b);
      AreasApart(mem, v, n, b);
    }
  }

  lemma DropArea(mem: Memory, mem': Memory, v: View, v': View, a: Addr, n: Addr, b: Addr)
    requires CanDrop(mem, v, a, n) && DropCells(mem, mem', a, n)
    requires mem[n].prev.ptr == a && mem[a].prev.ptr < |mem| && mem[n].next < |mem| && v.aq !in v.areas
    requires mem[a].prev.ptr != v.aq ==> mem[mem[a].prev.ptr].prev.end
    requires mem[n].next != v.aq ==> mem[mem[n].next].prev.top
    requires v' == v.(areas := v'.areas, pages := v.pages - {a})
    requires forall c :: c in v'.areas <==> c in v.areas && c != n && c != a
    requires b in v'.areas && AreaAt(mem, v, b) && v.own[b] != a
    ensures AreaAt(mem', v', b)
  {
  }

  lemma DropPages(mem: Memory, mem': Memory, v: View, v': View, a: Addr, n: Addr)
    requires PagesOk(mem, v) && |mem'| == |mem| && v'.pages == v.pages - {a} && v'.aq == v.aq && n !in v.pages
    requires forall c :: c in v.areas && c != n && c != a ==> c in v'.areas
    ensures PagesOk(mem', v')
  {
  }

  lemma DropQueue(mem: Memory, mem': Memory, v: View, X: set<Addr>, a: Addr, n: Addr)
    requires HeapOk(mem, v, X) && CanDrop(mem, v, a, n) && DropCells(mem, mem', a, n) && a in X
    ensures FreeQueueOk(mem', v.aq + 1, v.groups)
  {
    hide FreeQueueOk, Ring, AreaAt, PagesOk, Members, Settled;
    TiledInMemory(mem, v);
    DropNeighbours(mem, v, a, n);
    ControlOutside(mem, v);
    var h, g := mem[a].prev.ptr, mem[n].next;
    forall m | m in Members(v.groups) && m + 2 < |mem|
      ensures mem'[m].next == mem[m].next && mem'[m + 1] == mem[m + 1] && mem'[m + 2] == mem[m + 2]
    {
      assert m in v.areas && Free(mem, m);
      MemberCells(mem, v, m, a);
      ControlOf(mem, v, m);
      if h in v.areas {
        MemberCells(mem, v, m, h);
      }
      if g in v.areas {
        MemberCells(mem, v, m, g);
      }
    }
    ControlOf(mem, v, a);
    if h in v.areas {
      ControlOf(mem, v, h);
    }
    if g in v.areas {
      ControlOf(mem, v, g);
    }
    QueueCellsFrame(mem, mem', v.aq + 1, v.groups);
  }

  lemma ControlOf(mem: Memory, v: View, m: Addr)
    requires Tiled(mem, v) && m in v.areas
    ensures m < |mem| && m != v.aq && m != v.aq + 1
    ensures !mem[m].prev.end ==> m + 1 != v.aq && m + 2 != v.aq
  {
    hide Ring, PagesOk;
    ControlApart(mem, v, m);
    BelowEnd(mem, v, m);
    assert AreaAt(mem, v, m);
  }

  lemma DropSettled(mem: Memory, mem': Memory, v: View, X: set<Addr>, a: Addr, n: Addr, b: Addr)
    requires AreaAt(mem, v, b) && DropCells(mem, mem', a, n) && CanDrop(mem, v, a, n) && mem[n].prev.ptr == a
    requires b in v.areas && b != a && b != n && v.aq !in v.areas
    requires mem[a].prev.ptr < |mem| && (mem[a].prev.ptr != v.aq ==> mem[mem[a].prev.ptr].prev.end)
    requires mem[n].next < |mem| && (mem[n].next != v.aq ==> mem[mem[n].next].prev.top)
    requires Quiet(mem', b, X - {a})
    requires Quiet(mem, b, X) ==> Settled(mem, b, X, v.kept)
    ensures Settled(mem', b, X - {a}, v.kept)
  {
  }

  lemma DropFlags(mem: Memory, mem': Memory, v: View, a: Addr, n: Addr)
    requires DropCells(mem, mem', a, n)
    ensures |mem'| == |mem| && a < |mem| && n < |mem|
    ensures forall b :: 0 <= b < |mem| && b != a ==>
              mem'[b].prev.use == mem[b].prev.use && mem'[b].prev.end == mem[b].prev.end
              && mem'[b].prev.top == mem[b].prev.top
  {
  }

  /** _mem_free's page release. */
  lemma DropStep(mem: Memory, v: View, X: set<Addr>, a: Addr, j: nat, k: nat, m1: Memory, mem': Memory)
    requires HeapOk(mem, v, X) && j < |v.areas| && k < |v.areas| - 1 && Cut(v.areas, j)[k] == a
    requires CanDrop(mem, v, a, v.areas[j]) && a in X && Dropping(mem, a, v.areas[j], m1, mem')
    ensures HeapOk(mem', DropView(v, j, k), X - {a}) && a in v.pages
    ensures DropCells(mem, mem', a, v.areas[j]) && DropView(v, j, k).pages == v.pages - {a}
    ensures forall c :: c in DropView(v, j, k).areas <==> c in v.areas && c != v.areas[j] && c != a
  {
    hide FreeQueueOk, Ring, AreaAt, Members, Settled, PagesOk, Cut, Dropping, DropCells, CanDrop;
    var n := v.areas[j];
    DropLinks(mem, v, a, j, m1, mem');
    DropRing(mem, v, a, j, k, m1, mem');
    CutLength(v.areas, j);
    ControlOutside(mem, v);
    var v' := DropView(v, j, k);
    DropFlags(mem, mem', v, a, n);
    DropPages(mem, mem', v, v', a, n);
    DropQueue(mem, mem', v, X, a, n);
    TiledInMemory(mem, v);
    forall b | b in v'.areas
      ensures AreaAt(mem', v', b) && (Quiet(mem', b, X - {a}) ==> Settled(mem', b, X - {a}, v.kept))
    {
      AlonePage(mem, v, a, n, b);
      DropNeighbours(mem, v, a, n);
      DropArea(mem, mem', v, v', a, n, b);
      if Quiet(mem', b, X - {a}) {
        DropSettled(mem, mem', v, X, a, n, b);
      }
    }
  }

  lemma DropLinks(mem: Memory, v: View, a: Addr, j: nat, m1: Memory, mem': Memory)
    requires Tiled(mem, v) && j < |v.areas|
    requires CanDrop(mem, v, a, v.areas[j]) && Dropping(mem, a, v.areas[j], m1, mem')
    ensures DropCells(mem, mem', a, v.areas[j]) && a in v.pages && v.areas[j] !in v.pages
    ensures v.areas[j] < |mem| && !Free(mem, v.areas[j])
  {
    hide AreaRemoved, Ring, PagesOk, NextOk, PrevOk, DropCells, Dropping;
    DropNeighbours(mem, v, a, v.areas[j]);
    DropWrites(mem, a, v.areas[j], m1, mem');
  }

  lemma DropBlock(mem: Memory, mem': Memory, v: View, a: Addr, n: Addr, b: Addr)
    requires Tiled(mem, v) && CanDrop(mem, v, a, n) && DropCells(mem, mem', a, n)
    requires b in v.areas && b != a && b != n
    ensures SameBlock(mem, mem', b)
  {
    hide Ring, PagesOk;
    DropNeighbours(mem, v, a, n);
    ControlOutside(mem, v);
    DropFlags(mem, mem', v, a, n);
    var h, g := mem[a].prev.ptr, mem[n].next;
    assert AreaAt(mem, v, b);
    if Live(mem, b) {
      ControlApart(mem, v, b);
      HeaderOutside(mem, v, b, a);
      if h in v.areas && h != b {
        HeaderOutside(mem, v, b, h);
      }
      if g in v.areas && g != b {
        HeaderOutside(mem, v, b, g);
      }
      assert mem'[b + 1..mem[b].next] == mem[b + 1..mem[b].next];
    }
  }

  lemma DropBlocks(mem: Memory, mem': Memory, v: View, v': View, a: Addr, n: Addr)
    requires Tiled(mem, v) && CanDrop(mem, v, a, n) && DropCells(mem, mem', a, n)
    requires !mem[a].prev.use && !mem[n].prev.use
    requires forall c :: c in v'.areas <==> c in v.areas && c != n && c != a
    ensures Blocks(mem', v'.areas) == Blocks(mem, v.areas)
  {
    hide Tiled, Blocks, SameBlock, DropCells;
    forall b | b in v.areas && b != a && b != n ensures SameBlock(mem, mem', b) {
      DropBlock(mem, mem', v, a, n, b);
    }
    BlocksSame(mem, mem', v.areas, v'.areas);
  }
}
