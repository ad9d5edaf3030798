/** What the heap invariant means for the callers of the allocator. */
module MemAllocTheorem {
  import opened Rings
  import opened FreeQueue
  import opened HeapLayout
  import opened HeapSteps
  import opened HeapPages
  import opened HeapSearch
  import opened HeapCheck
  import opened MemAlloc

  /** Blocks do not overlap, not even with each other's headers, and each lies inside one page held. */
  lemma BlocksDisjoint(mem: Memory, v: View, a: Addr, b: Addr)
    requires HeapOk(mem, v, {}) && a in Blocks(mem, v.areas) && b in Blocks(mem, v.areas)
    ensures v.minfrag <= |Blocks(mem, v.areas)[a]|
    ensures a != b ==> a + 1 + |Blocks(mem, v.areas)[a]| <= b || b + 1 + |Blocks(mem, v.areas)[b]| <= a
    ensures exists p :: p in v.pages && p <= a && a + 1 + |Blocks(mem, v.areas)[a]| < p + v.pages[p]
  {
    hide FreeQueueOk, Settled, Ring, PagesOk;
    LiveArea(mem, v, a);
    LiveArea(mem, v, b);
    OldSize(mem, v, a);
    AboveStart(mem, v, a);
    BelowEnd(mem, v, a);
    assert AreaAt(mem, v, mem[a].next);
    BelowEnd(mem, v, mem[a].next);
    assert v.own[a] in v.pages;
    if a != b {
      AreasApart(mem, v, a, b);
    }
  }

  /** No two neighbouring areas are both free, and no free area fills its page. */
  lemma FreeAreasApart(mem: Memory, v: View, i: nat)
    requires HeapOk(mem, v, {}) && i < |v.areas| && v.areas[i] < |mem| && Free(mem, v.areas[i])
    ensures i + 1 < |v.areas| && v.areas[i + 1] < |mem| && !Free(mem, v.areas[i + 1])
    ensures v.areas[i] !in v.kept ==> !(mem[v.areas[i]].prev.top && mem[v.areas[i + 1]].prev.end)
    ensures i > 0 ==> v.areas[i - 1] < |mem| && !Free(mem, v.areas[i - 1])
  {
    hide FreeQueueOk, Ring, PagesOk;
    var a := v.areas[i];
    assert Quiet(mem, a, {}) && Settled(mem, a, {}, v.kept);
    NextIndex(mem, v, i);
    if i > 0 {
      var b := v.areas[i - 1];
      assert AreaAt(mem, v, b);
      if Free(mem, b) {
        NextIndex(mem, v, i - 1);
      }
      assert Quiet(mem, b, {}) ==> Settled(mem, b, {}, v.kept);
    }
  }

  /** The free queue holds exactly the free areas, each of them once. */
  lemma QueueIsFreeAreas(mem: Memory, v: View, a: Addr)
    requires HeapOk(mem, v, {})
    ensures (a in v.areas && a < |mem| && Free(mem, a)) <==>
              exists k, j :: 0 <= k < |v.groups| && 0 <= j < |v.groups[k]| && v.groups[k][j] == a
    ensures forall k, j, l, i :: 0 <= k < |v.groups| && 0 <= j < |v.groups[k]| && 0 <= l < |v.groups|
                                 && 0 <= i < |v.groups[l]| ==>
              v.groups[k][j] == v.groups[l][i] ==> k == l && j == i
  {
    hide Settled, Ring, PagesOk, Spaced;
    TiledInMemory(mem, v);
    if a in v.areas && Free(mem, a) {
      assert a in Members(v.groups) + {};
      var k, j := MemberPlace(v.groups, a);
    }
    if a in Members(v.groups) {
      assert a in Members(v.groups) + {};
    }
    forall k, j, l, i | 0 <= k < |v.groups| && 0 <= j < |v.groups[k]| && 0 <= l < |v.groups| && 0 <= i < |v.groups[l]|
              && v.groups[k][j] == v.groups[l][i] ensures k == l && j == i
    {
      if k != l {
        GroupsApart(mem, v.groups, k, l, j, i);
      }
      assert GroupOk(mem, v.groups[k]);
    }
  }

  /** Once every block has been given back, whatever the order, each page still held is one wholly free
      area, and a release with interrupts disabled has left it. */
  lemma OnlyKeptPages(mem: Memory, v: View, p: Addr)
    requires HeapOk(mem, v, {}) && Blocks(mem, v.areas) == map[] && p in v.pages
    ensures p in v.kept && p < |mem| && Free(mem, p)
    ensures mem[p].next < |mem| && mem[mem[p].next].prev.end && mem[p].next + 1 == p + v.pages[p]
  {
    hide FreeQueueOk, Ring, Settled, Blocks;
    assert p in v.areas;
    var i := AreaIndex(v.areas, p);
    assert AreaAt(mem, v, p);
    LiveContents(mem, v, p);
    FreeAreasApart(mem, v, i);
    NextArea(mem, v, i);
    var n := v.areas[i + 1];
    assert AreaAt(mem, v, n);
    if !mem[n].prev.end {
      LiveContents(mem, v, n);
    }
  }

  /** When no such release has been made, no page is held and both queues are empty. */
  lemma NothingLeft(mem: Memory, v: View)
    requires HeapOk(mem, v, {}) && v.kept == {} && Blocks(mem, v.areas) == map[]
    ensures v.areas == [] && v.pages == map[] && v.groups == []
    ensures mem[v.aq].next == v.aq && mem[v.aq + 1].next == v.aq + 1
  {
    hide FreeQueueOk, Ring, PagesOk, Settled, Blocks;
    if v.areas != [] {
      StartIsTop(mem, v, 0);
      OnlyKeptPages(mem, v, v.areas[0]);
    }
    NoPages(mem, v);
    NoGroups(mem, v);
  }

  lemma NoPages(mem: Memory, v: View)
    requires Tiled(mem, v) && v.areas == []
    ensures v.pages == map[] && mem[v.aq].next == v.aq
  {
    FirstArea(mem, v);
    forall p ensures p !in v.pages {
    }
  }

  lemma NoGroups(mem: Memory, v: View)
    requires HeapOk(mem, v, {}) && v.areas == []
    ensures v.groups == [] && mem[v.aq + 1].next == v.aq + 1
  {
    hide Tiled, Settled, Ring;
    forall a ensures a !in Members(v.groups) {
      assert a in Members(v.groups) ==> a in Members(v.groups) + {};
    }
    if v.groups != [] {
      SizeHeader(mem, v.aq + 1, v.groups, 0);
    }
    SizeLinks(mem, v.aq + 1, v.groups, -1);
  }
}
