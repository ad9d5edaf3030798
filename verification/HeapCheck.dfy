/** What the heap checker looks at, why it accepts every heap in order, and the cells it counts. */
module HeapCheck {
  import opened Rings
  import opened FreeQueue
  import opened HeapLayout
  import opened HeapSteps
  import opened HeapPages

  predicate AllIn(mem: Memory, R: seq<Addr>) {
    forall i :: 0 <= i < |R| ==> R[i] < |mem|
  }

  /** At area i the area queue starts on a new page. */
  ghost predicate StartsPage(mem: Memory, R: seq<Addr>, i: nat)
    requires i <= |R| && AllIn(mem, R)
  {
    i == 0 || mem[R[i - 1]].prev.end
  }

  /** The tests that the checker makes on area i. */
  ghost predicate CheckAt(mem: Memory, R: seq<Addr>, i: nat)
    requires i < |R| && AllIn(mem, R)
  {
    var a := R[i];
    && (StartsPage(mem, R, i) ==> mem[a].prev.top && !mem[a].prev.end)
    && (!mem[a].prev.end ==> mem[a].next >= a + 3)
  }

  ghost predicate Checked(mem: Memory, R: seq<Addr>)
    requires AllIn(mem, R)
  {
    (forall i :: 0 <= i < |R| ==> CheckAt(mem, R, i)) && StartsPage(mem, R, |R|)
  }

  /** Cells of the blocks in use, headers included. */
  function UsedCells(mem: Memory, R: seq<Addr>): int
    requires AllIn(mem, R)
  {
    if R == [] then 0
    else
      var a := R[|R| - 1];
      UsedCells(mem, R[..|R| - 1]) + if mem[a].prev.use && !mem[a].prev.end then mem[a].next - a else 0
  }

  /** Cells of free areas, headers included, and END headers. */
  function FreeCells(mem: Memory, R: seq<Addr>): int
    requires AllIn(mem, R)
  {
    if R == [] then 0
    else
      var a := R[|R| - 1];
      FreeCells(mem, R[..|R| - 1]) + if mem[a].prev.end then 1 else if mem[a].prev.use then 0 else mem[a].next - a
  }

  /** What the checker accepts: a page starts with a TOP header and ends with an END header, no area is too short. */
  lemma Accepts(mem: Memory, R: seq<Addr>, i: nat)
    requires AllIn(mem, R) && Checked(mem, R) && i < |R|
    ensures i == 0 || mem[R[i - 1]].prev.end ==> mem[R[i]].prev.top && !mem[R[i]].prev.end
    ensures !mem[R[i]].prev.end ==> mem[R[i]].next >= R[i] + 3
    ensures i == |R| - 1 ==> mem[R[i]].prev.end
  {
    assert CheckAt(mem, R, i);
  }

  /** What it refuses: one of these tests fails somewhere. */
  lemma Refuses(mem: Memory, R: seq<Addr>) returns (i: nat)
    requires AllIn(mem, R) && !Checked(mem, R)
    ensures i < |R|
    ensures || ((i == 0 || mem[R[i - 1]].prev.end) && (!mem[R[i]].prev.top || mem[R[i]].prev.end))
            || (!mem[R[i]].prev.end && mem[R[i]].next < R[i] + 3)
            || (i == |R| - 1 && !mem[R[i]].prev.end)
  {
    if !StartsPage(mem, R, |R|) {
      i := |R| - 1;
    } else {
      i :| 0 <= i < |R| && !CheckAt(mem, R, i);
    }
  }

  /** No cell is counted twice: an area in use adds to the one count, a free one and an END header to the other. */
  lemma {:induction false} CountedOnce(mem: Memory, R: seq<Addr>)
    requires AllIn(mem, R)
    ensures (forall i :: 0 <= i < |R| ==> !mem[R[i]].prev.use || mem[R[i]].prev.end) ==> UsedCells(mem, R) == 0
    ensures (forall i :: 0 <= i < |R| ==> mem[R[i]].prev.use && !mem[R[i]].prev.end) ==> FreeCells(mem, R) == 0
  {
    if R != [] {
      CountedOnce(mem, R[..|R| - 1]);
    }
  }

  /** Cells of the pages whose TOP header is among R. */
  ghost function PageCells(pages: map<Addr, nat>, R: seq<Addr>): int {
    if R == [] then 0
    else
      var a := R[|R| - 1];
      PageCells(pages, R[..|R| - 1]) + if a in pages then pages[a] else 0
  }

  lemma RingAt(mem: Memory, aq: Addr, R: seq<Addr>, i: nat)
    requires Ring(mem, [aq] + R) && i <= |R|
    ensures AllIn(mem, R)
    ensures aq < |mem| && (i < |R| ==> R[i] != aq)
    ensures mem[aq].next == if R == [] then aq else R[0]
    ensures i < |R| ==>
              mem[R[i]].next == (if i + 1 < |R| then R[i + 1] else aq) && mem[R[i]].next < |mem|
              && mem[mem[R[i]].next].prev.ptr == R[i]
  {
    var s := [aq] + R;
    forall j | 0 <= j < |R| ensures R[j] < |mem| {
      assert s[j + 1] == R[j];
    }
    assert LinkAt(mem, s, 0);
    if i < |R| {
      assert s[i + 1] == R[i] && LinkAt(mem, s, i + 1);
      var n := Nx(i + 1, |s|);
      assert LinkAt(mem, s, n) && Pv(n, |s|) == i + 1;
    }
  }

  lemma AreasIn(mem: Memory, v: View)
    requires Tiled(mem, v)
    ensures AllIn(mem, v.areas)
  {
    forall i | 0 <= i < |v.areas| ensures v.areas[i] < |mem| {
      assert AreaAt(mem, v, v.areas[i]);
    }
  }

  lemma NextArea(mem: Memory, v: View, i: nat)
    requires Tiled(mem, v) && i < |v.areas|
    ensures AreaAt(mem, v, v.areas[i])
    ensures !mem[v.areas[i]].prev.end ==> i + 1 < |v.areas| && v.areas[i + 1] == mem[v.areas[i]].next
    ensures i + 1 < |v.areas| ==> v.areas[i + 1] < |mem| && mem[v.areas[i + 1]].prev.ptr == v.areas[i]
  {
    hide Ring, PagesOk, PrevOk;
    ControlOutside(mem, v);
    RingAt(mem, v.aq, v.areas, i);
    assert AreaAt(mem, v, v.areas[i]);
  }

  lemma StartIsTop(mem: Memory, v: View, i: nat)
    requires Tiled(mem, v) && i < |v.areas| && (i > 0 ==> v.areas[i - 1] < |mem| && mem[v.areas[i - 1]].prev.end)
    ensures AreaAt(mem, v, v.areas[i]) && mem[v.areas[i]].prev.top && !mem[v.areas[i]].prev.end
  {
    hide Ring, PagesOk, PrevOk, NextOk;
    var a := v.areas[i];
    assert AreaAt(mem, v, a);
    if i == 0 {
      FirstArea(mem, v);
    } else {
      NextArea(mem, v, i - 1);
    }
    TopFollows(mem, v, a);
  }

  lemma MidPage(mem: Memory, v: View, i: nat)
    requires Tiled(mem, v) && 0 < i < |v.areas| && v.areas[i - 1] < |mem| && !mem[v.areas[i - 1]].prev.end
    ensures AreaAt(mem, v, v.areas[i]) && AreaAt(mem, v, v.areas[i - 1])
    ensures !mem[v.areas[i]].prev.top && v.own[v.areas[i]] == v.own[v.areas[i - 1]]
            && v.areas[i] == mem[v.areas[i - 1]].next
  {
    hide Ring, PagesOk, PrevOk;
    assert AreaAt(mem, v, v.areas[i]);
    NextArea(mem, v, i - 1);
  }

  /** The checker finds nothing wrong with a heap in order. */
  lemma TiledIsChecked(mem: Memory, v: View)
    requires Tiled(mem, v)
    ensures AllIn(mem, v.areas)
    ensures Checked(mem, v.areas)
  {
    AreasIn(mem, v);
    var R := v.areas;
    forall i | 0 <= i < |R| ensures CheckAt(mem, R, i) {
      NextArea(mem, v, i);
      if StartsPage(mem, R, i) {
        StartIsTop(mem, v, i);
      }
    }
    if R != [] {
      NextArea(mem, v, |R| - 1);
    }
  }

  ghost function Remaining(mem: Memory, v: View, i: nat): int
    requires i <= |v.areas| && AllIn(mem, v.areas)
  {
    if i < |v.areas| && !StartsPage(mem, v.areas, i) && v.areas[i] in v.own && v.own[v.areas[i]] in v.pages
    then
      var limit: int := v.own[v.areas[i]] + v.pages[v.own[v.areas[i]]];
      limit - v.areas[i]
    else 0
  }

  lemma {:induction false} CellsUpTo(mem: Memory, v: View, i: nat)
    requires Tiled(mem, v) && i <= |v.areas|
    requires AllIn(mem, v.areas)
    ensures UsedCells(mem, v.areas[..i]) + FreeCells(mem, v.areas[..i]) + Remaining(mem, v, i)
            == PageCells(v.pages, v.areas[..i])
    decreases i
  {
    hide Ring, PagesOk, PrevOk, Tiled;
    if i > 0 {
      var a := v.areas[i - 1];
      CellsUpTo(mem, v, i - 1);
      assert v.areas[..i][..i - 1] == v.areas[..i - 1] && v.areas[..i][i - 1] == a;
      NextArea(mem, v, i - 1);
      if StartsPage(mem, v.areas, i - 1) {
        StartIsTop(mem, v, i - 1);
      } else {
        MidPage(mem, v, i - 1);
      }
    }
  }

  /** The cells of blocks, free areas and headers together are exactly those of the pages held. */
  lemma CellsConserved(mem: Memory, v: View)
    requires Tiled(mem, v)
    ensures AllIn(mem, v.areas)
    ensures UsedCells(mem, v.areas) + FreeCells(mem, v.areas) == PageCells(v.pages, v.areas)
    ensures forall p :: p in v.pages ==> p in v.areas
  {
    AreasIn(mem, v);
    CellsUpTo(mem, v, |v.areas|);
    assert v.areas[..|v.areas|] == v.areas;
  }
}
