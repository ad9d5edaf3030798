/**
 The layout of the heap: pages cut into areas between a TOP and an END header, the area queue through
 all headers, and the free queue over the areas not in use.
 */
module HeapLayout {
  import opened Rings
  import opened FreeQueue

  // aq is the cell of the area queue head and aq + 1 that of the free queue head. The page of an area
  // is named by its first cell; pages gives the number of cells of each page held; kept has the
  // pages that a release with interrupts disabled, or into a fixed pool, has left wholly free.
  datatype View = View(aq: Addr, minfrag: nat, kept: set<Addr>, areas: seq<Addr>, groups: Groups,
                       own: map<Addr, Addr>, pages: map<Addr, nat>)

  ghost predicate NextOk(mem: Memory, v: View, a: Addr)
    requires a < |mem|
  {
    var n := mem[a].next;
    && n in v.areas && n < |mem| && a + 1 + v.minfrag <= n
    && mem[n].prev.ptr == a && !mem[n].prev.top
    && a in v.own && n in v.own && v.own[n] == v.own[a]
  }

  ghost predicate PrevOk(mem: Memory, v: View, a: Addr)
    requires a < |mem|
  {
    var p := mem[a].prev.ptr;
    p in v.areas && p < |mem| && !mem[p].prev.end && mem[p].next == a
  }

  ghost predicate AreaAt(mem: Memory, v: View, a: Addr) {
    && a < |mem| && a in v.own && v.own[a] in v.pages
    && (mem[a].prev.top <==> a in v.pages)
    && (a in v.pages ==> v.own[a] == a && !mem[a].prev.end)
    && (mem[a].prev.end ==> !mem[a].prev.use && a + 1 == v.own[a] + v.pages[v.own[a]])
    && (!mem[a].prev.end ==> NextOk(mem, v, a))
    && (!mem[a].prev.top ==> PrevOk(mem, v, a))
  }

  ghost predicate PagesOk(mem: Memory, v: View) {
    && (forall p :: p in v.pages ==>
         p in v.areas && p + v.pages[p] <= |mem| && (p + v.pages[p] <= v.aq || v.aq + 2 <= p))
    && (forall p, q :: p in v.pages && q in v.pages && p != q ==> p + v.pages[p] <= q || q + v.pages[q] <= p)
  }

  /** The areas tile every page from its TOP header to its END header. */
  ghost predicate Tiled(mem: Memory, v: View) {
    && v.minfrag >= 2 && v.aq + 2 <= |mem|
    && Ring(mem, [v.aq] + v.areas)
    && (forall a {:trigger AreaAt(mem, v, a)} :: a in v.areas ==> AreaAt(mem, v, a))
    && PagesOk(mem, v)
  }

  predicate Free(mem: Memory, a: Addr)
    requires a < |mem|
  {
    !mem[a].prev.use && !mem[a].prev.end
  }

  ghost predicate Quiet(mem: Memory, a: Addr, X: set<Addr>) {
    a < |mem| && Free(mem, a) && a !in X
  }

  /** Free area a has no free neighbour behind it and, unless such pages are kept, does not fill its page. */
  ghost predicate Settled(mem: Memory, a: Addr, X: set<Addr>, kept: set<Addr>)
    requires a < |mem|
  {
    && !Quiet(mem, mem[a].next, X)
    && (a !in kept ==> !(mem[a].prev.top && mem[a].next < |mem| && mem[mem[a].next].prev.end))
  }

  /** Every free area is queued or in X, the areas being worked on; queued ones are never neighbours. */
  ghost predicate HeapOk(mem: Memory, v: View, X: set<Addr>) {
    && Tiled(mem, v)
    && FreeQueueOk(mem, v.aq + 1, v.groups)
    && Members(v.groups) !! X
    && (forall a :: a in Members(v.groups) + X ==> a in v.areas)
    && (forall a :: a in v.areas && a < |mem| ==> (Free(mem, a) <==> a in Members(v.groups) + X))
    && (forall a :: a in v.areas && Quiet(mem, a, X) ==> Settled(mem, a, X, v.kept))
  }

  // ---------------------------------------------------------------- extents

  function Extent(mem: Memory, a: Addr): Addr
    requires a < |mem|
  {
    if mem[a].prev.end then a + 1 else mem[a].next
  }

  lemma {:induction false} BelowEnd(mem: Memory, v: View, a: Addr)
    requires Tiled(mem, v) && a in v.areas
    ensures AreaAt(mem, v, a) && a < Extent(mem, a) <= v.own[a] + v.pages[v.own[a]]
    decreases |mem| - a
  {
    assert AreaAt(mem, v, a);
    if !mem[a].prev.end {
      BelowEnd(mem, v, mem[a].next);
    }
  }

  lemma {:induction false} AboveStart(mem: Memory, v: View, a: Addr)
    requires Tiled(mem, v) && a in v.areas
    ensures AreaAt(mem, v, a) && v.own[a] <= a
    decreases a
  {
    assert AreaAt(mem, v, a);
    if !mem[a].prev.top {
      assert AreaAt(mem, v, mem[a].prev.ptr);
      AboveStart(mem, v, mem[a].prev.ptr);
    }
  }

  lemma ControlApart(mem: Memory, v: View, a: Addr)
    requires Tiled(mem, v) && a in v.areas
    ensures a < |mem| && Extent(mem, a) <= |mem| && (Extent(mem, a) <= v.aq || v.aq + 2 <= a)
  {
    AboveStart(mem, v, a);
    BelowEnd(mem, v, a);
  }

  lemma PrevInPage(mem: Memory, v: View, a: Addr, b: Addr)
    requires Tiled(mem, v) && a in v.areas && b in v.areas && a < b
    requires AreaAt(mem, v, a) && AreaAt(mem, v, b) && v.own[a] == v.own[b]
    ensures var p := mem[b].prev.ptr;
            && p in v.areas && p < b && AreaAt(mem, v, p) && v.own[p] == v.own[b] && Extent(mem, p) == b
  {
    hide Ring, PagesOk;
    AboveStart(mem, v, a);
    assert b !in v.pages;
    assert AreaAt(mem, v, mem[b].prev.ptr);
  }

  lemma {:induction false} SamePage(mem: Memory, v: View, a: Addr, b: Addr)
    requires Tiled(mem, v) && a in v.areas && b in v.areas && a < b
    requires AreaAt(mem, v, a) && AreaAt(mem, v, b) && v.own[a] == v.own[b]
    ensures Extent(mem, a) <= b
    decreases b
  {
    hide Tiled, AreaAt;
    assert a < |mem| && b < |mem| by {
      BelowEnd(mem, v, a);
      BelowEnd(mem, v, b);
      ControlApart(mem, v, a);
      ControlApart(mem, v, b);
    }
    PrevInPage(mem, v, a, b);
    var p := mem[b].prev.ptr;
    if a < p {
      SamePage(mem, v, a, p);
    } else if p < a {
      SamePage(mem, v, p, a);
    }
  }

  /** No two areas overlap, and none overlaps the control block. */
  lemma AreasApart(mem: Memory, v: View, a: Addr, b: Addr)
    requires Tiled(mem, v) && a in v.areas && b in v.areas && a != b
    ensures a < |mem| && b < |mem|
    ensures Extent(mem, a) <= b || Extent(mem, b) <= a
  {
    AboveStart(mem, v, a);
    AboveStart(mem, v, b);
    BelowEnd(mem, v, a);
    BelowEnd(mem, v, b);
    if v.own[a] == v.own[b] {
      if a < b {
        SamePage(mem, v, a, b);
      } else {
        SamePage(mem, v, b, a);
      }
    }
  }

  lemma FreeSpaced(mem: Memory, v: View, S: set<Addr>)
    requires Tiled(mem, v)
    requires forall a :: a in S ==> a in v.areas && a < |mem| && !mem[a].prev.end
    ensures Spaced(v.aq + 1, S)
    ensures forall a :: a in S ==> a + 3 <= Extent(mem, a) <= |mem|
  {
    forall a | a in S ensures a + 3 <= Extent(mem, a) <= |mem| && (a + 3 <= v.aq + 1 || v.aq + 1 < a) {
      assert AreaAt(mem, v, a);
      ControlApart(mem, v, a);
    }
    forall a, b | a in S && b in S && a != b ensures Spread(a, b) {
      AreasApart(mem, v, a, b);
    }
  }

  // ---------------------------------------------------------------- contents

  ghost predicate Live(mem: Memory, a: Addr) {
    a < |mem| && mem[a].prev.use && a + 1 <= mem[a].next <= |mem|
  }

  /** The blocks handed out, named by their header cells, with their contents. */
  ghost function Blocks(mem: Memory, areas: seq<Addr>): map<Addr, seq<Cell>> {
    map a | a in areas && Live(mem, a) :: mem[a + 1..mem[a].next]
  }

  /** No cell strictly inside area a has changed, and the area is as long as it was. */
  ghost predicate SameBlock(mem: Memory, mem': Memory, a: Addr) {
    && (Live(mem, a) <==> Live(mem', a))
    && (Live(mem, a) ==> mem'[a].next == mem[a].next && mem'[a + 1..mem[a].next] == mem[a + 1..mem[a].next])
  }

  lemma BlocksSame(mem: Memory, mem': Memory, R: seq<Addr>, R': seq<Addr>)
    requires forall a :: a in R && a in R' ==> SameBlock(mem, mem', a)
    requires forall a :: a in R && a !in R' ==> !Live(mem, a)
    requires forall a :: a in R' && a !in R ==> !Live(mem', a)
    ensures Blocks(mem', R') == Blocks(mem, R)
  {
    forall a ensures a in Blocks(mem, R) <==> a in Blocks(mem', R')
             ensures a in Blocks(mem, R) ==> Blocks(mem', R')[a] == Blocks(mem, R)[a] {
      assert a in R && a in R' ==> SameBlock(mem, mem', a);
    }
  }

  /** Block a got new contents; every other block is as it was. */
  lemma BlocksPlus(mem: Memory, mem': Memory, R: seq<Addr>, R': seq<Addr>, a: Addr)
    requires forall b :: b in R && b in R' && b != a ==> SameBlock(mem, mem', b)
    requires forall b :: b in R && b !in R' && b != a ==> !Live(mem, b)
    requires forall b :: b in R' && b !in R && b != a ==> !Live(mem', b)
    requires a in R' && Live(mem', a)
    ensures Blocks(mem', R') == Blocks(mem, R)[a := mem'[a + 1..mem'[a].next]]
  {
    var B' := Blocks(mem, R)[a := mem'[a + 1..mem'[a].next]];
    forall b ensures b in B' <==> b in Blocks(mem', R')
             ensures b in B' ==> Blocks(mem', R')[b] == B'[b] {
      assert b in R && b in R' && b != a ==> SameBlock(mem, mem', b);
    }
  }

  lemma BlocksMinus(mem: Memory, mem': Memory, R: seq<Addr>, a: Addr)
    requires forall b :: b in R && b != a ==> SameBlock(mem, mem', b)
    requires !Live(mem', a)
    ensures Blocks(mem', R) == Blocks(mem, R) - {a}
  {
    var B' := Blocks(mem, R) - {a};
    forall b ensures b in B' <==> b in Blocks(mem', R)
             ensures b in B' ==> Blocks(mem', R)[b] == B'[b] {
      assert b in R && b != a ==> SameBlock(mem, mem', b);
    }
  }
}
