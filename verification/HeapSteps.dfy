/**
 The steps the allocator is made of, each shown to keep the heap in order: taking an area out of the
 free queue or registering it, setting and clearing the use flag, splitting and merging areas,
 adding and releasing a page.
 */
module HeapSteps {
  import opened Common
  import opened Rings
  import opened FreeQueue
  import opened HeapLayout

  // ---------------------------------------------------------------- work on the free queue

  ghost predicate SameHeaders(mem: Memory, mem': Memory, v: View) {
    |mem'| == |mem| && forall a :: (a in v.areas || a == v.aq) && a < |mem| ==> mem'[a] == mem[a]
  }

  lemma RingHeaders(mem: Memory, mem': Memory, v: View)
    requires Ring(mem, [v.aq] + v.areas) && SameHeaders(mem, mem', v)
    ensures Ring(mem', [v.aq] + v.areas)
  {
    var s := [v.aq] + v.areas;
    forall i | 0 <= i < |s| ensures s[i] < |mem| && mem'[s[i]] == mem[s[i]] {
      assert s[i] in s;
    }
    RingFrame(mem, mem', s);
  }

  lemma TiledHeaders(mem: Memory, mem': Memory, v: View, F': Groups)
    requires Tiled(mem, v) && SameHeaders(mem, mem', v)
    ensures Tiled(mem', v.(groups := F'))
  {
    hide Ring;
    RingHeaders(mem, mem', v);
    var v' := v.(groups := F');
    forall a | a in v.areas ensures AreaAt(mem', v', a) {
      assert AreaAt(mem, v, a);
    }
  }

  /** A link cell of a free area lies inside that area and so outside every other. */
  lemma LinkInside(mem: Memory, v: View, S: set<Addr>, c: Addr, b: Addr)
    requires Tiled(mem, v) && b in v.areas && b !in S
    requires forall a :: a in S ==> a in v.areas && a < |mem| && !mem[a].prev.end
    requires c - 1 in S || c - 2 in S
    ensures b < |mem| && !(b <= c < Extent(mem, b))
  {
    hide Ring, Spaced;
    var a := if c - 1 in S then c - 1 else c - 2;
    FreeSpaced(mem, v, S);
    AreasApart(mem, v, a, b);
  }

  lemma LinkNotHeader(mem: Memory, v: View, S: set<Addr>, c: Addr)
    requires Tiled(mem, v)
    requires forall a :: a in S ==> a in v.areas && a < |mem| && !mem[a].prev.end
    requires c - 1 in S || c - 2 in S
    ensures c !in v.areas && c != v.aq
  {
    hide Ring, Spaced;
    var a := if c - 1 in S then c - 1 else c - 2;
    FreeSpaced(mem, v, S);
    ControlApart(mem, v, a);
    if c in v.areas {
      AreasApart(mem, v, a, c);
      BelowEnd(mem, v, c);
    }
  }

  lemma TouchedHeaders(mem: Memory, mem': Memory, v: View, S: set<Addr>)
    requires Tiled(mem, v) && Touched(mem, mem', v.aq + 1, S)
    requires forall a :: a in S ==> a in v.areas && a < |mem| && !mem[a].prev.end
    ensures SameHeaders(mem, mem', v)
  {
    hide Tiled, Extent, AreaAt, Ring, PagesOk;
    forall a | (a in v.areas || a == v.aq) && a < |mem| ensures mem'[a] == mem[a] {
      if a - 1 in S || a - 2 in S {
        LinkNotHeader(mem, v, S, a);
      }
      if a == v.aq + 1 {
        ControlApart(mem, v, a);
        BelowEnd(mem, v, a);
      }
    }
  }

  lemma TouchedInside(mem: Memory, mem': Memory, v: View, S: set<Addr>, b: Addr)
    requires Tiled(mem, v) && Touched(mem, mem', v.aq + 1, S)
    requires forall a :: a in S ==> a in v.areas && a < |mem| && !mem[a].prev.end
    requires b in v.areas && b !in S
    ensures b < |mem| && b < Extent(mem, b) <= |mem|
    ensures mem'[b..Extent(mem, b)] == mem[b..Extent(mem, b)]
  {
    hide Tiled;
    ControlApart(mem, v, b);
    BelowEnd(mem, v, b);
    forall c | b <= c < Extent(mem, b) ensures mem'[c] == mem[c] {
      if c - 1 in S || c - 2 in S {
        LinkInside(mem, v, S, c, b);
      }
    }
  }

  lemma TouchedBlocks(mem: Memory, mem': Memory, v: View, S: set<Addr>)
    requires Tiled(mem, v) && Touched(mem, mem', v.aq + 1, S)
    requires forall a :: a in S ==> a in v.areas && a < |mem| && Free(mem, a)
    ensures Blocks(mem', v.areas) == Blocks(mem, v.areas)
  {
    hide Ring, Touched, Blocks;
    TouchedHeaders(mem, mem', v, S);
    forall b | b in v.areas ensures SameBlock(mem, mem', b) {
      assert AreaAt(mem, v, b) && mem'[b] == mem[b];
      if Live(mem, b) {
        TouchedInside(mem, mem', v, S, b);
        var n := mem[b].next;
        assert mem'[b + 1..n] == mem'[b..n][1..] && mem[b + 1..n] == mem[b..n][1..];
      }
    }
    BlocksSame(mem, mem', v.areas, v.areas);
  }

  /** The free queue was reworked; the areas are as they were. */
  lemma QueueWork(mem: Memory, mem': Memory, v: View, X: set<Addr>, F': Groups, X': set<Addr>)
    requires HeapOk(mem, v, X) && Touched(mem, mem', v.aq + 1, Members(v.groups) + X)
    requires FreeQueueOk(mem', v.aq + 1, F') && Members(F') !! X'
    requires Members(F') + X' == Members(v.groups) + X
    requires forall a :: a in v.areas && Quiet(mem, a, X') ==> Settled(mem, a, X', v.kept)
    ensures HeapOk(mem', v.(groups := F'), X') && SameHeaders(mem, mem', v)
    ensures Blocks(mem', v.areas) == Blocks(mem, v.areas)
  {
    hide FreeQueueOk, Members, Ring, Touched, Blocks, PagesOk, AreaAt;
    var S := Members(v.groups) + X;
    TiledInMemory(mem, v);
    forall a | a in S ensures a in v.areas && a < |mem| && Free(mem, a) {
    }
    TouchedHeaders(mem, mem', v, S);
    TouchedBlocks(mem, mem', v, S);
    TiledHeaders(mem, mem', v, F');
    SettledHeaders(mem, mem', v, X');
  }

  lemma TiledInMemory(mem: Memory, v: View)
    requires Tiled(mem, v)
    ensures forall a :: a in v.areas ==> a < |mem|
    ensures forall a :: a in v.areas && !mem[a].prev.end ==> mem[a].next in v.areas && a < mem[a].next
  {
    forall a | a in v.areas ensures AreaAt(mem, v, a) {
    }
  }

  lemma SettledHeaders(mem: Memory, mem': Memory, v: View, X: set<Addr>)
    requires Tiled(mem, v) && SameHeaders(mem, mem', v)
    requires forall a :: a in v.areas && Quiet(mem, a, X) ==> Settled(mem, a, X, v.kept)
    ensures forall a :: a in v.areas && Quiet(mem', a, X) ==> Settled(mem', a, X, v.kept)
  {
    hide Ring, PagesOk;
    forall a | a in v.areas && Quiet(mem', a, X) ensures Settled(mem', a, X, v.kept) {
      assert AreaAt(mem, v, a) && mem'[a] == mem[a];
      assert mem'[mem[a].next] == mem[mem[a].next];
    }
  }

  // ---------------------------------------------------------------- the use flag

  function WithUse(mem: Memory, a: Addr, b: bool): Memory
    requires a < |mem|
  {
    SetPrev(mem, a, mem[a].prev.(use := b))
  }

  /** Only flags changed. */
  ghost predicate SameLinkCells(mem: Memory, mem': Memory) {
    |mem'| == |mem| && forall c :: 0 <= c < |mem| ==> mem'[c].next == mem[c].next && mem'[c].prev.ptr == mem[c].prev.ptr
  }

  lemma RingFlags(mem: Memory, mem': Memory, s: seq<Addr>)
    requires Ring(mem, s) && SameLinkCells(mem, mem')
    ensures Ring(mem', s)
  {
    forall i | 0 <= i < |s| ensures LinkAt(mem', s, i) {
      assert LinkAt(mem, s, i);
    }
  }

  ghost predicate SameMarks(mem: Memory, mem': Memory) {
    |mem'| == |mem| && forall c :: 0 <= c < |mem| ==>
      mem'[c].prev.top == mem[c].prev.top && mem'[c].prev.end == mem[c].prev.end
  }

  lemma AreaFlags(mem: Memory, mem': Memory, v: View, c: Addr)
    requires AreaAt(mem, v, c) && SameLinkCells(mem, mem') && SameMarks(mem, mem')
    requires c < |mem| == |mem'| && (mem[c].prev.end ==> mem'[c] == mem[c])
    ensures AreaAt(mem', v, c)
  {
  }

  lemma UseTiled(mem: Memory, v: View, a: Addr, b: bool)
    requires Tiled(mem, v) && a in v.areas && a < |mem| && !mem[a].prev.end
    ensures Tiled(WithUse(mem, a, b), v)
  {
    hide Ring, AreaAt, SameMarks, SameLinkCells;
    var mem' := WithUse(mem, a, b);
    UseCells(mem, a, b);
    RingFlags(mem, mem', [v.aq] + v.areas);
    forall c | c in v.areas ensures AreaAt(mem', v, c) {
      assert AreaAt(mem, v, c);
      InMemory(mem, v, c);
      AreaFlags(mem, mem', v, c);
    }
  }

  lemma InMemory(mem: Memory, v: View, c: Addr)
    requires AreaAt(mem, v, c)
    ensures c < |mem|
  {
  }

  lemma UseCells(mem: Memory, a: Addr, b: bool)
    requires a < |mem|
    ensures SameLinkCells(mem, WithUse(mem, a, b)) && SameMarks(mem, WithUse(mem, a, b))
  {
  }

  /** The free queue reads only the links of its areas and the queue head. */
  ghost predicate SameQueueCells(mem: Memory, mem': Memory, fq: Addr, S: set<Addr>) {
    && |mem'| == |mem| && (fq < |mem| ==> mem'[fq] == mem[fq])
    && forall a :: a in S && a + 2 < |mem| ==>
         mem'[a].next == mem[a].next && mem'[a + 1] == mem[a + 1] && mem'[a + 2] == mem[a + 2]
  }

  lemma QueueCellsFrame(mem: Memory, mem': Memory, fq: Addr, F: Groups)
    requires FreeQueueOk(mem, fq, F) && SameQueueCells(mem, mem', fq, Members(F))
    ensures FreeQueueOk(mem', fq, F)
  {
    hide Spaced, Members;
    forall k | 0 <= k < |F| ensures GroupOk(mem', F[k]) {
      GroupCellsFrame(mem, mem', fq, F, k);
    }
    forall k | 0 <= k < |F| ensures Rep(F[k]) + 2 < |mem| && Rep(F[k]) in Members(F) {
      assert GroupOk(mem, F[k]);
      MemberOf(F, k, 0);
    }
    assert SameOn(mem, mem', SizeRing(fq, F));
    RingFrame(mem, mem', SizeRing(fq, F));
  }

  lemma GroupCellsFrame(mem: Memory, mem': Memory, fq: Addr, F: Groups, k: nat)
    requires GroupsOk(mem, fq, F) && SameQueueCells(mem, mem', fq, Members(F)) && k < |F|
    ensures GroupOk(mem', F[k])
  {
    hide Spaced, Members, Ring;
    var g := F[k];
    assert GroupOk(mem, g);
    forall j | 0 <= j < |g| ensures g[j] in Members(F) && g[j] + 2 < |mem| {
      MemberOf(F, k, j);
    }
    assert SameOn(mem, mem', SameRing(g));
    RingFrame(mem, mem', SameRing(g));
    forall j | 1 <= j < |g| ensures Ring(mem', [g[j] + 2]) {
      RingFrame(mem, mem', [g[j] + 2]);
    }
  }

  /** The link cells of a free area are not the header of another area. */
  lemma MemberCells(mem: Memory, v: View, m: Addr, c: Addr)
    requires Tiled(mem, v) && m in v.areas && m < |mem| && !mem[m].prev.end
    requires c in v.areas
    ensures c != m + 1 && c != m + 2 && c != v.aq && c != v.aq + 1
  {
    hide Ring;
    LinkNotHeader(mem, v, {m}, m + 1);
    LinkNotHeader(mem, v, {m}, m + 2);
    ControlApart(mem, v, c);
    BelowEnd(mem, v, c);
  }

  lemma UseQueue(mem: Memory, v: View, a: Addr, b: bool)
    requires Tiled(mem, v) && FreeQueueOk(mem, v.aq + 1, v.groups)
    requires forall m :: m in Members(v.groups) ==> m in v.areas && m < |mem| && !mem[m].prev.end
    requires a in v.areas && a < |mem|
    ensures FreeQueueOk(WithUse(mem, a, b), v.aq + 1, v.groups)
  {
    hide FreeQueueOk, Tiled, Members;
    var mem' := WithUse(mem, a, b);
    forall m | m in Members(v.groups) ensures a != m + 1 && a != m + 2 {
      MemberCells(mem, v, m, a);
    }
    ControlApart(mem, v, a);
    BelowEnd(mem, v, a);
    QueueCellsFrame(mem, mem', v.aq + 1, v.groups);
  }

  /** setAreaFlag and clrAreaFlag of AREA_USE. */
  lemma UseStep(mem: Memory, v: View, X: set<Addr>, a: Addr, b: bool)
    requires HeapOk(mem, v, X) && a in v.areas && a < |mem| && !mem[a].prev.end
    requires a in X || mem[a].prev.use
    ensures HeapOk(WithUse(mem, a, b), v, if b then X - {a} else X + {a})
  {
    hide FreeQueueOk, Members, Ring, PagesOk, AreaAt;
    var mem' := WithUse(mem, a, b);
    var X' := if b then X - {a} else X + {a};
    TiledInMemory(mem, v);
    UseTiled(mem, v, a, b);
    UseQueue(mem, v, a, b);
    forall c | c in v.areas && Quiet(mem', c, X') ensures Settled(mem', c, X', v.kept) {
      assert Settled(mem, c, X, v.kept);
    }
  }

  lemma UseBlocks(mem: Memory, v: View, a: Addr, b: bool)
    requires Tiled(mem, v) && a in v.areas && a < |mem| && !mem[a].prev.end
    ensures a + 1 <= mem[a].next <= |mem|
    ensures Blocks(WithUse(mem, a, b), v.areas) ==
            if b then Blocks(mem, v.areas)[a := mem[a + 1..mem[a].next]] else Blocks(mem, v.areas) - {a}
  {
    hide Tiled, Blocks;
    var mem' := WithUse(mem, a, b);
    ControlApart(mem, v, a);
    BelowEnd(mem, v, a);
    forall c | c in v.areas && c != a ensures SameBlock(mem, mem', c) {
      if Live(mem, c) {
        HeaderOutside(mem, v, c, a);
      }
    }
    if b {
      assert mem'[a + 1..mem[a].next] == mem[a + 1..mem[a].next];
      BlocksPlus(mem, mem', v.areas, v.areas, a);
    } else {
      BlocksMinus(mem, mem', v.areas, a);
    }
  }

  /** The header of one area lies outside a live block of another. */
  lemma HeaderOutside(mem: Memory, v: View, c: Addr, a: Addr)
    requires Tiled(mem, v) && a in v.areas && c in v.areas && a != c && Live(mem, c)
    ensures !mem[c].prev.end && !(c <= a < mem[c].next)
  {
    hide Ring;
    assert AreaAt(mem, v, c);
    AreasApart(mem, v, c, a);
    BelowEnd(mem, v, a);
  }
}
