/**
 The memory allocation library: malloc, realloc and free over pages obtained from outside, and the
 checker of the area queue. Sizes of areas and pages are counted in cells of eight bytes; the sizes
 that callers pass are bytes.
 */
module MemAlloc {
  import opened Common
  import opened Rings
  import opened FreeQueue
  import opened HeapLayout
  import opened HeapSteps
  import opened HeapSplit
  import opened HeapPages
  import opened HeapSearch
  import opened HeapCheck

  const NULL: Addr := 0

  class Heap {
    const aq: Addr // the area queue head; the free queue head is the next cell
    const pagesz: nat
    const minBytes: nat
    var mem: Memory
    var testmode: int
    ghost var view: View

    /** The control block of an empty heap: two empty queues, no page. */
    constructor (memory: Memory, control: Addr, page: nat, fragment: nat)
      requires control + 2 <= |memory| && fragment >= 16
      ensures Valid() && Contents() == map[] && view.pages == map[] && view.kept == {}
      ensures aq == control && pagesz == page && minBytes == fragment && testmode == 0
      ensures |mem| == |memory| && forall c :: 0 <= c < |memory| && c != aq && c != aq + 1 ==> mem[c] == memory[c]
    {
      aq, pagesz, minBytes, testmode := control, page, fragment, 0;
      view := View(control, (fragment + 7) / 8, {}, [], [], map[], map[]);
      mem := memory;
      new;
      QueInit(aq);
      QueInit(aq + 1);
      EmptyHeap(memory, mem, view);
    }

    ghost predicate Inv(X: set<Addr>)
      reads this
    {
      view.aq == aq && view.minfrag == (minBytes + 7) / 8 && view.kept <= view.pages.Keys && HeapOk(mem, view, X)
    }

    ghost predicate Valid()
      reads this
    {
      Inv({})
    }

    /** The blocks handed out, named by their header cells. */
    ghost function Contents(): map<Addr, seq<Cell>>
      reads this
    {
      Blocks(mem, view.areas)
    }

    // -------------------------------------------------------------- queue.h

    method QueInit(e: Addr)
      requires e < |mem|
      modifies `mem
      ensures mem == Initialized(old(mem), e)
    {
      mem := mem[e := mem[e].(next := e)];
      mem := mem[e := mem[e].(prev := Plain(e))];
    }

    method QueInsert(e: Addr, q: Addr)
      requires e < |mem| && q < |mem| && mem[q].prev.ptr < |mem| && e != q
      modifies `mem
      ensures mem == Inserted(old(mem), e, q)
    {
      var p := mem[q].prev;
      mem := mem[e := mem[e].(prev := p)];
      mem := mem[e := mem[e].(next := q)];
      mem := mem[p.ptr := mem[p.ptr].(next := e)];
      mem := mem[q := mem[q].(prev := Plain(e))];
    }

    method QueRemove(e: Addr)
      requires e < |mem| && mem[e].prev.ptr < |mem| && mem[e].next < |mem|
      modifies `mem
      ensures mem == Removed(old(mem), e)
    {
      if mem[e].next != e {
        var p, n := mem[e].prev, mem[e].next;
        mem := mem[p.ptr := mem[p.ptr].(next := n)];
        mem := mem[n := mem[n].(prev := p)];
      }
    }

    method InsertAreaQue(que: Addr, ent: Addr)
      requires que < |mem| && ent < |mem| && mem[que].next < |mem| && que != ent
      modifies `mem
      ensures mem == AreaInserted(old(mem), que, ent)
    {
      mem := mem[ent := mem[ent].(prev := Plain(que))];
      mem := mem[ent := mem[ent].(next := mem[que].next)];
      var n := mem[que].next;
      mem := mem[n := mem[n].(prev := mem[n].prev.(ptr := ent))];
      mem := mem[que := mem[que].(next := ent)];
    }

    method RemoveAreaQue(a: Addr)
      requires a < |mem| && mem[a].prev.ptr < |mem| && mem[a].next < |mem| && mem[a].prev.ptr != a
      modifies `mem
      ensures mem == AreaRemoved(old(mem), a)
    {
      var p := mem[a].prev.ptr;
      mem := mem[p := mem[p].(next := mem[a].next)];
      var n := mem[a].next;
      mem := mem[n := mem[n].(prev := mem[n].prev.(ptr := p))];
    }

    // -------------------------------------------------------------- searching

    method SearchFreeArea(size: nat) returns (q: Addr, ghost k: nat)
      requires FreeQueueOk(mem, aq + 1, view.groups) && size > 0
      ensures k <= |view.groups| && q == SizePlace(aq + 1, view.groups, k) && FitsAt(mem, view.groups, k, size)
      ensures exists j: nat :: j <= |view.groups| && q == SizePlace(aq + 1, view.groups, j)
                && FitsAt(mem, view.groups, j, size)
    {
      hide FreeQueueOk, Size;
      q := aq + 1;
      if 4 * size > pagesz {
        q, k := SearchDown(size);
      } else {
        q, k := SearchUp(size);
      }
    }

    /** From the largest area down. */
    method SearchDown(size: nat) returns (q: Addr, ghost k: nat)
      requires FreeQueueOk(mem, aq + 1, view.groups) && size > 0
      ensures k <= |view.groups| && q == SizePlace(aq + 1, view.groups, k) && FitsAt(mem, view.groups, k, size)
      ensures exists j: nat :: j <= |view.groups| && q == SizePlace(aq + 1, view.groups, j)
                && FitsAt(mem, view.groups, j, size)
    {
      hide FreeQueueOk, FitsAt, Rep, Members;
      ghost var F, fq := view.groups, aq + 1;
      k := |F|;
      var fsz: int := 0;
      SizeLinks(mem, fq, F, |F|);
      q := mem[aq + 1].prev.ptr;
      while q != aq + 1
        invariant k <= |F| && q == SizeCell(fq, F, k - 1)
        invariant k < |F| ==> Rep(F[k]) < |mem| && fsz == Size(mem, Rep(F[k])) > size
        invariant k == |F| ==> fsz == 0
        invariant SmallerTo(mem, F, 0, size)
        decreases k
      {
        SizeHeader(mem, fq, F, k - 1);
        SizeLinks(mem, fq, F, k - 1);
        fsz := mem[q - 1].next - q;
        if fsz <= size {
          SizesBelow(mem, fq, F, k - 1, size);
          if fsz < size {
            FitFromAbove(mem, F, k, size);
            return mem[q].next, k;
          } else {
            FitFromAbove(mem, F, k - 1, size);
            return q, k - 1;
          }
        }
        q := mem[q].prev.ptr;
        k := k - 1;
      }
      SizeLinks(mem, fq, F, -1);
      if k > 0 {
        SizeHeader(mem, fq, F, k - 1);
      }
      FitFromAbove(mem, F, 0, size);
      if fsz >= size {
        q := mem[q].next;
      }
    }

    /** From the smallest area up. */
    method SearchUp(size: nat) returns (q: Addr, ghost k: nat)
      requires FreeQueueOk(mem, aq + 1, view.groups) && size > 0
      ensures k <= |view.groups| && q == SizePlace(aq + 1, view.groups, k) && FitsAt(mem, view.groups, k, size)
      ensures exists j: nat :: j <= |view.groups| && q == SizePlace(aq + 1, view.groups, j)
                && FitsAt(mem, view.groups, j, size)
    {
      hide FreeQueueOk;
      ghost var F, fq := view.groups, aq + 1;
      k := 0;
      SizeLinks(mem, fq, F, -1);
      q := mem[aq + 1].next;
      while q != aq + 1
        invariant k <= |F| && q == SizeCell(fq, F, k)
        invariant SmallerTo(mem, F, k, size)
        decreases |F| - k
      {
        SizeHeader(mem, fq, F, k);
        SizeLinks(mem, fq, F, k);
        if mem[q - 1].next - q >= size {
          FitFromAbove(mem, F, k, size);
          return q, k;
        }
        SizesBelow(mem, fq, F, k, size);
        q := mem[q].next;
        k := k + 1;
      }
      if k < |F| {
        SizeHeader(mem, fq, F, k);
      }
      FitFromAbove(mem, F, k, size);
    }

    // -------------------------------------------------------------- the free queue

    /** The headers, the pages and the blocks are as they were. */
    twostate predicate SameAreas()
      reads this
    {
      && SameHeaders(old(mem), mem, old(view))
      && view == old(view).(groups := view.groups)
      && Contents() == old(Contents())
    }

    method AppendFreeArea(a: Addr, ghost X: set<Addr>)
      requires Inv(X) && a in X && a < |mem| && AllSettled(mem, view, X - {a})
      modifies `mem, `view
      ensures Inv(X - {a}) && SameAreas()
    {
      hide FreeQueueOk, Tiled, Settled, Members, AllSettled, Appended, SameHeaders, SizePlace, Blocks, FitsAt, Size;
      AppendReady(mem, view, X, a);
      SizeIs(mem, a);
      var size := mem[a].next - (a + 1);
      var q, k := SearchFreeArea(size);
      ghost var F' := AppendStep(mem, view, X, a, k, q);
      WithUseSame(mem, a);
      mem := mem[a := mem[a].(prev := mem[a].prev.(use := false))];
      AppendedIs(mem, a, if q != aq + 1 && SizeAt(mem, q, size) then q + 1 else q);
      if q != aq + 1 && SizeAt(mem, q, size) {
        QueInsert(a + 1, q + 1);
      } else {
        QueInsert(a + 1, q);
      }
      QueInit(a + 2);
      view := view.(groups := F');
    }

    /** Takes the free area with header a out of the free queue. */
    method RemoveFreeQue(fq: Addr, ghost X: set<Addr>)
      requires Inv(X) && fq > 0 && fq - 1 in Members(view.groups)
      modifies `mem, `view
      ensures Inv(X + {fq - 1}) && SameAreas()
    {
      hide FreeQueueOk, Tiled, Settled, Members, SameHeaders, Blocks, Promoting, Replacing, Touched, Removed, Inserted;
      ghost var F, a := view.groups, fq - 1;
      ghost var k, j := MemberPlace(F, a);
      ghost var F';
      RemoveKind(mem, aq + 1, F, k, j);
      if mem[fq + 1].next != fq + 1 {
        ghost var m1, m2, m3, m4, m5 := RemoveLeader(mem, aq + 1, F, k);
        F' := F[k := F[k][1..]];
        PromotingMeans(mem, a, F[k][1], m1, m2, m3);
        ReplacingMeans(m3, a, F[k][1], m4, m5);
        var nq := mem[fq + 1].next;
        QueRemove(fq + 1);
        QueInsert(nq + 1, nq);
        QueRemove(nq);
        QueInsert(nq, fq);
        assert mem == m4 && m5 == Removed(mem, fq);
      } else if j > 0 {
        RemoveSibling(mem, aq + 1, F, k, j);
        F' := F[k := Cut(F[k], j)];
      } else {
        RemoveAlone(mem, aq + 1, F, k);
        F' := Dropped(F, k);
      }
      assert fq < |mem| && mem[fq].prev.ptr < |mem| && mem[fq].next < |mem|;
      QueRemove(fq);
      TakeStep(old(mem), mem, view, X, a, F');
      view := view.(groups := F');
    }

    // -------------------------------------------------------------- areas

    /** Whether allocate leaves a rest: at least a minimal fragment and its header, in bytes. */
    predicate LeavesRest(areaSize: int, size: int) {
      8 * (areaSize - size) >= minBytes + 8
    }

    /** The part of allocate that splits area a at q and queues the rest. */
    method SplitOff(a: Addr, q: Addr, ghost X: set<Addr>, ghost i: nat)
      requires Inv(X) && i < |view.areas| && view.areas[i] == a < |mem| && !mem[a].prev.end
      requires X == if mem[a].prev.use then {} else {a}
      requires mem[a].next < |mem| && !Free(mem, mem[a].next)
      requires a + 1 + view.minfrag <= q && q + 1 + view.minfrag <= mem[a].next
      modifies `mem, `view
      ensures Inv(X) && |mem| == |old(mem)| && a in view.areas && q < |mem|
      ensures mem[a].next == q && mem[a].prev == old(mem[a].prev)
      ensures Allocated(old(mem), WithUse(mem, a, true), old(view), view, i, q, true)
      ensures if old(mem[a].prev.use)
              then a in Contents() && Contents() == old(Contents())[a := Contents()[a]]
                   && Contents()[a] == old(mem)[a + 1..q] == mem[a + 1..q]
              else Contents() == old(Contents())
    {
      hide HeapOk, AllSettled, SameHeaders, Blocks, AreaInserted, SplitCells, InsertAt;
      HeapTiled(mem, view, X);
      SplitStep(mem, view, X, i, q);
      ghost var m1 := AreaInserted(mem, a, q);
      SplitRest(mem, m1, view, X, i, q);
      SplitBlocks(mem, m1, view, i, q);
      InsertAreaQue(a, q);
      view := SplitView(view, i, q);
      AppendFreeArea(q, X + {q});
      AllocatedRest(old(mem), m1, mem, old(view), view, i, q);
      if mem[a].prev.use {
        SplitPrefix(old(mem), mem, old(view), view.areas, a, q);
      }
    }

    /** Area a, in use or being worked on, becomes a block; what it has to spare is queued. */
    method Allocate(a: Addr, size: nat, ghost X: set<Addr>, ghost i: nat) returns (r: Addr)
      requires Inv(X) && i < |view.areas| && view.areas[i] == a < |mem| && !mem[a].prev.end
      requires X == if mem[a].prev.use then {} else {a}
      requires view.minfrag <= size <= Size(mem, a)
      requires mem[a].next < |mem| && !Free(mem, mem[a].next)
      modifies `mem, `view
      ensures Valid() && r == a + 1
      ensures old(a + 1 + size <= mem[a].next <= |mem|)
      ensures old(Size(mem, a)) < size + view.minfrag + 1 ==> !LeavesRest(old(Size(mem, a)), size)
      ensures var rest := LeavesRest(old(Size(mem, a)), size);
              && Allocated(old(mem), mem, old(view), view, i, a + 1 + size, rest)
              && a in Contents() && Contents() == old(Contents())[a := Contents()[a]]
              && |Contents()[a]| == (if rest then size else old(Size(mem, a)))
              && (old(mem[a].prev.use) ==> Contents()[a] == old(mem)[a + 1..a + 1 + |Contents()[a]|])
    {
      hide HeapOk, AllSettled, SameHeaders, Blocks, AreaInserted, SplitCells, InsertAt, Allocated;
      HeapTiled(mem, view, X);
      AllocateBounds(mem, view, X, a);
      if LeavesRest(mem[a].next - (a + 1), size) {
        SplitOff(a, a + 1 + size, X, i);
      } else {
        AllocatedWhole(mem, view, i, a + 1 + size);
      }
      HeapTiled(mem, view, X);
      UseStep(mem, view, X, a, true);
      UseBlocks(mem, view, a, true);
      assert X - {a} == {};
      mem := mem[a := mem[a].(prev := mem[a].prev.(use := true))];
      r := a + 1;
    }

    // -------------------------------------------------------------- checking

    /** Whether ptr is NULL or the address of a block in use. */
    ghost predicate Known(ptr: Addr)
      reads this
    {
      ptr == NULL || ptr - 1 in Contents()
    }

    /**
     chkalloc: walks the area queue and counts. It says yes exactly when every area passes its tests
     and ptr is NULL or a block in use, whatever the memory holds, so long as the queue is a ring.
     */
    method ChkAlloc(ptr: Addr, ghost R: seq<Addr>) returns (ok: bool, usesz: int, fresz: int)
      requires Ring(mem, [aq] + R)
      ensures AllIn(mem, R)
      ensures ok <==>
                Checked(mem, R)
                && (ptr == NULL || exists a :: a in R && a + 1 == ptr && mem[a].prev.use && !mem[a].prev.end)
      ensures ok ==> usesz == UsedCells(mem, R) && fresz == FreeCells(mem, R)
    {
      hide Ring, UsedCells, FreeCells;
      var newpg, ptrOk := true, ptr == NULL;
      usesz, fresz := 0, 0;
      ghost var i := 0;
      RingAt(mem, aq, R, 0);
      var a := mem[aq].next;
      CountNone(mem);
      while a != aq
        invariant i <= |R| && a == if i < |R| then R[i] else aq
        invariant newpg <==> StartsPage(mem, R, i)
        invariant forall j :: 0 <= j < i ==> CheckAt(mem, R, j)
        invariant ptrOk <==>
                    ptr == NULL || exists b :: b in R[..i] && b + 1 == ptr && mem[b].prev.use && !mem[b].prev.end
        invariant usesz == UsedCells(mem, R[..i]) && fresz == FreeCells(mem, R[..i])
        decreases |R| - i
      {
        RingAt(mem, aq, R, i);
        CountOne(mem, R, i);
        if newpg && !mem[a].prev.top {
          assert !CheckAt(mem, R, i);
          return false, 0, 0;
        }
        if mem[a].prev.end {
          if newpg {
            assert !CheckAt(mem, R, i);
            return false, 0, 0;
          }
          newpg := true;
          fresz := fresz + 1;
        } else {
          newpg := false;
          var n := mem[a].next;
          if n <= a || mem[n].prev.ptr != a || n - a < 3 {
            assert !CheckAt(mem, R, i);
            return false, 0, 0;
          }
          if mem[a].prev.use {
            usesz := usesz + (n - a);
            if ptr == a + 1 {
              ptrOk := true;
            }
          } else {
            fresz := fresz + (n - a);
          }
        }
        assert CheckAt(mem, R, i);
        a := mem[a].next;
        i := i + 1;
        if i < |R| {
          RingAt(mem, aq, R, i);
        }
      }
      RingAt(mem, aq, R, i);
      assert R[..i] == R;
      ok := newpg && ptrOk;
    }

    /** On a heap in order the answer depends on the pointer alone, and the counts add up to the pages. */
    method MallocCheck(ptr: Addr) returns (ok: bool)
      requires Valid()
      ensures ok <==> Known(ptr)
    {
      hide FreeQueueOk, Ring, AreaAt, PagesOk, Members, Settled, Checked;
      TiledIsChecked(mem, view);
      var usesz, fresz;
      ok, usesz, fresz := ChkAlloc(ptr, view.areas);
      CellsConserved(mem, view);
      assert ok ==> usesz + fresz == PageCells(view.pages, view.areas);
      KnownIs(mem, view, ptr);
    }

    // -------------------------------------------------------------- allocation

    /** The request in cells: bytes, raised to the minimal fragment unless zero, rounded up. */
    function Units(size: nat): nat {
      ((if 0 < size < minBytes then minBytes else size) + 7) / 8
    }

    /** A block of that many cells holds the bytes asked for and has the minimal size, and no fewer cells do. */
    lemma UnitsLeast(size: nat, n: nat)
      ensures 8 * Units(size) >= size && (size > 0 ==> 8 * Units(size) >= minBytes)
      ensures 8 * n >= size && (size > 0 ==> 8 * n >= minBytes) ==> n >= Units(size)
      ensures Units(size) == 0 <==> size == 0
    {
    }

    /** The cells of a page block that newPage asks for. */
    function PageUnits(n: nat): nat {
      if pagesz == 0 then 0 else (n + 2 + (pagesz - 1)) / pagesz * pagesz
    }

    /** Whole pages with room for n cells and two headers, and no page too many. */
    lemma PageUnitsLeast(n: nat, k: nat)
      requires pagesz > 0
      ensures PageUnits(n) >= n + 2 && exists i: nat :: PageUnits(n) == i * pagesz
      ensures k * pagesz >= n + 2 ==> k * pagesz >= PageUnits(n)
    {
      PagesSuffice(n, pagesz);
      var x := n + 2 + (pagesz - 1);
      var i := x / pagesz;
      assert PageUnits(n) == i * pagesz && x == i * pagesz + x % pagesz;
      if k < i {
        Multiples(k, i, pagesz);
      } else if i < k {
        Multiples(i, k, pagesz);
      }
    }

    /** What the page allocator answers: nothing, or a block of pages that is not in use. */
    ghost predicate Answer(grant: Option<Addr>, n: nat)
      reads this
    {
      grant.Some? && pagesz > 0 ==> Granted(mem, view, grant.value, PageUnits(n))
    }

    /** Registers len cells from t on as a page that is one free area. */
    method AddPage(t: Addr, len: nat)
      requires Valid() && CanAdd(mem, view, t, len)
      modifies `mem, `view
      ensures Taken(t, len - 2) && t !in old(Contents()) && Contents() == old(Contents())
      ensures Size(mem, t) == len - 2
      ensures mem[t].prev.top && view.pages == old(view.pages)[t := len] && view.kept == old(view.kept)
    {
      hide HeapOk, AreaInserted, Granted, Blocks, Adding, AddView, Free;
      var e := t + len - 1;
      AddDefined(mem, view, t, len);
      InsertAreaQue(aq, e);
      ghost var m1 := mem;
      InsertAreaQue(aq, t);
      ghost var m2 := mem;
      mem := mem[t := mem[t].(prev := mem[t].prev.(top := true))];
      ghost var m3 := mem;
      mem := mem[e := mem[e].(prev := mem[e].prev.(end := true))];
      AddingIs(old(mem), aq, t, e, m1, m2, m3, mem);
      PageAdded(old(mem), view, t, len, m1, m2, m3, mem);
      NewPageBlock(old(mem), view, t, AddView(view, t, len), len);
      view := AddView(view, t, len);
      PrevIn(mem, view, {t}, t);
    }

    method NewPage(n: nat, grant: Option<Addr>) returns (top: Option<Addr>)
      requires Valid() && view.minfrag <= n && Answer(grant, n)
      modifies `mem, `view
      ensures top == if pagesz == 0 then None else grant
      ensures top.None? ==> Valid() && mem == old(mem) && view == old(view)
      ensures top.Some? ==>
                && Taken(top.value, n) && top.value !in old(Contents())
                && Contents() == old(Contents()) && view.pages == old(view.pages)[top.value := PageUnits(n)]
                && view.kept == old(view.kept) && Size(mem, top.value) == PageUnits(n) - 2
    {
      hide HeapOk, Granted, Blocks, Free;
      if pagesz == 0 || grant.None? {
        return None;
      }
      PagesSuffice(n, pagesz);
      AddPage(grant.value, (n + 2 + (pagesz - 1)) / pagesz * pagesz);
      return grant;
    }

    /** Block r - 1 is new and has room for n cells; all other blocks are as they were. */
    twostate predicate Gained(r: Addr, n: nat)
      reads this
    {
      && r > 0 && r - 1 !in old(Contents()) && r - 1 in Contents()
      && Contents() == old(Contents())[r - 1 := Contents()[r - 1]]
      && n <= |Contents()[r - 1]| <= n + view.minfrag
    }

    /** The area found for n cells: the smallest free one that fits, else a new page. */
    ghost predicate BestArea(was: Memory, v: View, a: Addr, n: int)
    {
      && a in v.areas && a < |was|
      && forall b :: b in v.areas && b < |was| && Free(was, b) && n <= Size(was, b) ==> Size(was, a) <= Size(was, b)
    }

    /** Free area a is out of the free queue and has room for n cells. */
    ghost predicate Taken(a: Addr, n: int)
      reads this
    {
      Releasing(a) && n <= Size(mem, a)
    }

    /** Takes the smallest free area that fits out of the free queue. */
    method TakeFree(n: nat) returns (found: Option<Addr>)
      requires Valid() && n > 0
      modifies `mem, `view
      ensures found.None? <==> old(NoneFits(mem, view, n))
      ensures found.None? ==> Valid() && mem == old(mem) && view == old(view)
      ensures found.Some? ==>
                && Taken(found.value, n) && BestArea(old(mem), old(view), found.value, n)
                && Contents() == old(Contents()) && found.value !in old(Contents())
                && Size(mem, found.value) == Size(old(mem), found.value)
                && view.pages == old(view.pages) && view.kept == old(view.kept)
      ensures forall m: int :: NoneFits(mem, view, m) <==> old(NoneFits(mem, view, m))
    {
      hide HeapOk, FreeQueueOk, Blocks, Members, NoneFits, FitsAt, SameHeaders;
      HeapParts(mem, view);
      var q, k := SearchFreeArea(n);
      if q != aq + 1 {
        ghost var a := SearchFound(mem, view, k, n);
        RemoveFreeQue(q, {});
        SameHeader(old(mem), mem, old(view), a);
        SameHeader(old(mem), mem, old(view), mem[a].next);
        assert {} + {a} == {a};
        PrevIn(mem, view, {a}, a);
        forall m: int ensures NoneFits(mem, view, m) <==> NoneFits(old(mem), old(view), m) {
          NoneFitsSame(old(mem), mem, old(view), view.groups, m);
        }
        return Some(q - 1);
      } else {
        SearchNothing(mem, view, k, n);
        return None;
      }
    }

    /** What becomes of an area of len cells that serves n: the rest is cut off when it is worth an area. */
    function CutTo(len: int, n: int): int {
      if LeavesRest(len, n) then n else len
    }

    /** The block cut from an area that was taken. */
    method UseTaken(a: Addr, n: nat) returns (r: Addr)
      requires Taken(a, n) && view.minfrag <= n && a !in Contents()
      modifies `mem, `view
      ensures Valid() && r == a + 1 && Gained(r, n) && view.pages == old(view.pages) && view.kept == old(view.kept)
      ensures |Contents()[a]| == CutTo(old(Size(mem, a)), n)
      ensures forall m: int :: old(NoneFits(mem, view, m)) ==> NoneFits(mem, view, m)
    {
      hide HeapOk, Blocks, Allocated, NoneFits;
      ghost var i := AreaIndex(view.areas, a);
      FreeMarks(mem, a);
      r := Allocate(a, n, {a}, i);
      AllocatedPages(old(mem), mem, old(view), view, i, a + 1 + n, LeavesRest(Size(old(mem), a), n));
      forall m: int | NoneFits(old(mem), old(view), m) ensures NoneFits(mem, view, m) {
        AllocatedNoneFits(old(mem), mem, old(view), view, i, a + 1 + n, LeavesRest(Size(old(mem), a), n), m);
      }
    }

    /** _mem_malloc, for a size in bytes. */
    method Malloc(size: nat, grant: Option<Addr>) returns (r: Addr)
      requires Valid() && Answer(grant, Units(size))
      modifies `mem, `view
      ensures Valid()
      ensures r == NULL <==> size == 0 || (old(NoneFits(mem, view, Units(size))) && (pagesz == 0 || grant.None?))
      ensures r == NULL ==> mem == old(mem) && view == old(view)
      ensures r != NULL ==> Gained(r, Units(size)) && view.kept == old(view.kept)
      // the block holds the bytes asked for
      ensures r != NULL ==> 8 * |Contents()[r - 1]| >= size
      ensures r != NULL && old(NoneFits(mem, view, Units(size))) ==>
                && grant == Some(r - 1) && view.pages == old(view.pages)[r - 1 := PageUnits(Units(size))]
                && |Contents()[r - 1]| == CutTo(PageUnits(Units(size)) - 2, Units(size))
      ensures r != NULL && !old(NoneFits(mem, view, Units(size))) ==>
                && view.pages == old(view.pages) && BestArea(old(mem), old(view), r - 1, Units(size))
                && |Contents()[r - 1]| == CutTo(Size(old(mem), r - 1), Units(size))
    {
      hide HeapOk, FreeQueueOk, Blocks, NoneFits, Allocated, Granted, BestArea, Free;
      HeapParts(mem, view);
      if testmode > 0 {
        var ok, usesz, fresz := ChkAlloc(NULL, view.areas);
      }
      UnitsLeast(size, 0);
      var s := size;
      if s > 0 && s < minBytes {
        s := minBytes;
      }
      var n := (s + 7) / 8;
      if n <= 0 {
        return NULL;
      }
      var found := TakeFree(n);
      if found.None? {
        found := NewPage(n, grant);
        if found.None? {
          return NULL;
        }
      }
      r := UseTaken(found.value, n);
    }

    // -------------------------------------------------------------- the kernel variant

    /** The request of imalloc in cells: never less than the minimal fragment. */
    function KernelUnits(size: nat): nat {
      ((if size < minBytes then minBytes else size) + 7) / 8
    }

    lemma KernelUnitsLeast(size: nat, n: nat)
      ensures 8 * KernelUnits(size) >= size && 8 * KernelUnits(size) >= minBytes
      ensures 8 * n >= size && 8 * n >= minBytes ==> n >= KernelUnits(size)
    {
    }

    /** imalloc's first critical section: a block from the free queue, or NULL and nothing changed. */
    method ImallocFree(size: nat) returns (r: Addr)
      requires Valid()
      modifies `mem, `view
      ensures Valid()
      ensures r == NULL <==> old(NoneFits(mem, view, KernelUnits(size)))
      ensures r == NULL ==> mem == old(mem) && view == old(view)
      ensures view.kept == old(view.kept)
      ensures r != NULL ==>
                Gained(r, KernelUnits(size)) && view.pages == old(view.pages)
                && BestArea(old(mem), old(view), r - 1, KernelUnits(size))
      ensures r != NULL ==> 8 * |Contents()[r - 1]| >= size
    {
      hide HeapOk, FreeQueueOk, Blocks, NoneFits, BestArea, Free;
      HeapParts(mem, view);
      KernelUnitsLeast(size, 0);
      var n := ((if size < minBytes then minBytes else size) + 7) / 8;
      var found := TakeFree(n);
      if found.None? {
        return NULL;
      }
      r := UseTaken(found.value, n);
    }

    /**
     imalloc's second critical section, after the pages have been obtained with interrupts enabled:
     whatever other calls did to the heap in between, the new page serves the request.
     */
    method ImallocPage(size: nat, grant: Option<Addr>) returns (r: Addr)
      requires Valid() && pagesz > 0 && Answer(grant, KernelUnits(size))
      modifies `mem, `view
      ensures Valid() && (r == NULL <==> grant.None?)
      ensures r == NULL ==> mem == old(mem) && view == old(view)
      ensures view.kept == old(view.kept)
      ensures r != NULL ==> Gained(r, KernelUnits(size)) && grant == Some(r - 1)
      ensures r != NULL ==> view.pages == old(view.pages)[r - 1 := PageUnits(KernelUnits(size))]
      ensures r != NULL ==> 8 * |Contents()[r - 1]| >= size
    {
      hide HeapOk, FreeQueueOk, Blocks, Free, Granted, AddView;
      HeapParts(mem, view);
      KernelUnitsLeast(size, 0);
      var n := ((if size < minBytes then minBytes else size) + 7) / 8;
      var top := NewPage(n, grant);
      if top.None? {
        return NULL;
      }
      r := UseTaken(top.value, n);
    }

    // -------------------------------------------------------------- release

    /** Merges area a with a free area behind it; i is the position of a in the area queue. */
    method MergeNext(a: Addr, ghost X: set<Addr>, ghost i: nat) returns (ghost merged: bool)
      requires Inv(X) && i < |view.areas| && view.areas[i] == a < |mem| && !mem[a].prev.end
      requires X == if mem[a].prev.use then {} else {a}
      modifies `mem, `view
      ensures Inv(X) && i < |view.areas| && view.areas[i] == a && a < |mem|
      ensures mem[a].prev == old(mem[a].prev) && mem[a].next in view.areas && mem[a].next < |mem|
              && !Free(mem, mem[a].next)
      ensures old(mem[a].next < |mem|) && merged == old(Free(mem, mem[a].next))
      ensures Absorbed(old(mem), mem, old(view), view, i, merged)
      ensures a < old(mem[a].next) <= mem[a].next
      ensures merged ==> old(mem[a].next) + 1 + view.minfrag <= mem[a].next
      ensures !merged ==> mem[a].next == old(mem[a].next)
      ensures if mem[a].prev.use
              then a in Contents() && Contents() == old(Contents())[a := Contents()[a]]
                   && |Contents()[a]| == mem[a].next - a - 1
                   && a in old(Contents()) && old(Contents()[a]) <= Contents()[a]
              else Contents() == old(Contents())
    {
      hide HeapOk, Blocks, Members, SameHeaders, CanMerge, MergeCells, Absorbed, AreaRemoved, Quiet;
      MergeReady(mem, view, X, i);
      var n := mem[a].next;
      merged := Free(mem, n);
      if !mem[n].prev.end && !mem[n].prev.use {
        RemoveFreeQue(n + 1, X);
        ghost var m1, v1 := mem, view;
        MergeDefined(old(mem), m1, old(view), v1, X, i);
        RemoveAreaQue(n);
        view := MergeView(view, i + 1);
        MergeHeap(old(mem), m1, mem, old(view), v1, view, X, i);
        MergeContents(old(mem), m1, mem, old(view), v1, view, X, i);
      } else {
        AbsorbedNone(mem, view, i);
        LiveContents(mem, view, a);
      }
    }

    /** Merges area a, which is being released, into the free area before it. */
    method MergePrev(a: Addr) returns (p: Addr)
      requires Inv({a}) && a in view.areas && a < |mem| && Free(mem, a) && !mem[a].prev.top
      requires mem[a].prev.ptr < |mem| && !mem[mem[a].prev.ptr].prev.use
      requires mem[a].next < |mem| && !Free(mem, mem[a].next)
      modifies `mem, `view
      ensures Releasing(p) && p == old(mem[a].prev.ptr) < a && mem[p].next == old(mem[a].next)
      ensures !mem[p].prev.top ==> !Free(mem, mem[p].prev.ptr)
      ensures Contents() == old(Contents()) && view.pages == old(view.pages) && view.kept == old(view.kept)
    {
      hide HeapOk, Blocks, Members, SameHeaders, MergeCells, AreaRemoved, Quiet, MergeView;
      p := mem[a].prev.ptr;
      PrevReady(mem, view, a);
      RemoveFreeQue(p + 1, {a});
      ghost var m1, v1 := mem, view;
      ghost var j := AreaIndex(view.areas, a);
      PrevDefined(old(mem), m1, old(view), v1, a, j);
      RemoveAreaQue(mem[p].next);
      view := MergeView(view, j);
      PrevHeap(old(mem), m1, mem, old(view), v1, view, a, j);
    }

    /** Area p is on its way out of use: nothing behind it is free. */
    ghost predicate Releasing(p: Addr)
      reads this
    {
      && Inv({p}) && p in view.areas && p < |mem| && Free(mem, p)
      && mem[p].next in view.areas && mem[p].next < |mem| && !Free(mem, mem[p].next)
      && (!mem[p].prev.top ==> mem[p].prev.ptr in view.areas && mem[p].prev.ptr < |mem|)
    }

    /** The end of _mem_free: a page that is wholly free goes back, any other free area is queued. */
    method Retire(a: Addr, di: bool) returns (released: Option<Addr>)
      requires Releasing(a) && (!mem[a].prev.top ==> !Free(mem, mem[a].prev.ptr))
      modifies `mem, `view
      ensures Valid() && Contents() == old(Contents())
      ensures released == if !di && old(mem[a].prev.top && mem[mem[a].next].prev.end) then Some(a) else None
      ensures view.pages == if released.Some? then old(view.pages) - {a} else old(view.pages)
      ensures released.Some? ==> a in old(view.pages) && view.kept == old(view.kept) - {a}
      ensures released.None? ==> a in view.areas && a < |mem| && Free(mem, a) && mem[a] == old(mem[a])
      ensures released.None? ==> view.kept == old(view.kept) + if FillsPage(mem, a) then {a} else {}
      ensures released.None? && !di ==> !FillsPage(mem, a)
    {
      hide HeapOk, Blocks, AreaRemoved, Quiet, Settled, AllSettled, DropView;
      if !di && mem[a].prev.top && mem[mem[a].next].prev.end {
        ghost var j := AreaIndex(view.areas, mem[a].next);
        ghost var k := DropDefined(mem, view, a, j);
        RemoveAreaQue(mem[a].next);
        ghost var m1 := mem;
        RemoveAreaQue(a);
        PageDropped(old(mem), view, a, j, k, m1, mem);
        view := DropView(view, j, k);
        KeptLess(mem, view, a);
        view := view.(kept := view.kept - {a});
        released := Some(a);
      } else {
        if mem[a].prev.top && mem[mem[a].next].prev.end {
          // interrupts are disabled
          KeptMore(mem, view, {a}, a);
          view := view.(kept := view.kept + {a});
        }
        RetireReady(mem, view, a);
        AppendFreeArea(a, {a});
        SameHeader(old(mem), mem, old(view), a);
        SameHeader(old(mem), mem, old(view), mem[a].next);
        released := None;
      }
    }

    /** The merging part of _mem_free: block ptr, with any free areas next to it, is area a on its way out of use. */
    method Merge(ptr: Addr) returns (a: Addr)
      requires Valid() && ptr > 0 && ptr - 1 in Contents()
      modifies `mem, `view
      ensures Releasing(a) && (!mem[a].prev.top ==> !Free(mem, mem[a].prev.ptr)) && a < ptr <= mem[a].next
      ensures Contents() == old(Contents()) - {ptr - 1} && view.pages == old(view.pages) && view.kept == old(view.kept)
    {
      hide HeapOk, Blocks, Absorbed;
      a := ptr - 1;
      LiveArea(mem, view, a);
      ghost var i := AreaIndex(view.areas, a);
      ClearUse(mem, view, a);
      mem := mem[a := mem[a].(prev := mem[a].prev.(use := false))];
      ghost var m1 := mem;
      ghost var merged := MergeNext(a, {a}, i);
      AbsorbedParts(m1, mem, old(view), view, i, merged);
      AbsorbedFacts(mem, view, i, a);
      if !mem[a].prev.top && !mem[mem[a].prev.ptr].prev.use {
        a := MergePrev(a);
      }
    }

    /** The block at ptr is gone: its page has been given back, or lies on as a free area that does not fill a page. */
    twostate predicate GivenUp(ptr: Addr, new released: Option<Addr>)
      reads this
    {
      && view.pages == (if released.Some? then old(view.pages) - {released.value} else old(view.pages))
      && (released.Some? ==> released.value in old(view.pages))
      && (released.None? ==> exists a :: a in view.areas && FreeAround(mem, a, ptr) && !FillsPage(mem, a))
    }

    /** _mem_free, and ifree called with interrupts disabled if di is set; released is the page given back. */
    method MemFree(ptr: Addr, di: bool) returns (released: Option<Addr>)
      requires Valid() && (testmode > 0 || Known(ptr))
      modifies `mem, `view
      ensures Valid()
      ensures ptr == NULL || !old(Known(ptr)) ==> mem == old(mem) && view == old(view) && released == None
      ensures Contents() == if ptr == NULL then old(Contents()) else old(Contents()) - {ptr - 1}
      ensures view.pages == if released.Some? then old(view.pages) - {released.value} else old(view.pages)
      ensures released.Some? ==> released.value in old(view.pages) && !di
      // a page is left wholly free only with interrupts disabled
      ensures forall a :: a in view.kept && a !in old(view.kept) ==>
                di && a < |mem| && FreeAround(mem, a, ptr) && FillsPage(mem, a)
      ensures forall a :: a in old(view.kept) && a !in view.kept ==> released == Some(a)
      // no page that has become wholly free is kept, unless interrupts are disabled
      ensures ptr != NULL && old(Known(ptr)) && !di ==> GivenUp(ptr, released)
    {
      hide HeapOk, Blocks, Free, FillsPage;
      if ptr == NULL {
        return None;
      }
      if testmode > 0 {
        var ok := MallocCheck(ptr);
        if !ok {
          return None;
        }
      }
      var a := Merge(ptr);
      released := Retire(a, di);
      assert released.None? ==> FreeAround(mem, a, ptr);
    }

    /** The owner of a block writes its k-th cell: nothing else of the heap changes. */
    method WriteBlock(ptr: Addr, k: nat, c: Cell)
      requires Valid() && ptr > 0 && ptr - 1 in Contents() && k < |Contents()[ptr - 1]|
      modifies `mem
      ensures Valid() && Contents() == old(Contents())[ptr - 1 := old(Contents())[ptr - 1][k := c]]
    {
      hide HeapOk, Blocks;
      LiveArea(mem, view, ptr - 1);
      HeapTiled(mem, view, {});
      mem := mem[ptr + k := c];
      InsideStep(old(mem), mem, view, {}, ptr - 1);
      assert mem[ptr..old(mem)[ptr - 1].next] == old(mem)[ptr..old(mem)[ptr - 1].next][k := c];
    }

    // -------------------------------------------------------------- changing the size

    /** Block p was given up and block r - 1 taken, other blocks are as they were; NULL has no block. */
    twostate predicate Moved(ptr: Addr, r: Addr, n: nat)
      reads this
    {
      && r > 0 && r - 1 in Contents() && n <= |Contents()[r - 1]| <= n + view.minfrag
      && (r == ptr || r - 1 !in old(Contents()))
      && Contents() == (old(Contents()) - (if ptr == NULL then {} else {ptr - 1}))[r - 1 := Contents()[r - 1]]
    }

    /** The first cells of block r - 1 are those that block ptr - 1 had, up to the shorter length. */
    twostate predicate KeepsPrefix(ptr: Addr, r: Addr, n: nat)
      reads this
    {
      ptr != NULL && ptr - 1 in old(Contents()) && r > 0 && r - 1 in Contents() && n <= |Contents()[r - 1]| ==>
        var was := old(Contents())[ptr - 1];
        var m := if |was| < n then |was| else n;
        Contents()[r - 1][..m] == was[..m]
    }

    /** MEMCPY between two blocks in use. */
    method CopyBlock(to: Addr, from: Addr, n: nat)
      requires Valid() && to > 0 && from > 0 && to != from && to - 1 in Contents() && from - 1 in Contents()
      requires n <= |Contents()[to - 1]| && n <= |Contents()[from - 1]|
      modifies `mem
      ensures Valid() && to - 1 in Contents() && |Contents()[to - 1]| == old(|Contents()[to - 1]|)
      ensures Contents() == old(Contents())[to - 1 := Contents()[to - 1]]
      ensures Contents()[to - 1][..n] == old(Contents())[from - 1][..n]
    {
      hide HeapOk, Blocks;
      LiveArea(mem, view, to - 1);
      LiveArea(mem, view, from - 1);
      mem := mem[..to] + mem[from..from + n] + mem[to + n..];
      HeapTiled(old(mem), view, {});
      InsideStep(old(mem), mem, view, {}, to - 1);
      SlicePrefix(mem, to, mem[to - 1].next, n);
      SlicePrefix(old(mem), from, old(mem)[from - 1].next, n);
      assert mem[to..to + n] == old(mem)[from..from + n];
    }

    /** _mem_realloc when the merged area is long enough. */
    method ShrinkTo(ptr: Addr, n: nat, ghost i: nat)
      requires Valid() && ptr > 0 && ptr - 1 in Contents() && i < |view.areas| && view.areas[i] == ptr - 1
      requires view.minfrag <= n <= |Contents()[ptr - 1]|
      requires ptr - 1 < |mem| && mem[ptr - 1].next < |mem| && !Free(mem, mem[ptr - 1].next)
      modifies `mem, `view
      ensures Valid() && view.pages == old(view.pages) && view.kept == old(view.kept) && ptr - 1 in Contents()
      ensures Contents() == old(Contents())[ptr - 1 := Contents()[ptr - 1]]
      ensures Contents()[ptr - 1] <= old(Contents())[ptr - 1] && n <= |Contents()[ptr - 1]| <= n + view.minfrag
      ensures !LeavesRest(|old(Contents())[ptr - 1]|, n) ==> |Contents()[ptr - 1]| == |old(Contents())[ptr - 1]|
      ensures LeavesRest(|old(Contents())[ptr - 1]|, n) ==> |Contents()[ptr - 1]| == n
      ensures Allocated(old(mem), mem, old(view), view, i, ptr + n, LeavesRest(|old(Contents())[ptr - 1]|, n))
    {
      hide HeapOk, Blocks, Allocated, Free;
      var a := ptr - 1;
      LiveArea(mem, view, a);
      SizeIs(mem, a);
      var r := Allocate(a, n, {}, i);
      AllocatedPages(old(mem), mem, old(view), view, i, a + 1 + n, LeavesRest(Size(old(mem), a), n));
    }

    /** How long the block at ptr can become where it is, with a free area behind it merged in. */
    ghost function Room(ptr: Addr): int
      reads this
    {
      if !(0 < ptr <= |mem|) then 0
      else
        var e := mem[ptr - 1].next;
        if e < |mem| && Free(mem, e) then mem[e].next - ptr else e - ptr
    }

    /** A block can grow by the free area behind it and that area's header, if there is one, and else not at all. */
    lemma RoomMeans(ptr: Addr)
      requires Valid() && ptr > 0 && ptr - 1 in Contents()
      ensures var len := |Contents()[ptr - 1]|;
              var e := ptr + len;
              Room(ptr) == if e < |mem| && e in view.areas && Free(mem, e) then len + 1 + Size(mem, e) else len
    {
      hide FreeQueueOk, Settled, Members, Ring, PagesOk, Blocks;
      LiveArea(mem, view, ptr - 1);
      assert AreaAt(mem, view, ptr - 1);
    }

    /** No free area fits n cells, and no page can be had for them. */
    ghost predicate NoSpace(n: nat, grant: Option<Addr>)
      reads this
    {
      NoneFits(mem, view, n) && (pagesz == 0 || grant.None?)
    }

    /** _mem_realloc, for a size in bytes. */
    method Realloc(ptr: Addr, size: nat, grant: Option<Addr>) returns (r: Addr, released: Option<Addr>)
      requires Valid() && (testmode > 0 || Known(ptr)) && Answer(grant, Units(size))
      modifies `mem, `view
      ensures Valid()
      ensures !old(Known(ptr)) ==> r == NULL && mem == old(mem) && view == old(view) && released == None
      ensures view.kept <= old(view.kept)
      // size zero releases
      ensures ptr == NULL && size == 0 ==> r == NULL && mem == old(mem) && view == old(view) && released == None
      ensures ptr != NULL && old(Known(ptr)) && size == 0 ==>
                r == NULL && Contents() == old(Contents()) - {ptr - 1} && GivenUp(ptr, released)
      ensures size > 0 && (r == NULL || r == ptr) ==> released == None
      // it fails only when the block cannot grow in place, no other area fits and there is no new page
      ensures old(Known(ptr)) && size > 0 ==>
                && (r == NULL <==> (ptr == NULL || Units(size) > old(Room(ptr))) && old(NoSpace(Units(size), grant)))
                && (ptr != NULL ==> (r == ptr <==> Units(size) <= old(Room(ptr))))
      ensures r != NULL ==>
                view.pages == if r == ptr then old(view.pages)
                              else PagesAfter(old(view.pages), r, PageUnits(Units(size)),
                                              old(NoneFits(mem, view, Units(size))), released)
      // failure leaves every area and every block as it was
      ensures old(Known(ptr)) && size > 0 && r == NULL ==>
                && view == old(view).(groups := view.groups) && Contents() == old(Contents())
                && |mem| == |old(mem)| && forall b :: b in view.areas && b < |mem| ==> mem[b] == old(mem)[b]
      // success keeps the contents
      ensures r != NULL ==> size > 0 && Moved(ptr, r, Units(size)) && KeepsPrefix(ptr, r, Units(size))
      ensures r != NULL ==> 8 * |Contents()[r - 1]| >= size
    {
      hide HeapOk, Blocks, Absorbed, Allocated, Free, Granted, NoneFits, BestArea;
      released := None;
      if testmode > 0 {
        var ok := MallocCheck(ptr);
        if !ok {
          return NULL, None;
        }
      }
      UnitsLeast(size, 0);
      var n := ((if 0 < size < minBytes then minBytes else size) + 7) / 8;
      if ptr == NULL {
        if n > 0 {
          r := Malloc(8 * n, grant);
        } else {
          released := MemFree(ptr, false);
          r := NULL;
        }
      } else {
        r, released := ReallocBlock(ptr, n, size, grant);
      }
    }

    /** The first step of _mem_realloc: the block takes in a free area behind it. */
    method Absorb(ptr: Addr) returns (oldsz: nat, sz: nat, ghost i: nat, ghost merged: bool)
      requires Valid() && ptr > 0 && ptr - 1 in Contents()
      modifies `mem, `view
      ensures Valid() && ptr - 1 in Contents() && Contents() == old(Contents())[ptr - 1 := Contents()[ptr - 1]]
      ensures old(Contents()[ptr - 1]) <= Contents()[ptr - 1]
      ensures oldsz == old(|Contents()[ptr - 1]|) && sz == |Contents()[ptr - 1]| == old(Room(ptr))
      ensures view.minfrag <= oldsz && merged == LeavesRest(sz, oldsz) && (!merged ==> sz == oldsz)
      ensures BlockAt(old(mem), old(view), i, ptr, oldsz, merged)
      ensures i < |view.areas| && view.areas[i] == ptr - 1
      ensures ptr - 1 < |mem| && mem[ptr - 1].next < |mem| && !Free(mem, mem[ptr - 1].next)
      ensures Absorbed(old(mem), mem, old(view), view, i, merged)
      ensures |mem| == |old(mem)| && view.pages == old(view.pages) && view.kept == old(view.kept)
              && view.aq == old(view.aq)
      ensures forall n: int :: n > sz ==> (NoneFits(mem, view, n) <==> old(NoneFits(mem, view, n)))
    {
      hide HeapOk, Blocks, Absorbed, Free, NoneFits, Size;
      var a := ptr - 1;
      LiveArea(mem, view, a);
      i := AreaIndex(view.areas, a);
      oldsz := mem[a].next - ptr;
      OldSize(mem, view, a);
      merged := MergeNext(a, {}, i);
      sz := mem[a].next - ptr;
      AbsorbedParts(old(mem), mem, old(view), view, i, merged);
      AbsorbedRoom(old(mem), mem, old(view), view, i, merged);
      forall n: int | n > sz ensures NoneFits(mem, view, n) <==> old(NoneFits(mem, view, n)) {
        AbsorbedNoneFits(old(mem), mem, old(view), view, i, merged, n);
      }
    }

    /** _mem_realloc of a block. */
    method ReallocBlock(ptr: Addr, n: nat, ghost size: nat, grant: Option<Addr>)
      returns (r: Addr, released: Option<Addr>)
      requires Valid() && ptr > 0 && ptr - 1 in Contents() && n == Units(size) && Answer(grant, n)
      modifies `mem, `view
      ensures Valid() && view.kept <= old(view.kept)
      ensures n == 0 ==> r == NULL && Contents() == old(Contents()) - {ptr - 1} && GivenUp(ptr, released)
      ensures n > 0 && (r == NULL || r == ptr) ==> released == None
      ensures n > 0 && r == NULL ==>
                && view == old(view).(groups := view.groups) && Contents() == old(Contents())
                && |mem| == |old(mem)| && forall b :: b in view.areas && b < |mem| ==> mem[b] == old(mem)[b]
      ensures n > 0 ==>
                && (r == NULL <==> n > old(Room(ptr)) && old(NoSpace(n, grant)))
                && (r == ptr <==> n <= old(Room(ptr)))
      ensures r != NULL ==>
                view.pages == if r == ptr then old(view.pages)
                              else PagesAfter(old(view.pages), r, PageUnits(n), old(NoneFits(mem, view, n)), released)
      ensures r != NULL ==> n > 0 && Moved(ptr, r, n) && KeepsPrefix(ptr, r, n)
    {
      hide HeapOk, Blocks, Absorbed, Allocated, Free, Granted, NoneFits, PagesAfter, Size, BlockAt;
      released := None;
      ghost var c0 := Contents();
      var oldsz, sz, i, merged := Absorb(ptr);
      ghost var m1, v1, c1 := mem, view, Contents();
      if n <= sz {
        if n > 0 {
          ShrinkTo(ptr, n, i);
          r := ptr;
        } else {
          released := MemFree(ptr, false);
          r := NULL;
        }
      } else {
        AnswerKept(old(mem), mem, old(view), view, grant, PageUnits(n));
        r, released := MoveBlock(ptr, n, oldsz, grant, i);
        if r == NULL {
          UndoneMergeAll(old(mem), m1, mem, old(view), v1, view, i, merged, ptr, oldsz);
        }
      }
      ContentsAfter(c0, c1, Contents(), ptr, r, n);
    }

    /** _mem_realloc when the area is too short even after merging: a new block, or the old size again. */
    method MoveBlock(ptr: Addr, n: nat, oldsz: nat, grant: Option<Addr>, ghost i: nat)
      returns (r: Addr, released: Option<Addr>)
      requires Valid() && ptr > 0 && ptr - 1 in Contents() && i < |view.areas| && view.areas[i] == ptr - 1
      requires Units(8 * n) == n && Answer(grant, n) && n > |Contents()[ptr - 1]| >= oldsz >= view.minfrag
      requires ptr - 1 < |mem| && mem[ptr - 1].next < |mem| && !Free(mem, mem[ptr - 1].next)
      requires LeavesRest(|Contents()[ptr - 1]|, oldsz) || |Contents()[ptr - 1]| == oldsz
      modifies `mem, `view
      ensures Valid() && view.kept <= old(view.kept)
      ensures r == NULL ==>
                && released == None && ptr - 1 in Contents()
                && Contents() == old(Contents())[ptr - 1 := Contents()[ptr - 1]]
                && Contents()[ptr - 1] == old(Contents())[ptr - 1][..oldsz]
                && Allocated(old(mem), mem, old(view), view, i, ptr + oldsz,
                     LeavesRest(|old(Contents())[ptr - 1]|, oldsz))
      ensures r == NULL <==> old(NoSpace(n, grant))
      ensures r != NULL ==>
                view.pages == PagesAfter(old(view.pages), r, PageUnits(n), old(NoneFits(mem, view, n)), released)
      ensures r != NULL ==>
                && r != ptr && r - 1 !in old(Contents()) && r - 1 in Contents()
                && n <= |Contents()[r - 1]| <= n + view.minfrag
                && Contents() == (old(Contents()) - {ptr - 1})[r - 1 := Contents()[r - 1]]
                && Contents()[r - 1][..oldsz] == old(Contents())[ptr - 1][..oldsz]
    {
      hide HeapOk, Blocks, Absorbed, Allocated, Free, Granted, NoneFits, BestArea;
      released := None;
      r := Malloc(8 * n, grant);
      if r == NULL {
        ShrinkTo(ptr, oldsz, i);
        return NULL, None;
      }
      CopyBlock(r, ptr, oldsz);
      released := MemFree(ptr, false);
    }
  }

  lemma OldSize(mem: Memory, v: View, a: Addr)
    requires HeapOk(mem, v, {}) && a in v.areas && a < |mem| && mem[a].prev.use
    ensures !mem[a].prev.end && a + 1 + v.minfrag <= mem[a].next && v.minfrag >= 2
  {
    hide FreeQueueOk, Settled, Members, Ring, PagesOk;
    assert AreaAt(mem, v, a);
  }

  /** c0, c1 and c2 are the blocks before merging, after it and at the end. */
  lemma ContentsAfter(c0: map<Addr, seq<Cell>>, c1: map<Addr, seq<Cell>>, c2: map<Addr, seq<Cell>>, ptr: Addr,
                      r: Addr, n: nat)
    requires ptr > 0 && ptr - 1 in c0 && ptr - 1 in c1 && c1 == c0[ptr - 1 := c1[ptr - 1]] && c0[ptr - 1] <= c1[ptr - 1]
    ensures c2 == c1 - {ptr - 1} ==> c2 == c0 - {ptr - 1}
    ensures ptr - 1 in c2 && c2 == c1[ptr - 1 := c2[ptr - 1]] && c2[ptr - 1] == c1[ptr - 1][..|c0[ptr - 1]|] ==>
              c2 == c0
    ensures ptr - 1 in c2 && c2 == c1[ptr - 1 := c2[ptr - 1]] ==> c2 == (c0 - {ptr - 1})[ptr - 1 := c2[ptr - 1]]
    ensures r > 0 && r - 1 in c2 && c2 == (c1 - {ptr - 1})[r - 1 := c2[r - 1]] ==>
              c2 == (c0 - {ptr - 1})[r - 1 := c2[r - 1]]
  {
    assert c1 - {ptr - 1} == c0 - {ptr - 1};
    assert c1[ptr - 1][..|c0[ptr - 1]|] == c0[ptr - 1];
  }

  predicate FillsPage(mem: Memory, a: Addr)
    requires a < |mem|
  {
    mem[a].prev.top && mem[a].next < |mem| && mem[mem[a].next].prev.end
  }

  /** Free area a contains the block address ptr. */
  ghost predicate FreeAround(mem: Memory, a: Addr, ptr: Addr) {
    a < |mem| && Free(mem, a) && a < ptr <= mem[a].next
  }

  /** The pages once block r has been handed out, from a new page of len cells if added, and page
      released, if any, given back. */
  ghost function PagesAfter(pages: map<Addr, nat>, r: Addr, len: nat, added: bool, released: Option<Addr>)
    : map<Addr, nat>
  {
    (if r > 0 && added then pages[r - 1 := len] else pages) - if released.Some? then {released.value} else {}
  }

  lemma AbsorbedRoom(m0: Memory, m1: Memory, v0: View, v1: View, i: nat, merged: bool)
    requires Absorbed(m0, m1, v0, v1, i, merged)
    ensures v0.areas[i] < |m0| == |m1|
    ensures var n := m0[v0.areas[i]].next;
            if merged then n < |m0| && m1[v0.areas[i]].next == m0[n].next else m1[v0.areas[i]].next == n
  {
    assert v0.areas[i] in v0.areas;
  }

  /** Merging a free area that is too small into a block does not change what fits. */
  lemma AbsorbedNoneFits(m0: Memory, m1: Memory, v0: View, v1: View, i: nat, merged: bool, size: int)
    requires Absorbed(m0, m1, v0, v1, i, merged) && m0[v0.areas[i]].prev.use && HeapOk(m0, v0, {})
    requires merged && m0[v0.areas[i]].next < |m0| ==> m0[m0[v0.areas[i]].next].next < m0[v0.areas[i]].next + 1 + size
    ensures NoneFits(m1, v1, size) <==> NoneFits(m0, v0, size)
  {
    var a := v0.areas[i];
    var n := m0[a].next;
    assert a in v0.areas;
    forall b | b in v0.areas && b < |m0| && !(merged && b == n)
      ensures b in v1.areas && Free(m1, b) == Free(m0, b) && (Free(m0, b) ==> Size(m1, b) == Size(m0, b))
    {
      var k :| 0 <= k < |v0.areas| && v0.areas[k] == b;
      if merged {
        assert k != i + 1;
        assert v1.areas[if k <= i then k else k - 1] == b;
      }
    }
    forall b | b in v1.areas ensures b in v0.areas && !(merged && b == n) {
      var k :| 0 <= k < |v1.areas| && v1.areas[k] == b;
      var l := if merged && k > i then k + 1 else k;
      assert v0.areas[l] == b;
      if merged {
        assert ([v0.aq] + v0.areas)[l + 1] != ([v0.aq] + v0.areas)[i + 2];
      }
    }
  }

  lemma AbsorbedParts(m0: Memory, m1: Memory, v0: View, v1: View, i: nat, merged: bool)
    requires Absorbed(m0, m1, v0, v1, i, merged)
    ensures |m1| == |m0| && v1.pages == v0.pages && v1.kept == v0.kept && v1.aq == v0.aq && v1.minfrag == v0.minfrag
  {
  }

  lemma AnswerKept(m0: Memory, m1: Memory, v0: View, v1: View, grant: Option<Addr>, len: nat)
    requires |m1| == |m0| && v1.pages == v0.pages && v1.aq == v0.aq
    ensures grant.Some? && Granted(m0, v0, grant.value, len) ==> Granted(m1, v1, grant.value, len)
  {
  }

  /** The block at ptr has n cells, and free says whether the area behind it is free. */
  ghost predicate BlockAt(mem: Memory, v: View, i: nat, ptr: Addr, n: nat, free: bool) {
    && HeapOk(mem, v, {}) && i < |v.areas| && v.areas[i] == ptr - 1 && ptr - 1 < |mem|
    && mem[ptr - 1].prev.use && !mem[ptr - 1].prev.end
    && mem[ptr - 1].next == ptr + n < |mem| && free == Free(mem, ptr + n)
  }

  lemma UndoneMergeAll(m0: Memory, m1: Memory, m2: Memory, v0: View, v1: View, v2: View, i: nat, merged: bool,
                       ptr: Addr, n: nat)
    requires BlockAt(m0, v0, i, ptr, n, merged)
    requires Absorbed(m0, m1, v0, v1, i, merged) && Allocated(m1, m2, v1, v2, i, ptr + n, merged)
    ensures v2 == v0.(groups := v2.groups) && |m2| == |m0|
    ensures forall b :: b in v0.areas && b < |m0| ==> m2[b] == m0[b]
  {
    AbsorbedUndone(m0, m1, m2, v0, v1, v2, i, merged);
  }

  lemma SlicePrefix(mem: Memory, i: nat, j: nat, n: nat)
    requires i + n <= j <= |mem|
    ensures mem[i..j][..n] == mem[i..i + n]
  {
  }

  lemma DropDefined(mem: Memory, v: View, a: Addr, j: nat) returns (k: nat)
    requires HeapOk(mem, v, {a}) && a in v.areas && a < |mem| && j < |v.areas| && v.areas[j] == mem[a].next < |mem|
    requires mem[a].prev.top && mem[mem[a].next].prev.end
    ensures k < |v.areas| - 1 && Cut(v.areas, j)[k] == a
    ensures CanDrop(mem, v, a, v.areas[j])
    ensures var n := v.areas[j];
            && n < |mem| && mem[n].prev.ptr == a && n != a && mem[n].next < |mem| && !mem[n].prev.use
            && var m1 := AreaRemoved(mem, n);
               m1[a].prev.ptr < |m1| && m1[a].next < |m1| && m1[a].prev.ptr != a
  {
    hide FreeQueueOk, Settled, Members, Ring, PagesOk, Cut;
    DropNeighbours(mem, v, a, v.areas[j]);
    MergeRing(mem, v, j);
    k := AreaIndex(Cut(v.areas, j), a);
    CutLength(v.areas, j);
  }

  lemma PageDropped(mem: Memory, v: View, a: Addr, j: nat, k: nat, m1: Memory, mem': Memory)
    requires HeapOk(mem, v, {a}) && j < |v.areas| && k < |v.areas| - 1 && Cut(v.areas, j)[k] == a
    requires CanDrop(mem, v, a, v.areas[j]) && !mem[a].prev.use && !mem[v.areas[j]].prev.use
    requires v.areas[j] < |mem| && mem[v.areas[j]].prev.ptr < |mem| && mem[v.areas[j]].next < |mem|
             && m1 == AreaRemoved(mem, v.areas[j])
    requires m1[a].prev.ptr < |m1| && m1[a].next < |m1| && mem' == AreaRemoved(m1, a)
    ensures HeapOk(mem', DropView(v, j, k), {}) && a in v.pages
    ensures var v' := DropView(v, j, k);
            && v'.pages == v.pages - {a} && v'.aq == v.aq && v'.minfrag == v.minfrag && v'.kept == v.kept
            && Blocks(mem', v'.areas) == Blocks(mem, v.areas)
  {
    hide FreeQueueOk, Settled, Members, Ring, PagesOk, Cut, AreaAt, AreaRemoved, DropCells, CanDrop;
    DropInMemory(mem, v, a, v.areas[j]);
    DropStep(mem, v, {a}, a, j, k, m1, mem');
    assert {a} - {a} == {};
    DropBlocks(mem, mem', v, DropView(v, j, k), a, v.areas[j]);
  }

  lemma DropInMemory(mem: Memory, v: View, a: Addr, n: Addr)
    requires CanDrop(mem, v, a, n)
    ensures a < |mem| && n < |mem|
  {
  }

  /** The layout does not depend on which pages are remembered as kept. */
  lemma KeptTiled(mem: Memory, v: View, kept: set<Addr>)
    requires Tiled(mem, v)
    ensures Tiled(mem, v.(kept := kept))
  {
    hide Ring;
    forall b | b in v.areas ensures AreaAt(mem, v.(kept := kept), b) {
      assert AreaAt(mem, v, b);
    }
  }

  /** A page that has gone need not be remembered as kept. */
  lemma KeptLess(mem: Memory, v: View, a: Addr)
    requires HeapOk(mem, v, {}) && a !in v.pages
    ensures HeapOk(mem, v.(kept := v.kept - {a}), {})
  {
    hide FreeQueueOk, Members, Tiled;
    var v' := v.(kept := v.kept - {a});
    KeptTiled(mem, v, v'.kept);
    forall b | b in v.areas && Quiet(mem, b, {}) ensures Settled(mem, b, {}, v'.kept) {
      assert Settled(mem, b, {}, v.kept);
      TopArea(mem, v, b);
    }
  }

  lemma KeptMore(mem: Memory, v: View, X: set<Addr>, a: Addr)
    requires HeapOk(mem, v, X) && a in v.areas && a < |mem| && mem[a].prev.top
    ensures HeapOk(mem, v.(kept := v.kept + {a}), X) && a in v.pages
  {
    hide FreeQueueOk, Members, Tiled;
    var v' := v.(kept := v.kept + {a});
    KeptTiled(mem, v, v'.kept);
    TopArea(mem, v, a);
    forall b | b in v.areas && Quiet(mem, b, X) ensures Settled(mem, b, X, v'.kept) {
      assert Settled(mem, b, X, v.kept);
    }
  }

  lemma TopArea(mem: Memory, v: View, a: Addr)
    requires Tiled(mem, v) && a in v.areas
    ensures a < |mem| && (mem[a].prev.top <==> a in v.pages)
  {
    hide Ring, PagesOk;
    assert AreaAt(mem, v, a);
  }

  lemma RetireReady(mem: Memory, v: View, a: Addr)
    requires HeapOk(mem, v, {a}) && a in v.areas && a < |mem| && mem[a].next < |mem| && !Free(mem, mem[a].next)
    requires !mem[a].prev.top ==> mem[a].prev.ptr < |mem| && !Free(mem, mem[a].prev.ptr)
    requires a !in v.kept ==> !(mem[a].prev.top && mem[mem[a].next].prev.end)
    ensures AllSettled(mem, v, {a} - {a}) && {a} - {a} == {}
  {
    hide HeapOk, AllSettled;
    AppendOk(mem, v, {a}, a);
    assert {a} - {a} == {};
  }

  lemma LiveArea(mem: Memory, v: View, a: Addr)
    requires HeapOk(mem, v, {}) && a in Blocks(mem, v.areas)
    ensures a in v.areas && a < |mem| && mem[a].prev.use && !mem[a].prev.end && a + 1 <= mem[a].next <= |mem|
    ensures Blocks(mem, v.areas)[a] == mem[a + 1..mem[a].next]
  {
    hide FreeQueueOk, Settled, Members, Ring, PagesOk;
    assert AreaAt(mem, v, a);
  }

  lemma ClearUse(mem: Memory, v: View, a: Addr)
    requires HeapOk(mem, v, {}) && a in v.areas && a < |mem| && mem[a].prev.use && !mem[a].prev.end
    ensures var mem' := mem[a := mem[a].(prev := mem[a].prev.(use := false))];
            HeapOk(mem', v, {a}) && Blocks(mem', v.areas) == Blocks(mem, v.areas) - {a}
  {
    hide HeapOk, Blocks;
    HeapTiled(mem, v, {});
    UseStep(mem, v, {}, a, false);
    UseBlocks(mem, v, a, false);
    assert {} + {a} == {a};
  }

  lemma HeapTiled(mem: Memory, v: View, X: set<Addr>)
    requires HeapOk(mem, v, X)
    ensures Tiled(mem, v)
  {
  }

  lemma AbsorbedFacts(mem: Memory, v: View, i: nat, a: Addr)
    requires HeapOk(mem, v, {a}) && i < |v.areas| && v.areas[i] == a
    ensures a < |mem| && Free(mem, a) && a in v.areas
    ensures !mem[a].prev.top ==>
              var p := mem[a].prev.ptr;
              p in v.areas && p < |mem| && (!mem[p].prev.use ==> Free(mem, p))
  {
    hide FreeQueueOk, Settled, Members, Ring, PagesOk;
    assert AreaAt(mem, v, a);
    assert a in Members(v.groups) + {a};
    if !mem[a].prev.top {
      PrevArea(mem, v, a);
    }
  }

  lemma PrevReady(mem: Memory, v: View, a: Addr)
    requires HeapOk(mem, v, {a}) && a in v.areas && a < |mem| && !mem[a].prev.top && !mem[a].prev.end
    requires mem[a].prev.ptr < |mem| && !mem[mem[a].prev.ptr].prev.use
    ensures var p := mem[a].prev.ptr;
            && p in Members(v.groups) && p != a && p < a && CanMerge(mem, v, p, a) && Free(mem, p)
            && (!mem[p].prev.top ==> mem[p].prev.ptr in v.areas && mem[p].prev.ptr < p && !Free(mem, mem[p].prev.ptr))
  {
    hide FreeQueueOk, Settled, Members, Ring, PagesOk;
    PrevArea(mem, v, a);
    var p := mem[a].prev.ptr;
    FreeIsQueued(mem, v, {a}, p);
    FreeBefore(mem, v, {a}, p);
  }

  /** Area p before a was free and has been taken out of the free queue. */
  ghost predicate PrevMerging(m0: Memory, m1: Memory, v0: View, v1: View, a: Addr, j: nat) {
    && HeapOk(m0, v0, {a}) && a in v0.areas && a < |m0| && Free(m0, a)
    && m0[a].prev.ptr < |m0| && CanMerge(m0, v0, m0[a].prev.ptr, a) && Free(m0, m0[a].prev.ptr) && m0[a].prev.ptr < a
    && HeapOk(m1, v1, {a} + {m0[a].prev.ptr}) && v1 == v0.(groups := v1.groups) && SameHeaders(m0, m1, v0)
    && Blocks(m1, v1.areas) == Blocks(m0, v0.areas)
    && j < |v1.areas| && v1.areas[j] == a
  }

  lemma PrevDefined(m0: Memory, m1: Memory, v0: View, v1: View, a: Addr, j: nat)
    requires PrevMerging(m0, m1, v0, v1, a, j)
    ensures var p := m0[a].prev.ptr;
            && a < |m0| == |m1| && p < |m1| && m1[a] == m0[a] && m1[p] == m0[p] && m1[p].next == a
            && m1[a].next < |m1| && p < a
            && CanMerge(m1, v1, p, a) && Tiled(m1, v1) && MergeCells(m1, AreaRemoved(m1, a), p, a)
  {
    hide FreeQueueOk, Settled, Members, Ring, PagesOk, AreaAt, MergeCells, AreaRemoved, Blocks;
    var p := m0[a].prev.ptr;
    CanMergeSame(m0, m1, v0, v1, p, a);
    MergeWrites(m1, v1, p, a);
  }

  lemma PrevHeap(m0: Memory, m1: Memory, m2: Memory, v0: View, v1: View, v2: View, a: Addr, j: nat)
    requires PrevMerging(m0, m1, v0, v1, a, j) && v2 == MergeView(v1, j)
    requires a < |m1| && m1[a].prev.ptr < |m1| && m1[a].next < |m1| && m2 == AreaRemoved(m1, a)
    ensures var p, n := m0[a].prev.ptr, m0[a].next;
            && HeapOk(m2, v2, {p}) && v2.aq == v0.aq && v2.minfrag == v0.minfrag && v2.kept == v0.kept
            && v2.pages == v0.pages
            && p in v2.areas && p < |m2| == |m0| && m2[p] == m0[p].(next := n)
            && n in v2.areas && n < |m2| && Free(m2, n) == Free(m0, n)
            && (!m0[p].prev.top ==>
                 m0[p].prev.ptr in v2.areas && m0[p].prev.ptr < |m2|
                 && Free(m2, m0[p].prev.ptr) == Free(m0, m0[p].prev.ptr))
            && Blocks(m2, v2.areas) == Blocks(m0, v0.areas)
  {
    hide FreeQueueOk, Settled, Members, Ring, PagesOk, AreaAt, MergeCells, AreaRemoved, Blocks, Cut;
    var p, n := m0[a].prev.ptr, m0[a].next;
    PrevDefined(m0, m1, v0, v1, a, j);
    MergeStep(m1, v1, {a} + {p}, p, j);
    assert {a} + {p} - {a} == {p};
    MergeFlags(m1, m2, v1, p, a);
    MergeRing(m1, v1, j);
    MergeBlocks(m1, m2, v1, p, j);
    TiledInMemory(m0, v0);
    if !m0[p].prev.top {
      PrevArea(m0, v0, p);
    }
    assert n in v0.areas && n != a;
  }

  lemma LiveContents(mem: Memory, v: View, a: Addr)
    requires Tiled(mem, v) && a in v.areas && a < |mem| && !mem[a].prev.end
    ensures a + 1 <= mem[a].next <= |mem|
    ensures mem[a].prev.use ==> a in Blocks(mem, v.areas) && Blocks(mem, v.areas)[a] == mem[a + 1..mem[a].next]
  {
    hide Ring, PagesOk;
    ControlApart(mem, v, a);
    BelowEnd(mem, v, a);
  }

  lemma MergeReady(mem: Memory, v: View, X: set<Addr>, i: nat)
    requires HeapOk(mem, v, X) && i < |v.areas| && v.areas[i] < |mem| && !mem[v.areas[i]].prev.end
    requires X == if mem[v.areas[i]].prev.use then {} else {v.areas[i]}
    ensures Tiled(mem, v)
    ensures i + 1 < |v.areas| && v.areas[i + 1] == mem[v.areas[i]].next < |mem| && v.areas[i] < v.areas[i + 1]
    ensures mem[v.areas[i + 1]].prev.ptr == v.areas[i] && !mem[v.areas[i + 1]].prev.top
    ensures Free(mem, v.areas[i + 1]) ==>
              && v.areas[i + 1] in Members(v.groups) && CanMerge(mem, v, v.areas[i], v.areas[i + 1])
              && mem[v.areas[i + 1]].next in v.areas && mem[v.areas[i + 1]].next < |mem|
              && !Quiet(mem, mem[v.areas[i + 1]].next, X)
              && v.areas[i + 1] + 1 + v.minfrag <= mem[v.areas[i + 1]].next
  {
    hide FreeQueueOk, Settled, Members, Ring, PagesOk;
    NextIndex(mem, v, i);
    if Free(mem, v.areas[i + 1]) {
      FreeIsQueued(mem, v, X, v.areas[i + 1]);
      assert AreaAt(mem, v, v.areas[i + 1]);
    }
  }

  /** Area n was free behind area a and has been taken out of the free queue. */
  ghost predicate Merging(m0: Memory, m1: Memory, v0: View, v1: View, X: set<Addr>, i: nat) {
    && HeapOk(m0, v0, X) && i + 1 < |v0.areas| && CanMerge(m0, v0, v0.areas[i], v0.areas[i + 1])
    && X == (if m0[v0.areas[i]].prev.use then {} else {v0.areas[i]})
    && Free(m0, v0.areas[i + 1])
    && HeapOk(m1, v1, X + {v0.areas[i + 1]}) && v1 == v0.(groups := v1.groups) && SameHeaders(m0, m1, v0)
    && Blocks(m1, v1.areas) == Blocks(m0, v0.areas)
  }

  lemma MergeDefined(m0: Memory, m1: Memory, v0: View, v1: View, X: set<Addr>, i: nat)
    requires Merging(m0, m1, v0, v1, X, i)
    ensures var a, n := v0.areas[i], v0.areas[i + 1];
            && a < |m0| == |m1| && n < |m0| && m1[n] == m0[n] && m1[a] == m0[a] && m1[n].prev.ptr == a
            && m1[n].next < |m1| && a < n
            && !m0[a].prev.end
            && CanMerge(m1, v1, a, n) && Tiled(m1, v1) && Tiled(m0, v0) && MergeCells(m1, AreaRemoved(m1, n), a, n)
  {
    hide FreeQueueOk, Settled, Members, Ring, PagesOk, AreaAt, MergeCells, AreaRemoved, Blocks;
    CanMergeSame(m0, m1, v0, v1, v0.areas[i], v0.areas[i + 1]);
    MergeWrites(m1, v1, v0.areas[i], v0.areas[i + 1]);
    NextIndex(m0, v0, i);
  }

  lemma MergeHeap(m0: Memory, m1: Memory, m2: Memory, v0: View, v1: View, v2: View, X: set<Addr>, i: nat)
    requires Merging(m0, m1, v0, v1, X, i) && v2 == MergeView(v1, i + 1)
    requires v0.areas[i + 1] < |m1| && m1[v0.areas[i + 1]].prev.ptr < |m1| && m1[v0.areas[i + 1]].next < |m1|
    requires m2 == AreaRemoved(m1, v0.areas[i + 1])
    ensures HeapOk(m2, v2, X) && Absorbed(m0, m2, v0, v2, i, true)
    ensures i < |v2.areas| && v2.areas[i] == v0.areas[i]
    ensures var a, n := v0.areas[i], v0.areas[i + 1];
            && a < |m0| == |m2| && n < |m0| && m2[a] == m0[a].(next := m0[n].next)
            && m0[n].next in v2.areas && m0[n].next < |m2| && !Free(m2, m0[n].next)
  {
    hide FreeQueueOk, Settled, Members, Ring, PagesOk, AreaAt, MergeCells, AreaRemoved, Blocks, Absorbed, Cut,
      SameHeaders, CanMerge;
    var a, n := v0.areas[i], v0.areas[i + 1];
    MergeDefined(m0, m1, v0, v1, X, i);
    MergeStep(m1, v1, X + {n}, a, i + 1);
    MergeReady(m0, v0, X, i);
    assert n !in X && X + {n} - {n} == X;
    AbsorbedMerge(m0, m1, m2, v0, v1, v2, i);
    CutBefore(v0.areas, i + 1, i);
    MergeFlags(m1, m2, v1, a, n);
    SameHeader(m0, m1, v0, m0[n].next);
    NotFreeBehind(m0, v0, X, n, a);
  }

  lemma NotFreeBehind(mem: Memory, v: View, X: set<Addr>, n: Addr, a: Addr)
    requires n < |mem| && mem[n].next < |mem| && !Quiet(mem, mem[n].next, X) && (X == {} || X == {a})
             && mem[n].next != a
    ensures !Free(mem, mem[n].next)
  {
  }

  lemma MergeContents(m0: Memory, m1: Memory, m2: Memory, v0: View, v1: View, v2: View, X: set<Addr>, i: nat)
    requires Merging(m0, m1, v0, v1, X, i) && v2 == MergeView(v1, i + 1)
    requires v0.areas[i + 1] < |m1| && m1[v0.areas[i + 1]].prev.ptr < |m1| && m1[v0.areas[i + 1]].next < |m1|
    requires m2 == AreaRemoved(m1, v0.areas[i + 1]) && HeapOk(m2, v2, X)
    ensures var a, n := v0.areas[i], v0.areas[i + 1];
            var B0, B2 := Blocks(m0, v0.areas), Blocks(m2, v2.areas);
            if m0[a].prev.use
            then a in B2 && a in B0 && B2 == B0[a := B2[a]] && |B2[a]| == m0[n].next - a - 1 && B0[a] <= B2[a]
            else B2 == B0
  {
    hide FreeQueueOk, Settled, Members, Ring, PagesOk, AreaAt, MergeCells, AreaRemoved, Blocks, Cut, SameHeaders,
      CanMerge;
    var a, n := v0.areas[i], v0.areas[i + 1];
    MergeDefined(m0, m1, v0, v1, X, i);
    MergeHeap(m0, m1, m2, v0, v1, v2, X, i);
    MergeRing(m1, v1, i + 1);
    MergeBlocks(m1, m2, v1, a, i + 1);
    if m0[a].prev.use {
      MergedIn(m0, m1, v0, v1, a, n);
    }
  }

  lemma MergedIn(m0: Memory, m1: Memory, v0: View, v1: View, a: Addr, n: Addr)
    requires Tiled(m0, v0) && CanMerge(m0, v0, a, n) && CanMerge(m1, v1, a, n) && m0[a].prev.use
             && m1[n].next == m0[n].next && Tiled(m1, v1)
    requires Blocks(m1, v1.areas) == Blocks(m0, v0.areas) && m1[a] == m0[a]
    ensures a in Blocks(m0, v0.areas) && n <= |m1| && Blocks(m0, v0.areas)[a] == m1[a + 1..n]
    ensures a + 1 <= n <= m0[n].next <= |m1|
    ensures m1[a + 1..n] <= m1[a + 1..m0[n].next]
  {
    hide Ring, PagesOk;
    LiveContents(m0, v0, a);
    LiveContents(m1, v1, a);
    LiveContents(m1, v1, n);
  }

  lemma PrevIn(mem: Memory, v: View, X: set<Addr>, a: Addr)
    requires HeapOk(mem, v, X) && a in v.areas && a < |mem|
    ensures !mem[a].prev.top ==> mem[a].prev.ptr in v.areas && mem[a].prev.ptr < |mem|
  {
    hide FreeQueueOk, Settled, Members;
    if !mem[a].prev.top {
      PrevArea(mem, v, a);
    }
  }

  lemma FreeMarks(mem: Memory, a: Addr)
    requires a < |mem| && Free(mem, a)
    ensures !mem[a].prev.use && !mem[a].prev.end
  {
  }

  lemma HeapParts(mem: Memory, v: View)
    requires HeapOk(mem, v, {})
    ensures FreeQueueOk(mem, v.aq + 1, v.groups) && Ring(mem, [v.aq] + v.areas) && v.minfrag >= 2
  {
  }

  lemma SearchFound(mem: Memory, v: View, k: nat, n: nat) returns (a: Addr)
    requires HeapOk(mem, v, {}) && FitsAt(mem, v.groups, k, n) && SizePlace(v.aq + 1, v.groups, k) != v.aq + 1
    ensures SizePlace(v.aq + 1, v.groups, k) == a + 1
    ensures a in Members(v.groups) && a in v.areas && a < |mem| && Free(mem, a) && a !in Blocks(mem, v.areas)
    ensures mem[a].next in v.areas && mem[a].next < |mem| && !Free(mem, mem[a].next)
    ensures n <= Size(mem, a) && !NoneFits(mem, v, n)
    ensures forall b :: b in v.areas && b < |mem| && Free(mem, b) && n <= Size(mem, b) ==> Size(mem, a) <= Size(mem, b)
  {
    hide Tiled, FreeQueueOk, Settled, Members, Blocks;
    a := Rep(v.groups[k]);
    SizeHeader(mem, v.aq + 1, v.groups, k);
    SearchBest(mem, v, k, n);
    QueuedArea(mem, v, a);
  }

  lemma SearchNothing(mem: Memory, v: View, k: nat, n: nat)
    requires HeapOk(mem, v, {}) && FitsAt(mem, v.groups, k, n) && SizePlace(v.aq + 1, v.groups, k) == v.aq + 1
    ensures NoneFits(mem, v, n)
  {
    hide Tiled, FreeQueueOk, Settled, Members, NoneFits;
    if k < |v.groups| {
      SizeHeader(mem, v.aq + 1, v.groups, k);
    }
    SearchFailed(mem, v, n);
  }

  lemma SameHeader(mem: Memory, mem': Memory, v: View, a: Addr)
    requires SameHeaders(mem, mem', v) && a in v.areas && a < |mem|
    ensures |mem'| == |mem| && mem'[a] == mem[a]
  {
  }

  lemma NewPageBlock(mem: Memory, v: View, a: Addr, v': View, len: nat)
    requires len > 0 && v' == AddView(v, a, len) && a !in v.areas
    ensures a in v'.areas && a !in Blocks(mem, v.areas) && v'.pages == v.pages[a := len]
  {
    assert v'.areas[0] == a;
  }

  lemma AllocatedPages(mem: Memory, mem': Memory, v: View, v': View, i: nat, q: Addr, rest: bool)
    requires Allocated(mem, mem', v, v', i, q, rest)
    ensures v'.pages == v.pages && v'.kept == v.kept
  {
  }

  lemma PagesSuffice(n: nat, pagesz: nat)
    requires pagesz > 0
    ensures (n + 2 + (pagesz - 1)) / pagesz * pagesz >= n + 2
  {
    var x := n + 2 + (pagesz - 1);
    assert x == x / pagesz * pagesz + x % pagesz;
  }

  lemma {:induction false} Multiples(i: nat, k: nat, c: nat)
    requires i < k
    ensures i * c + c <= k * c
    decreases k
  {
    assert k * c == (k - 1) * c + c;
    if i + 1 < k {
      Multiples(i, k - 1, c);
    }
  }

  lemma AddDefined(mem: Memory, v: View, t: Addr, len: nat)
    requires HeapOk(mem, v, {}) && CanAdd(mem, v, t, len)
    ensures v.aq < |mem| && t + len - 1 < |mem| && t != v.aq && t + len - 1 != v.aq && t != t + len - 1
    ensures mem[v.aq].next < |mem|
    ensures AreaInserted(mem, v.aq, t + len - 1)[v.aq].next < |mem|
  {
    AddFresh(mem, v, t, len);
  }

  lemma PageAdded(mem: Memory, v: View, t: Addr, len: nat, m1: Memory, m2: Memory, m3: Memory, mem': Memory)
    requires HeapOk(mem, v, {}) && CanAdd(mem, v, t, len) && Adding(mem, v.aq, t, t + len - 1, m1, m2, m3, mem')
    ensures HeapOk(mem', AddView(v, t, len), {t}) && t !in v.areas
    ensures AddView(v, t, len).aq == v.aq && AddView(v, t, len).minfrag == v.minfrag
            && AddView(v, t, len).kept == v.kept
    ensures Blocks(mem', AddView(v, t, len).areas) == Blocks(mem, v.areas)
    ensures t < |mem'| && mem'[t].prev.top && t in AddView(v, t, len).areas
    ensures Free(mem', t) && mem'[t].next == t + len - 1 < |mem'| && t + len - 1 in AddView(v, t, len).areas
            && !Free(mem', t + len - 1)
  {
    hide FreeQueueOk, Ring, AreaAt, PagesOk, Members, Settled, AreaInserted, Granted, AddCells, Blocks, Adding;
    AddStep(mem, v, {}, t, len, m1, m2, m3, mem');
    AddBlocks(mem, mem', v, t, len);
    ControlOutside(mem, v);
    AddFlags(mem, mem', v, t, len);
    assert {} + {t} == {t} && AddView(v, t, len).areas[0] == t && AddView(v, t, len).areas[1] == t + len - 1;
  }

  lemma AddingIs(mem: Memory, aq: Addr, p: Addr, e: Addr, m1: Memory, m2: Memory, m3: Memory, m4: Memory)
    requires aq < |mem| && p < |mem| && e < |mem| && mem[aq].next < |mem| && m1 == AreaInserted(mem, aq, e)
    requires m1[aq].next < |m1| && m2 == AreaInserted(m1, aq, p)
    requires m3 == m2[p := m2[p].(prev := m2[p].prev.(top := true))]
    requires m4 == m3[e := m3[e].(prev := m3[e].prev.(end := true))]
    ensures Adding(mem, aq, p, e, m1, m2, m3, m4)
  {
  }

  lemma CountNone(mem: Memory)
    ensures UsedCells(mem, []) == 0 && FreeCells(mem, []) == 0
  {
  }

  lemma CountOne(mem: Memory, R: seq<Addr>, i: nat)
    requires AllIn(mem, R) && i < |R|
    ensures var a := R[i];
            && UsedCells(mem, R[..i + 1])
               == UsedCells(mem, R[..i]) + (if mem[a].prev.use && !mem[a].prev.end then mem[a].next - a else 0)
            && FreeCells(mem, R[..i + 1])
               == FreeCells(mem, R[..i]) + (if mem[a].prev.end then 1
                                          else if mem[a].prev.use then 0 else mem[a].next - a)
    ensures R[..i + 1] == R[..i] + [R[i]]
  {
    assert R[..i + 1][..i] == R[..i];
  }

  lemma KnownIs(mem: Memory, v: View, ptr: Addr)
    requires Tiled(mem, v) && AllIn(mem, v.areas)
    ensures (ptr == NULL || ptr - 1 in Blocks(mem, v.areas)) <==>
            (ptr == NULL || exists a :: a in v.areas && a + 1 == ptr && mem[a].prev.use && !mem[a].prev.end)
  {
    hide Ring, PagesOk;
    if ptr != NULL && ptr - 1 in v.areas {
      assert AreaAt(mem, v, ptr - 1);
      ControlApart(mem, v, ptr - 1);
      BelowEnd(mem, v, ptr - 1);
    }
  }

  lemma EmptyHeap(memory: Memory, mem: Memory, v: View)
    requires v.aq + 2 <= |memory| && v.minfrag >= 2 && v.areas == [] && v.groups == [] && v.pages == map[]
    requires mem == Initialized(Initialized(memory, v.aq), v.aq + 1)
    ensures HeapOk(mem, v, {}) && Blocks(mem, v.areas) == map[]
  {
    assert [v.aq] + v.areas == [v.aq] && LinkAt(mem, [v.aq], 0);
    assert SizeRing(v.aq + 1, []) == [v.aq + 1] && LinkAt(mem, [v.aq + 1], 0);
  }

  lemma SplitPrefix(mem: Memory, mem': Memory, v: View, R: seq<Addr>, a: Addr, q: Addr)
    requires a < |mem| && mem[a].prev.use && a + 1 <= q <= |mem|
             && Blocks(mem', R) == Blocks(mem, v.areas)[a := mem[a + 1..q]]
    requires a < |mem'| && mem'[a].next == q
    ensures q <= |mem'| && mem'[a + 1..q] == mem[a + 1..q]
  {
    assert a in Blocks(mem', R);
  }

  lemma SizeIs(mem: Memory, a: Addr)
    requires a < |mem|
    ensures Size(mem, a) == mem[a].next - (a + 1)
  {
  }

  lemma WithUseSame(mem: Memory, a: Addr)
    requires a < |mem| && !mem[a].prev.use
    ensures mem[a := mem[a].(prev := mem[a].prev.(use := false))] == mem
  {
  }

  lemma AppendedIs(mem: Memory, a: Addr, q: Addr)
    requires a + 2 < |mem| && q < |mem| && mem[q].prev.ptr < |mem|
    ensures Appended(mem, a, q) == Initialized(Inserted(mem, a + 1, q), a + 2)
  {
  }

  lemma PromotingMeans(mem: Memory, a: Addr, b: Addr, m1: Memory, m2: Memory, m3: Memory)
    requires Promoting(mem, a, b, m1, m2, m3)
    ensures a + 2 < |mem| && b + 2 < |mem| == |m1| == |m2| == |m3|
    ensures mem[a + 2].prev.ptr < |mem| && mem[a + 2].next < |mem| && m1 == Removed(mem, a + 2)
    ensures m1[b + 1].prev.ptr < |mem| && m2 == Inserted(m1, b + 2, b + 1)
    ensures m2[b + 1].prev.ptr < |mem| && m2[b + 1].next < |mem| && m3 == Removed(m2, b + 1)
  {
  }

  lemma ReplacingMeans(mem: Memory, a: Addr, b: Addr, m1: Memory, m2: Memory)
    requires Replacing(mem, a, b, m1, m2)
    ensures a + 2 < |mem| && b + 2 < |mem| == |m1| == |m2|
    ensures mem[a + 1].prev.ptr < |mem| && m1 == Inserted(mem, b + 1, a + 1)
    ensures m1[a + 1].prev.ptr < |mem| && m1[a + 1].next < |mem| && m2 == Removed(m1, a + 1)
  {
  }
}
