/**
 Doubly linked rings in memory: the queue operations of queue.h and the two area queue operations of
 the allocator, which keep flags in the low bits of the prev word. Memory is a sequence of cells of
 eight bytes; an address is an index into it.
 */
module Rings {
  import opened Common

  type Addr = nat

  // A prev word: a pointer and the three flags in its low bits.
  datatype Word = Word(ptr: Addr, use: bool, top: bool, end: bool)

  datatype Cell = Cell(next: Addr, prev: Word)

  type Memory = seq<Cell>

  function Plain(a: Addr): Word {
    Word(a, false, false, false)
  }

  function Nx(i: nat, n: nat): nat
    requires i < n
    ensures Nx(i, n) < n
  {
    if i + 1 == n then 0 else i + 1
  }

  function Pv(i: nat, n: nat): nat
    requires i < n
    ensures Pv(i, n) < n
  {
    if i == 0 then n - 1 else i - 1
  }

  /** Cell s[i] points to its two neighbours. */
  ghost predicate LinkAt(mem: Memory, s: seq<Addr>, i: nat)
    requires i < |s|
  {
    s[i] < |mem| && mem[s[i]].next == s[Nx(i, |s|)] && mem[s[i]].prev.ptr == s[Pv(i, |s|)]
  }

  /** The cells at the addresses s, in this order, form a ring. */
  ghost predicate Ring(mem: Memory, s: seq<Addr>) {
    && |s| > 0 && Distinct(s)
    && (forall i :: 0 <= i < |s| ==> s[i] < |mem|)
    && (forall i :: 0 <= i < |s| ==> LinkAt(mem, s, i))
  }

  ghost predicate SameOn(mem: Memory, mem': Memory, s: seq<Addr>) {
    |mem| == |mem'| && forall i :: 0 <= i < |s| && s[i] < |mem| ==> mem'[s[i]] == mem[s[i]]
  }

  lemma RingFrame(mem: Memory, mem': Memory, s: seq<Addr>)
    requires Ring(mem, s) && SameOn(mem, mem', s)
    ensures Ring(mem', s)
  {
    forall i | 0 <= i < |s| ensures LinkAt(mem', s, i) {
      assert LinkAt(mem, s, i);
    }
  }

  // ---------------------------------------------------------------- queue.h

  function SetNext(mem: Memory, a: Addr, n: Addr): Memory
    requires a < |mem|
  {
    mem[a := mem[a].(next := n)]
  }

  function SetPrev(mem: Memory, a: Addr, w: Word): Memory
    requires a < |mem|
  {
    mem[a := mem[a].(prev := w)]
  }

  /** Assign: give a prev word a new pointer and keep its flags. */
  function SetPrevPtr(mem: Memory, a: Addr, p: Addr): Memory
    requires a < |mem|
  {
    SetPrev(mem, a, mem[a].prev.(ptr := p))
  }

  function Initialized(mem: Memory, e: Addr): Memory
    requires e < |mem|
  {
    mem[e := Cell(e, Plain(e))]
  }

  function Inserted(mem: Memory, e: Addr, q: Addr): Memory
    requires e < |mem| && q < |mem| && mem[q].prev.ptr < |mem|
    ensures |Inserted(mem, e, q)| == |mem|
  {
    var p := mem[q].prev.ptr;
    SetPrev(SetNext(mem[e := Cell(q, mem[q].prev)], p, e), q, Plain(e))
  }

  function Removed(mem: Memory, e: Addr): Memory
    requires e < |mem| && mem[e].prev.ptr < |mem| && mem[e].next < |mem|
    ensures |Removed(mem, e)| == |mem|
  {
    if mem[e].next != e
    then SetPrev(SetNext(mem, mem[e].prev.ptr, mem[e].next), mem[e].next, mem[e].prev)
    else mem
  }

  function Cut(s: seq<Addr>, k: nat): seq<Addr>
    requires k < |s|
  {
    s[..k] + s[k + 1..]
  }

  lemma InitRing(mem: Memory, e: Addr)
    requires e < |mem|
    ensures Ring(Initialized(mem, e), [e])
  {
    assert LinkAt(Initialized(mem, e), [e], 0);
  }

  /** What QueInsert writes: the new cell and the pointers of its two neighbours. */
  lemma InsertedCells(mem: Memory, s: seq<Addr>, k: nat, e: Addr)
    requires Ring(mem, s) && k < |s| && e < |mem| && e !in s
    ensures s[k] < |mem| && mem[s[k]].prev.ptr < |mem|
    ensures var q := s[k];
            var p := s[Pv(k, |s|)];
            var mem' := Inserted(mem, e, q);
            && mem'[e].next == q && mem'[e].prev.ptr == p
            && mem'[p].next == e && mem'[q].prev.ptr == e
            && (q != p ==> mem'[q].next == mem[q].next && mem'[p].prev == mem[p].prev)
            && forall a :: 0 <= a < |mem| && a != e && a != q && a != p ==> mem'[a] == mem[a]
  {
    assert LinkAt(mem, s, k);
  }

  /** What cell i of a ring points to. */
  lemma LinksOf(mem: Memory, s: seq<Addr>, i: nat)
    requires Ring(mem, s) && i < |s|
    ensures s[i] < |mem| && mem[s[i]].next == s[Nx(i, |s|)] && mem[s[i]].prev.ptr == s[Pv(i, |s|)]
  {
    assert LinkAt(mem, s, i);
  }

  lemma CellsApart(mem: Memory, s: seq<Addr>, i: nat, j: nat)
    requires Ring(mem, s) && i < |s| && j < |s|
    ensures s[i] == s[j] <==> i == j
  {
  }

  lemma Neighbours(i: nat, j: nat, n: nat)
    requires i < n && j < n
    ensures Nx(i, n) == j <==> i == Pv(j, n)
  {
  }

  lemma Successor(k: nat, n: nat)
    requires k < n
    ensures Nx(k, n) == (if k + 1 == n then 0 else k + 1) && Pv(Nx(k, n), n) == k
  {
  }

  /** The neighbours in the ring without s[k]. */
  lemma CutAt(s: seq<Addr>, k: nat, i: nat)
    requires k < |s| && i < |s| - 1
    ensures var n, r, j := |s|, Cut(s, k), if i < k then i else i + 1;
            && |r| == n - 1 && r[i] == s[j]
            && r[Nx(i, n - 1)] == s[if Nx(j, n) == k then Nx(k, n) else Nx(j, n)]
            && r[Pv(i, n - 1)] == s[if Pv(j, n) == k then Pv(k, n) else Pv(j, n)]
  {
  }

  /** The neighbours in the ring with e in front of place k. */
  lemma InsertNeighbours(s: seq<Addr>, k: nat, e: Addr, i: nat)
    requires k <= |s| && i <= |s| && |s| > 0
    ensures var n, r := |s|, InsertAt(s, k, e);
            var p, q := Pv(if k == n then 0 else k, n), if k == n then 0 else k;
            && |r| == n + 1
            && (i == k ==> r[i] == e && r[Nx(i, n + 1)] == s[q] && r[Pv(i, n + 1)] == s[p])
            && (i != k ==>
                  var j := if i < k then i else i - 1;
                  && j < n && r[i] == s[j]
                  && r[Nx(i, n + 1)] == (if j == p then e else s[Nx(j, n)])
                  && r[Pv(i, n + 1)] == (if j == q then e else s[Pv(j, n)]))
  {
  }

  lemma InsertedLinks(mem: Memory, s: seq<Addr>, k: nat, e: Addr, i: nat)
    requires Ring(mem, s) && k < |s| && e < |mem| && e !in s && i <= |s|
    requires s[k] < |mem| && mem[s[k]].prev.ptr < |mem|
    ensures LinkAt(Inserted(mem, e, s[k]), InsertAt(s, k, e), i)
  {
    hide Ring, Inserted, InsertAt, Nx, Pv;
    var n := |s|;
    InsertedCells(mem, s, k, e);
    InsertNeighbours(s, k, e, i);
    if i != k {
      var j := if i < k then i else i - 1;
      LinksOf(mem, s, j);
      CellsApart(mem, s, j, k);
      CellsApart(mem, s, j, Pv(k, n));
      assert s[j] in s;
    }
  }

  /** QueInsert links e in before s[k]; before s[0] is the same as behind the last one. */
  lemma InsertRing(mem: Memory, s: seq<Addr>, k: nat, e: Addr)
    requires Ring(mem, s) && k < |s| && e < |mem| && e !in s
    ensures s[k] < |mem| && mem[s[k]].prev.ptr < |mem|
    ensures Ring(Inserted(mem, e, s[k]), InsertAt(s, k, e))
  {
    hide Inserted, InsertAt, Distinct;
    var r := InsertAt(s, k, e);
    LinksOf(mem, s, k);
    assert Distinct(r) && |r| == |s| + 1 by {
      InsertFacts(s, k, e);
      InsertedAt(s, k, e);
    }
    forall i | 0 <= i < |r| ensures r[i] < |mem| && LinkAt(Inserted(mem, e, s[k]), r, i) {
      InsertedLinks(mem, s, k, e, i);
    }
  }

  lemma Rotate(mem: Memory, s: seq<Addr>)
    requires Ring(mem, s)
    ensures Ring(mem, s[1..] + [s[0]])
  {
    var n := |s|;
    var r := s[1..] + [s[0]];
    forall i | 0 <= i < n ensures r[i] == s[Nx(i, n)] {
    }
    forall i | 0 <= i < n ensures LinkAt(mem, r, i) {
      assert LinkAt(mem, s, Nx(i, n));
      assert r[Nx(i, n)] == s[Nx(Nx(i, n), n)] && r[Pv(i, n)] == s[i];
    }
  }

  lemma InsertRingEnd(mem: Memory, s: seq<Addr>, e: Addr)
    requires Ring(mem, s) && e < |mem| && e !in s
    ensures s[0] < |mem| && mem[s[0]].prev.ptr < |mem|
    ensures Ring(Inserted(mem, e, s[0]), s + [e])
  {
    InsertRing(mem, s, 0, e);
    Rotate(Inserted(mem, e, s[0]), InsertAt(s, 0, e));
    assert InsertAt(s, 0, e)[1..] + [e] == s + [e];
  }

  lemma RemovedCells(mem: Memory, s: seq<Addr>, k: nat)
    requires Ring(mem, s) && k < |s| && |s| > 1
    ensures s[k] < |mem| && mem[s[k]].next != s[k]
    ensures var p := s[Pv(k, |s|)];
            var n := s[Nx(k, |s|)];
            && mem[s[k]].prev.ptr == p < |mem| && mem[s[k]].next == n < |mem|
            && var mem' := Removed(mem, s[k]);
            && mem'[p].next == n && mem'[n].prev == mem[s[k]].prev
            && (p != n ==> mem'[p].prev == mem[p].prev && mem'[n].next == mem[n].next)
            && forall a :: 0 <= a < |mem| && a != p && a != n ==> mem'[a] == mem[a]
  {
    assert LinkAt(mem, s, k) && Nx(k, |s|) != k && Pv(k, |s|) != k;
  }

  lemma RemovedNext(mem: Memory, s: seq<Addr>, k: nat, i: nat)
    requires Ring(mem, s) && k < |s| && |s| > 1 && i < |s| - 1
    requires s[k] < |mem| && mem[s[k]].prev.ptr < |mem| && mem[s[k]].next < |mem|
    ensures var r := Cut(s, k);
            |r| == |s| - 1 && r[i] < |mem| && Removed(mem, s[k])[r[i]].next == r[Nx(i, |r|)]
  {
    hide Ring, Removed, Cut, Nx, Pv;
    var n := |s|;
    var j := if i < k then i else i + 1;
    RemovedCells(mem, s, k);
    CutAt(s, k, i);
    LinksOf(mem, s, j);
    Neighbours(j, k, n);
    Neighbours(k, j, n);
    CellsApart(mem, s, j, Pv(k, n));
    CellsApart(mem, s, j, Nx(k, n));
  }

  lemma RemovedPrev(mem: Memory, s: seq<Addr>, k: nat, i: nat)
    requires Ring(mem, s) && k < |s| && |s| > 1 && i < |s| - 1
    requires s[k] < |mem| && mem[s[k]].prev.ptr < |mem| && mem[s[k]].next < |mem|
    ensures var r := Cut(s, k);
            |r| == |s| - 1 && r[i] < |mem| && Removed(mem, s[k])[r[i]].prev.ptr == r[Pv(i, |r|)]
  {
    hide Ring, Removed, Cut, Nx, Pv;
    var n := |s|;
    var j := if i < k then i else i + 1;
    RemovedCells(mem, s, k);
    CutAt(s, k, i);
    LinksOf(mem, s, j);
    Neighbours(j, k, n);
    Neighbours(k, j, n);
    CellsApart(mem, s, j, Pv(k, n));
    CellsApart(mem, s, j, Nx(k, n));
  }

  lemma DistinctCut(s: seq<Addr>, k: nat)
    requires k < |s| && Distinct(s)
    ensures Distinct(Cut(s, k)) && s[k] !in Cut(s, k)
    ensures forall x :: x in s <==> x == s[k] || x in Cut(s, k)
  {
    var r := Cut(s, k);
    forall i | 0 <= i < |r| ensures r[i] == s[if i < k then i else i + 1] {
    }
    forall x | x in s && x != s[k] ensures x in r {
      var i :| 0 <= i < |s| && s[i] == x;
      assert r[if i < k then i else i - 1] == x;
    }
  }

  /** QueRemove takes s[k] out of its ring. */
  lemma RemoveRing(mem: Memory, s: seq<Addr>, k: nat)
    requires Ring(mem, s) && k < |s| && |s| > 1
    ensures s[k] < |mem| && mem[s[k]].prev.ptr < |mem| && mem[s[k]].next < |mem|
    ensures Ring(Removed(mem, s[k]), Cut(s, k))
  {
    var r := Cut(s, k);
    RemovedCells(mem, s, k);
    DistinctCut(s, k);
    forall i | 0 <= i < |r| ensures LinkAt(Removed(mem, s[k]), r, i) {
      RemovedNext(mem, s, k, i);
      RemovedPrev(mem, s, k, i);
    }
  }

  /** Nothing but the cells s has changed. */
  ghost predicate Only(mem: Memory, mem': Memory, s: seq<Addr>) {
    |mem'| == |mem| && forall c :: 0 <= c < |mem| && mem'[c] != mem[c] ==> c in s
  }

  lemma OnlyTwice(m0: Memory, m1: Memory, m2: Memory, s: seq<Addr>, r: seq<Addr>, q: seq<Addr>)
    requires Only(m0, m1, s) && Only(m1, m2, r)
    requires forall c :: c in s || c in r ==> c in q
    ensures Only(m0, m2, q)
  {
    forall c | 0 <= c < |m0| && m2[c] != m0[c] ensures c in q {
      assert m1[c] == m0[c] || m2[c] == m1[c] || c in s;
    }
  }

  lemma InsertStep(mem: Memory, s: seq<Addr>, k: nat, e: Addr)
    requires Ring(mem, s) && k < |s| && e < |mem| && e !in s
    ensures s[k] < |mem| && mem[s[k]].prev.ptr < |mem|
    ensures Ring(Inserted(mem, e, s[k]), InsertAt(s, k, e)) && Only(mem, Inserted(mem, e, s[k]), InsertAt(s, k, e))
  {
    InsertRing(mem, s, k, e);
    InsertedCells(mem, s, k, e);
    var r := InsertAt(s, k, e);
    assert r[k] == e && r[k + 1] == s[k] && s[Pv(k, |s|)] == r[if k == 0 then |s| else k - 1];
  }

  lemma RemoveStep(mem: Memory, s: seq<Addr>, k: nat)
    requires Ring(mem, s) && k < |s| && |s| > 1
    ensures s[k] < |mem| && mem[s[k]].prev.ptr < |mem| && mem[s[k]].next < |mem|
    ensures Ring(Removed(mem, s[k]), Cut(s, k)) && Only(mem, Removed(mem, s[k]), Cut(s, k))
  {
    RemoveRing(mem, s, k);
    RemovedCells(mem, s, k);
    var r := Cut(s, k);
    var n := |s|;
    assert s[Nx(k, n)] == r[if k + 1 == n then 0 else k];
    assert s[Pv(k, n)] == r[if k == 0 then n - 2 else k - 1];
  }

  // ---------------------------------------------------------------- area queue

  /** insertAreaQue: link ent in behind que, keeping the flags of the cell after it. */
  function AreaInserted(mem: Memory, que: Addr, ent: Addr): Memory
    requires que < |mem| && ent < |mem| && mem[que].next < |mem|
    ensures |AreaInserted(mem, que, ent)| == |mem|
  {
    var n := mem[que].next;
    SetNext(SetPrevPtr(mem[ent := Cell(n, Plain(que))], n, ent), que, ent)
  }

  /** removeAreaQue: unlink a, keeping the flags of the cell after it. */
  function AreaRemoved(mem: Memory, a: Addr): Memory
    requires a < |mem| && mem[a].prev.ptr < |mem| && mem[a].next < |mem|
    ensures |AreaRemoved(mem, a)| == |mem|
  {
    SetPrevPtr(SetNext(mem, mem[a].prev.ptr, mem[a].next), mem[a].next, mem[a].prev.ptr)
  }

  lemma AreaInsertedCells(mem: Memory, s: seq<Addr>, k: nat, e: Addr)
    requires Ring(mem, s) && k < |s| && e < |mem| && e !in s
    ensures var q := s[k];
            var n := s[Nx(k, |s|)];
            && q < |mem| && mem[q].next == n < |mem|
            && var mem' := AreaInserted(mem, q, e);
            && mem'[e] == Cell(n, Plain(q))
            && mem'[q].next == e && mem'[n].prev == mem[n].prev.(ptr := e)
            && (q != n ==> mem'[n].next == mem[n].next && mem'[q].prev == mem[q].prev)
            && forall a :: 0 <= a < |mem| && a != e && a != q && a != n ==> mem'[a] == mem[a]
  {
    assert LinkAt(mem, s, k);
  }

  lemma AreaInsertedLinks(mem: Memory, s: seq<Addr>, k: nat, e: Addr, i: nat)
    requires Ring(mem, s) && k < |s| && e < |mem| && e !in s && i <= |s|
    requires s[k] < |mem| && mem[s[k]].next < |mem|
    ensures LinkAt(AreaInserted(mem, s[k], e), InsertAt(s, k + 1, e), i)
  {
    hide Ring, AreaInserted, InsertAt, Nx, Pv;
    var n := |s|;
    AreaInsertedCells(mem, s, k, e);
    InsertNeighbours(s, k + 1, e, i);
    Successor(k, n);
    if i != k + 1 {
      var j := if i <= k then i else i - 1;
      LinksOf(mem, s, j);
      CellsApart(mem, s, j, k);
      CellsApart(mem, s, j, Nx(k, n));
      assert s[j] in s;
    }
  }

  lemma AreaInsertRing(mem: Memory, s: seq<Addr>, k: nat, e: Addr)
    requires Ring(mem, s) && k < |s| && e < |mem| && e !in s
    ensures s[k] < |mem| && mem[s[k]].next < |mem|
    ensures Ring(AreaInserted(mem, s[k], e), InsertAt(s, k + 1, e))
  {
    hide AreaInserted, InsertAt, Distinct;
    var r := InsertAt(s, k + 1, e);
    assert Distinct(r) && |r| == |s| + 1 by {
      InsertFacts(s, k + 1, e);
      InsertedAt(s, k + 1, e);
    }
    AreaInsertedCells(mem, s, k, e);
    forall i | 0 <= i < |r| ensures r[i] < |mem| && LinkAt(AreaInserted(mem, s[k], e), r, i) {
      AreaInsertedLinks(mem, s, k, e, i);
    }
  }

  lemma AreaRemovedCells(mem: Memory, s: seq<Addr>, k: nat)
    requires Ring(mem, s) && k < |s| && |s| > 1
    ensures var p := s[Pv(k, |s|)];
            var n := s[Nx(k, |s|)];
            && s[k] < |mem| && mem[s[k]].prev.ptr == p < |mem| && mem[s[k]].next == n < |mem|
            && var mem' := AreaRemoved(mem, s[k]);
            && mem'[p].next == n && mem'[n].prev == mem[n].prev.(ptr := p)
            && (p != n ==> mem'[p].prev == mem[p].prev && mem'[n].next == mem[n].next)
            && forall a :: 0 <= a < |mem| && a != p && a != n ==> mem'[a] == mem[a]
  {
    assert LinkAt(mem, s, k) && Nx(k, |s|) != k && Pv(k, |s|) != k;
  }

  lemma AreaRemovedLinks(mem: Memory, s: seq<Addr>, k: nat, i: nat)
    requires Ring(mem, s) && k < |s| && |s| > 1 && i < |s| - 1
    requires s[k] < |mem| && mem[s[k]].prev.ptr < |mem| && mem[s[k]].next < |mem|
    ensures LinkAt(AreaRemoved(mem, s[k]), Cut(s, k), i)
  {
    hide Ring, AreaRemoved, Cut, Nx, Pv;
    var n := |s|;
    var j := if i < k then i else i + 1;
    AreaRemovedCells(mem, s, k);
    CutAt(s, k, i);
    LinksOf(mem, s, j);
    Neighbours(j, k, n);
    Neighbours(k, j, n);
    CellsApart(mem, s, j, Pv(k, n));
    CellsApart(mem, s, j, Nx(k, n));
  }

  lemma AreaRemoveRing(mem: Memory, s: seq<Addr>, k: nat)
    requires Ring(mem, s) && k < |s| && |s| > 1
    ensures s[k] < |mem| && mem[s[k]].prev.ptr < |mem| && mem[s[k]].next < |mem|
    ensures Ring(AreaRemoved(mem, s[k]), Cut(s, k))
  {
    var r := Cut(s, k);
    AreaRemovedCells(mem, s, k);
    DistinctCut(s, k);
    forall i | 0 <= i < |r| ensures LinkAt(AreaRemoved(mem, s[k]), r, i) {
      AreaRemovedLinks(mem, s, k, i);
    }
  }
}
