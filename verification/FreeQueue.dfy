/**
 The allocator's two-tier free queue: a ring of areas of different sizes in ascending order, and for
 each of them a ring of further areas of the same size. A free area with header cell a keeps its
 size-order links in cell a + 1 and the head of its same-size ring in cell a + 2.
 */
module FreeQueue {
  import opened Common
  import opened Rings

  type Groups = seq<seq<Addr>>

  /** The size of area a in cells, without its header. */
  function Size(mem: Memory, a: Addr): int
    requires a < |mem|
  {
    mem[a].next - a - 1
  }

  function Rep(g: seq<Addr>): Addr {
    if g == [] then 0 else g[0]
  }

  /** The ring of the size order: the queue head fq and the representatives of the groups. */
  function SizeRing(fq: Addr, F: Groups): seq<Addr> {
    [fq] + seq(|F|, k requires 0 <= k < |F| => Rep(F[k]) + 1)
  }

  /** The same-size ring of a group: its head in the representative, then the other areas. */
  function SameRing(g: seq<Addr>): seq<Addr> {
    seq(|g|, j requires 0 <= j < |g| => if j == 0 then g[0] + 2 else g[j] + 1)
  }

  function Members(F: Groups): set<Addr> {
    set k, j | 0 <= k < |F| && 0 <= j < |F[k]| :: F[k][j]
  }

  ghost predicate Spread(a: Addr, b: Addr) {
    a + 3 <= b || b + 3 <= a
  }

  /** Free areas do not overlap each other or the queue head. */
  ghost predicate Spaced(fq: Addr, S: set<Addr>) {
    && (forall a, b :: a in S && b in S && a != b ==> Spread(a, b))
    && (forall a :: a in S ==> a + 3 <= fq || fq < a)
  }

  ghost predicate GroupOk(mem: Memory, g: seq<Addr>) {
    && |g| > 0 && Distinct(g)
    && (forall j :: 0 <= j < |g| ==> g[j] + 2 < |mem|)
    && Ring(mem, SameRing(g))
    && (forall j :: 1 <= j < |g| ==> Ring(mem, [g[j] + 2]))
    && (forall j :: 0 <= j < |g| ==> Size(mem, g[j]) == Size(mem, g[0]))
  }

  ghost predicate Ascending(mem: Memory, F: Groups) {
    forall k, l :: 0 <= k < l < |F| && Rep(F[k]) < |mem| && Rep(F[l]) < |mem| ==>
             Size(mem, Rep(F[k])) < Size(mem, Rep(F[l]))
  }

  ghost predicate GroupsOk(mem: Memory, fq: Addr, F: Groups) {
    && (forall k :: 0 <= k < |F| ==> GroupOk(mem, F[k]))
    && Ascending(mem, F)
    && Spaced(fq, Members(F))
  }

  /** The queue holds its areas once each, in strictly ascending size, equal sizes in one ring. */
  ghost predicate FreeQueueOk(mem: Memory, fq: Addr, F: Groups) {
    Ring(mem, SizeRing(fq, F)) && GroupsOk(mem, fq, F)
  }

  /** Only link cells of the areas in S and the queue head have changed. */
  ghost predicate Touched(mem: Memory, mem': Memory, fq: Addr, S: set<Addr>) {
    && |mem| == |mem'|
    && forall c :: 0 <= c < |mem| && c != fq && c - 1 !in S && c - 2 !in S ==> mem'[c] == mem[c]
  }

  ghost predicate LinkCell(c: int, fq: Addr, F: Groups, S: set<Addr>) {
    c == fq || (exists l :: 0 <= l < |F| && c == Rep(F[l]) + 1) || c - 1 in S || c - 2 in S
  }

  /** Only the size order and the link cells of the areas in S have changed. */
  ghost predicate Linking(mem: Memory, mem': Memory, fq: Addr, F: Groups, S: set<Addr>) {
    |mem'| == |mem| && forall c :: 0 <= c < |mem| && mem'[c] != mem[c] ==> LinkCell(c, fq, F, S)
  }

  // ---------------------------------------------------------------- frames

  lemma MemberOf(F: Groups, k: nat, j: nat)
    requires k < |F| && j < |F[k]|
    ensures F[k][j] in Members(F)
  {
  }

  lemma SpacedLess(fq: Addr, S: set<Addr>, S': set<Addr>)
    requires Spaced(fq, S) && S' <= S
    ensures Spaced(fq, S')
  {
  }

  lemma GroupFacts(mem: Memory, g: seq<Addr>)
    requires GroupOk(mem, g)
    ensures |g| > 0 && Distinct(g)
    ensures forall j :: 0 <= j < |g| ==> g[j] + 2 < |mem| && Size(mem, g[j]) == Size(mem, g[0])
  {
  }

  lemma SameRingIs(g: seq<Addr>)
    requires |g| > 0
    ensures |SameRing(g)| == |g| && SameRing(g)[0] == g[0] + 2
    ensures forall j :: 1 <= j < |g| ==> SameRing(g)[j] == g[j] + 1
  {
  }

  lemma GroupFrame(mem: Memory, mem': Memory, g: seq<Addr>)
    requires GroupOk(mem, g) && |mem| == |mem'|
    requires forall j :: 0 <= j < |g| ==> mem'[g[j]] == mem[g[j]] && mem'[g[j] + 2] == mem[g[j] + 2]
    requires forall j :: 1 <= j < |g| ==> mem'[g[j] + 1] == mem[g[j] + 1]
    ensures GroupOk(mem', g)
  {
    RingFrame(mem, mem', SameRing(g));
    forall j | 1 <= j < |g| ensures Ring(mem', [g[j] + 2]) {
      RingFrame(mem, mem', [g[j] + 2]);
    }
  }

  /** Areas of two different groups are different areas. */
  lemma GroupsApart(mem: Memory, F: Groups, k: nat, l: nat, i: nat, j: nat)
    requires forall n :: 0 <= n < |F| ==> GroupOk(mem, F[n])
    requires Ascending(mem, F) && k < |F| && l < |F| && k != l && i < |F[k]| && j < |F[l]|
    ensures F[k][i] != F[l][j]
  {
    assert GroupOk(mem, F[k]) && GroupOk(mem, F[l]);
    assert Size(mem, F[k][i]) == Size(mem, Rep(F[k])) && Size(mem, F[l][j]) == Size(mem, Rep(F[l]));
  }

  /** A group whose own cells are far from everything that changed. */
  lemma GroupUntouched(mem: Memory, mem': Memory, fq: Addr, F: Groups, k: nat, S: set<Addr>)
    requires GroupsOk(mem, fq, F) && k < |F|
    requires Linking(mem, mem', fq, F, S)
    requires forall a, j :: a in S && 0 <= j < |F[k]| ==> Spread(a, F[k][j])
    ensures GroupOk(mem', F[k])
  {
    var g := F[k];
    assert GroupOk(mem, g);
    forall j | 0 <= j < |g|
      ensures mem'[g[j]] == mem[g[j]] && mem'[g[j] + 2] == mem[g[j] + 2]
      ensures j >= 1 ==> mem'[g[j] + 1] == mem[g[j] + 1]
    {
      MemberOf(F, k, j);
      forall l | 0 <= l < |F|
        ensures F[l] != [] && (F[l][0] == g[j] || Spread(F[l][0], g[j])) && (j >= 1 ==> F[l][0] != g[j])
      {
        assert GroupOk(mem, F[l]);
        MemberOf(F, l, 0);
        if l != k {
          GroupsApart(mem, F, l, k, 0, j);
        }
      }
    }
    GroupFrame(mem, mem', g);
  }

  // ---------------------------------------------------------------- registration

  /** appendFreeArea's links: area a joins the ring of cell q, with an empty same-size ring of its own. */
  function Appended(mem: Memory, a: Addr, q: Addr): Memory
    requires a + 2 < |mem| && q < |mem| && mem[q].prev.ptr < |mem|
  {
    Initialized(Inserted(mem, a + 1, q), a + 2)
  }

  /** The position in the size order before which an area goes: group k, or the queue head at the end. */
  function SizePlace(fq: Addr, F: Groups, k: nat): Addr {
    if k < |F| then Rep(F[k]) + 1 else fq
  }

  ghost predicate FitsAt(mem: Memory, F: Groups, k: nat, size: int) {
    && k <= |F|
    && (forall l :: 0 <= l < k && Rep(F[l]) < |mem| ==> Size(mem, Rep(F[l])) < size)
    && (k < |F| && Rep(F[k]) < |mem| ==> size <= Size(mem, Rep(F[k])))
  }

  function NewGroup(F: Groups, k: nat, a: Addr): Groups
    requires k <= |F|
  {
    F[..k] + [[a]] + F[k..]
  }

  lemma NewGroupFacts(fq: Addr, F: Groups, k: nat, a: Addr)
    requires k <= |F| && forall l :: 0 <= l < |F| ==> F[l] != []
    ensures Members(NewGroup(F, k, a)) == Members(F) + {a}
    ensures |SizeRing(fq, F)| == |F| + 1
    ensures SizeRing(fq, NewGroup(F, k, a)) == InsertAt(SizeRing(fq, F), k + 1, a + 1)
  {
    NewGroupMembers(F, k, a);
  }

  lemma NewGroupMembers(F: Groups, k: nat, a: Addr)
    requires k <= |F|
    ensures Members(NewGroup(F, k, a)) == Members(F) + {a}
  {
    hide Rep;
    var F' := NewGroup(F, k, a);
    forall x | x in Members(F) + {a} ensures x in Members(F') {
      if x == a {
        assert F'[k][0] == a;
      } else {
        var l, j :| 0 <= l < |F| && 0 <= j < |F[l]| && F[l][j] == x;
        assert F'[if l < k then l else l + 1][j] == x;
      }
    }
    forall x | x in Members(F') ensures x in Members(F) + {a} {
      var l, j :| 0 <= l < |F'| && 0 <= j < |F'[l]| && F'[l][j] == x;
      if l != k {
        assert F'[l] == F[if l < k then l else l - 1];
      }
    }
  }

  lemma NotInSizeRing(mem: Memory, fq: Addr, F: Groups, a: Addr)
    requires FreeQueueOk(mem, fq, F) && a !in Members(F) && Spaced(fq, Members(F) + {a})
    ensures a + 1 !in SizeRing(fq, F) && a + 2 !in SizeRing(fq, F)
  {
    forall l | 0 <= l < |F| ensures Spread(a, Rep(F[l])) {
      assert GroupOk(mem, F[l]);
      MemberOf(F, l, 0);
    }
  }

  lemma SizePlaceIn(fq: Addr, F: Groups, k: nat)
    requires k <= |F|
    ensures |SizeRing(fq, F)| == |F| + 1
    ensures SizeRing(fq, F)[if k < |F| then k + 1 else 0] == SizePlace(fq, F, k)
  {
  }

  /** What an insertion into the size order writes. */
  lemma SizeInsertCells(mem: Memory, fq: Addr, F: Groups, k: nat, e: Addr)
    requires Ring(mem, SizeRing(fq, F)) && k <= |F| && e < |mem| && e !in SizeRing(fq, F)
    ensures var q := SizePlace(fq, F, k);
            && q < |mem| && mem[q].prev.ptr < |mem|
            && var mem' := Inserted(mem, e, q);
            && Ring(mem', InsertAt(SizeRing(fq, F), k + 1, e))
            && forall c :: 0 <= c < |mem| && mem'[c] != mem[c] ==> c == e || c in SizeRing(fq, F)
  {
    hide Inserted, Ring, SizeRing, SizePlace, InsertAt;
    var s := SizeRing(fq, F);
    SizePlaceIn(fq, F, k);
    var n := if k < |F| then k + 1 else 0;
    InsertStep(mem, s, n, e);
    InsertFacts(s, n, e);
    if k == |F| {
      InsertRingEnd(mem, s, e);
      InsertEnd(s, e);
    }
  }

  lemma InsertEnd(s: seq<Addr>, e: Addr)
    ensures InsertAt(s, |s|, e) == s + [e]
  {
  }

  lemma SizeRingMember(fq: Addr, F: Groups, c: Addr)
    requires c in SizeRing(fq, F)
    ensures c == fq || exists l :: 0 <= l < |F| && c == Rep(F[l]) + 1
  {
  }

  /** The size order with the new area in it. */
  lemma AppendRing(mem: Memory, fq: Addr, F: Groups, k: nat, a: Addr)
    requires FreeQueueOk(mem, fq, F) && a + 2 < |mem| && k <= |F|
    requires a !in Members(F) && Spaced(fq, Members(F) + {a})
    ensures var q := SizePlace(fq, F, k);
            && q < |mem| && mem[q].prev.ptr < |mem|
            && Ring(Appended(mem, a, q), SizeRing(fq, NewGroup(F, k, a)))
    ensures Members(NewGroup(F, k, a)) == Members(F) + {a}
  {
    hide Ring, Inserted, SizeRing, NewGroup, Spaced, Spread, Members;
    forall l | 0 <= l < |F| ensures GroupOk(mem, F[l]) && F[l] != [] {
    }
    NotInSizeRing(mem, fq, F, a);
    SizeInsertCells(mem, fq, F, k, a + 1);
    NewGroupFacts(fq, F, k, a);
    var q := SizePlace(fq, F, k);
    RingFrame(Inserted(mem, a + 1, q), Appended(mem, a, q), SizeRing(fq, NewGroup(F, k, a)));
  }

  /** Registering an area of a size that no group has. */
  lemma AppendNewSize(mem: Memory, fq: Addr, F: Groups, k: nat, a: Addr)
    requires FreeQueueOk(mem, fq, F) && a + 2 < |mem|
    requires a !in Members(F) && Spaced(fq, Members(F) + {a})
    requires FitsAt(mem, F, k, Size(mem, a)) && (k < |F| && Rep(F[k]) < |mem| ==> Size(mem, Rep(F[k])) != Size(mem, a))
    ensures var q := SizePlace(fq, F, k);
            && q < |mem| && mem[q].prev.ptr < |mem|
            && FreeQueueOk(Appended(mem, a, q), fq, NewGroup(F, k, a))
            && Touched(mem, Appended(mem, a, q), fq, Members(F) + {a})
    ensures Members(NewGroup(F, k, a)) == Members(F) + {a}
  {
    hide Ring, Ascending, Spaced, Spread, Appended;
    AppendRing(mem, fq, F, k, a);
    var mem' := Appended(mem, a, SizePlace(fq, F, k));
    AppendChanges(mem, fq, F, k, a);
    forall c | 0 <= c < |mem| && mem'[c] != mem[c]
      ensures c == fq || c - 1 in Members(F) + {a} || c - 2 in Members(F) + {a}
    {
      LinkCellOf(mem, fq, F, c, {a});
    }
    AppendGroups(mem, mem', fq, F, k, a);
    AppendAscending(mem, mem', fq, F, k, a);
  }

  lemma AppendChanges(mem: Memory, fq: Addr, F: Groups, k: nat, a: Addr)
    requires FreeQueueOk(mem, fq, F) && a + 2 < |mem| && k <= |F|
    requires a !in Members(F) && Spaced(fq, Members(F) + {a})
    ensures var q := SizePlace(fq, F, k);
            && q < |mem| && mem[q].prev.ptr < |mem|
            && Linking(mem, Appended(mem, a, q), fq, F, {a})
            && Appended(mem, a, q)[a + 2] == Cell(a + 2, Plain(a + 2))
  {
    hide Inserted, Ring, GroupOk, Ascending, Spaced, SizeRing, SizePlace;
    NotInSizeRing(mem, fq, F, a);
    SizeInsertCells(mem, fq, F, k, a + 1);
    var mem' := Appended(mem, a, SizePlace(fq, F, k));
    forall c | 0 <= c < |mem| && mem'[c] != mem[c] ensures LinkCell(c, fq, F, {a}) {
      if c != a + 1 && c != a + 2 {
        SizeRingMember(fq, F, c);
      }
    }
  }

  lemma SingleGroupOk(mem: Memory, a: Addr)
    requires a + 2 < |mem| && mem[a + 2] == Cell(a + 2, Plain(a + 2))
    ensures GroupOk(mem, [a])
  {
    assert SameRing([a]) == [a + 2];
    assert LinkAt(mem, [a + 2], 0);
  }

  lemma AppendGroups(mem: Memory, mem': Memory, fq: Addr, F: Groups, k: nat, a: Addr)
    requires FreeQueueOk(mem, fq, F) && a + 2 < |mem| == |mem'| && k <= |F|
    requires a !in Members(F) && Spaced(fq, Members(F) + {a})
    requires mem'[a + 2] == Cell(a + 2, Plain(a + 2))
    requires Linking(mem, mem', fq, F, {a})
    ensures forall l :: 0 <= l < |NewGroup(F, k, a)| ==> GroupOk(mem', NewGroup(F, k, a)[l])
  {
    hide GroupOk, Ring, Ascending, SizeRing, Spread;
    var F' := NewGroup(F, k, a);
    forall l | 0 <= l < |F'| ensures GroupOk(mem', F'[l]) {
      if l == k {
        SingleGroupOk(mem', a);
      } else {
        var n := if l < k then l else l - 1;
        forall j | 0 <= j < |F[n]| ensures Spread(a, F[n][j]) {
          MemberOf(F, n, j);
        }
        GroupUntouched(mem, mem', fq, F, n, {a});
      }
    }
  }

  lemma AppendAscending(mem: Memory, mem': Memory, fq: Addr, F: Groups, k: nat, a: Addr)
    requires FreeQueueOk(mem, fq, F) && a + 2 < |mem| == |mem'|
    requires a !in Members(F) && Spaced(fq, Members(F) + {a})
    requires FitsAt(mem, F, k, Size(mem, a)) && (k < |F| && Rep(F[k]) < |mem| ==> Size(mem, Rep(F[k])) != Size(mem, a))
    requires Touched(mem, mem', fq, Members(F) + {a})
    ensures Ascending(mem', NewGroup(F, k, a))
  {
    hide GroupOk, Ring, Spaced, Touched, Members, Size;
    var F' := NewGroup(F, k, a);
    forall l | 0 <= l < |F| ensures Rep(F[l]) < |mem| && Size(mem', Rep(F[l])) == Size(mem, Rep(F[l])) {
      assert GroupOk(mem, F[l]);
      GroupFacts(mem, F[l]);
      MemberOf(F, l, 0);
      SizesKept(mem, mem', fq, Members(F) + {a}, Rep(F[l]));
      SizeOfHeader(mem, mem', Rep(F[l]));
    }
    SizesKept(mem, mem', fq, Members(F) + {a}, a);
    SizeOfHeader(mem, mem', a);
  }

  lemma SizeOfHeader(mem: Memory, mem': Memory, a: Addr)
    requires a < |mem| == |mem'| && mem'[a] == mem[a]
    ensures Size(mem', a) == Size(mem, a)
  {
  }

  /** Queue links never overlay the header of a free area. */
  lemma SizesKept(mem: Memory, mem': Memory, fq: Addr, S: set<Addr>, a: Addr)
    requires Touched(mem, mem', fq, S) && Spaced(fq, S) && a in S && a < |mem|
    ensures mem'[a] == mem[a]
  {
  }

  // ---------------------------------------------------------------- inside one group

  ghost predicate GroupCell(c: int, g: seq<Addr>, S: set<Addr>) {
    (exists j :: 0 <= j < |g| && (c == g[j] + 2 || (j >= 1 && c == g[j] + 1))) || c - 1 in S || c - 2 in S
  }

  /** Only the same-size links of group g and the link cells of the areas in S have changed. */
  ghost predicate GroupLinking(mem: Memory, mem': Memory, g: seq<Addr>, S: set<Addr>) {
    |mem'| == |mem| && forall c :: 0 <= c < |mem| && mem'[c] != mem[c] ==> GroupCell(c, g, S)
  }

  lemma SameRingMember(g: seq<Addr>, c: Addr)
    requires c in SameRing(g)
    ensures GroupCell(c, g, {})
  {
    var j :| 0 <= j < |g| && c == SameRing(g)[j];
  }

  /** A size-order link is no same-size link of any group. */
  lemma RepLinkApart(mem: Memory, fq: Addr, F: Groups, k: nat, l: nat, S: set<Addr>)
    requires FreeQueueOk(mem, fq, F) && k < |F| && l < |F|
    requires S !! Members(F) && Spaced(fq, Members(F) + S)
    ensures !GroupCell(Rep(F[l]) + 1, F[k], S)
  {
    var a := Rep(F[l]);
    assert GroupOk(mem, F[l]) && GroupOk(mem, F[k]);
    MemberOf(F, l, 0);
    forall j | 0 <= j < |F[k]| ensures F[k][j] == a || Spread(F[k][j], a) {
      MemberOf(F, k, j);
    }
    forall j | 1 <= j < |F[k]| ensures F[k][j] != a {
      if l != k {
        GroupsApart(mem, F, l, k, 0, j);
      }
    }
  }

  lemma QueueHeadApart(mem: Memory, fq: Addr, F: Groups, k: nat, S: set<Addr>)
    requires FreeQueueOk(mem, fq, F) && k < |F|
    requires Spaced(fq, Members(F) + S)
    ensures !GroupCell(fq, F[k], S)
  {
    forall j | 0 <= j < |F[k]| ensures F[k][j] in Members(F) {
      MemberOf(F, k, j);
    }
  }

  lemma GroupCellOf(F: Groups, k: nat, S: set<Addr>, c: Addr)
    requires k < |F| && GroupCell(c, F[k], S)
    ensures c - 1 in Members(F) + S || c - 2 in Members(F) + S
  {
    if c - 1 !in S && c - 2 !in S {
      var j :| 0 <= j < |F[k]| && (c == F[k][j] + 2 || (j >= 1 && c == F[k][j] + 1));
      MemberOf(F, k, j);
    }
  }

  /** Work inside a group leaves the size order alone. */
  lemma SizeRingApart(mem: Memory, mem': Memory, fq: Addr, F: Groups, k: nat, S: set<Addr>)
    requires FreeQueueOk(mem, fq, F) && k < |F|
    requires S !! Members(F) && Spaced(fq, Members(F) + S)
    requires GroupLinking(mem, mem', F[k], S)
    ensures Ring(mem', SizeRing(fq, F))
    ensures Touched(mem, mem', fq, Members(F) + S)
  {
    hide Spaced, Ring, GroupOk, Ascending, SizeRing, GroupCell;
    var s := SizeRing(fq, F);
    forall c | 0 <= c < |mem| && mem'[c] != mem[c]
      ensures c - 1 in Members(F) + S || c - 2 in Members(F) + S
    {
      GroupCellOf(F, k, S, c);
    }
    forall c | c in s && c < |mem| ensures mem'[c] == mem[c] {
      SizeRingMember(fq, F, c);
      QueueHeadApart(mem, fq, F, k, S);
      if c != fq {
        var l :| 0 <= l < |F| && c == Rep(F[l]) + 1;
        RepLinkApart(mem, fq, F, k, l, S);
      }
    }
    RingFrame(mem, mem', s);
  }

  lemma OtherGroups(mem: Memory, mem': Memory, fq: Addr, F: Groups, k: nat, l: nat, S: set<Addr>)
    requires FreeQueueOk(mem, fq, F) && k < |F| && l < |F| && k != l
    requires S !! Members(F) && Spaced(fq, Members(F) + S)
    requires GroupLinking(mem, mem', F[k], S)
    ensures GroupOk(mem', F[l])
  {
    hide Ring, Ascending, Members;
    var g := F[l];
    assert GroupOk(mem, g);
    forall j | 0 <= j < |g|
      ensures mem'[g[j]] == mem[g[j]] && mem'[g[j] + 1] == mem[g[j] + 1] && mem'[g[j] + 2] == mem[g[j] + 2]
    {
      MemberOf(F, l, j);
      forall i | 0 <= i < |F[k]| ensures Spread(F[k][i], g[j]) {
        GroupsApart(mem, F, k, l, i, j);
        MemberOf(F, k, i);
      }
    }
    GroupFrame(mem, mem', g);
  }

  /** A group and its same-size ring changed; everything else about the free queue still stands. */
  lemma GroupReplaced(mem: Memory, mem': Memory, fq: Addr, F: Groups, k: nat, h: seq<Addr>, S: set<Addr>)
    requires FreeQueueOk(mem, fq, F) && k < |F|
    requires S !! Members(F) && Spaced(fq, Members(F) + S)
    requires GroupLinking(mem, mem', F[k], S)
    requires GroupOk(mem', h) && h[0] == F[k][0]
    requires Members(F[k := h]) <= Members(F) + S
    ensures FreeQueueOk(mem', fq, F[k := h])
    ensures Touched(mem, mem', fq, Members(F) + S)
  {
    var F' := F[k := h];
    SizeRingApart(mem, mem', fq, F, k, S);
    assert GroupOk(mem, F[k]);
    assert SizeRing(fq, F') == SizeRing(fq, F);
    forall l | 0 <= l < |F'| ensures GroupOk(mem', F'[l]) {
      if l != k {
        OtherGroups(mem, mem', fq, F, k, l, S);
      }
    }
    forall l | 0 <= l < |F| ensures Rep(F'[l]) == Rep(F[l]) < |mem| && mem'[Rep(F[l])] == mem[Rep(F[l])] {
      assert GroupOk(mem, F[l]);
      MemberOf(F, l, 0);
      SizesKept(mem, mem', fq, Members(F) + S, Rep(F[l]));
    }
  }

  lemma LongerRing(g: seq<Addr>, a: Addr)
    requires |g| > 0 && forall j :: 0 <= j < |g| ==> Spread(a, g[j])
    ensures a + 1 !in SameRing(g) && a + 2 !in SameRing(g) && |SameRing(g)| == |g| && SameRing(g)[0] == g[0] + 2
    ensures SameRing(g + [a]) == SameRing(g) + [a + 1]
    ensures a + 2 !in SameRing(g + [a])
    ensures forall c :: c in SameRing(g) ==> GroupCell(c, g, {a})
  {
    forall c | c in SameRing(g) ensures GroupCell(c, g, {a}) {
      SameRingMember(g, c);
    }
  }

  lemma LongerGroup(mem: Memory, g: seq<Addr>, a: Addr)
    requires GroupOk(mem, g) && a + 2 < |mem| && a !in g && Size(mem, a) == Size(mem, g[0])
    requires forall j :: 0 <= j < |g| ==> Spread(a, g[j])
    requires forall i, j :: 0 <= i < j < |g| ==> Spread(g[i], g[j])
    ensures mem[g[0] + 2].prev.ptr < |mem|
    ensures var mem' := Appended(mem, a, g[0] + 2);
            GroupLinking(mem, mem', g, {a}) && GroupOk(mem', g + [a])
  {
    hide Inserted, Ring, SameRing, Spread, InsertAt;
    LongerRing(g, a);
    var s := SameRing(g);
    InsertRingEnd(mem, s, a + 1);
    InsertStep(mem, s, 0, a + 1);
    InsertFacts(s, 0, a + 1);
    var mem1 := Inserted(mem, a + 1, g[0] + 2);
    var mem' := Appended(mem, a, g[0] + 2);
    RingFrame(mem1, mem', s + [a + 1]);
    InitRing(mem1, a + 2);
    LongerGroupOk(mem, mem', g, a);
  }

  lemma SameRingCell(g: seq<Addr>, c: Addr)
    requires forall i, j :: 0 <= i < j < |g| ==> Spread(g[i], g[j])
    requires c in g || (exists j :: 1 <= j < |g| && c == g[j] + 2)
    ensures c !in SameRing(g)
  {
    var i :| 0 <= i < |g| && (c == g[i] || (i >= 1 && c == g[i] + 2));
    forall j | 0 <= j < |g| ensures SameRing(g)[j] != c {
      assert i == j || Spread(g[i], g[j]);
    }
  }

  lemma LongerGroupOk(mem: Memory, mem': Memory, g: seq<Addr>, a: Addr)
    requires GroupOk(mem, g) && a + 2 < |mem| == |mem'| && a !in g && Size(mem, a) == Size(mem, g[0])
    requires forall j :: 0 <= j < |g| ==> Spread(a, g[j])
    requires forall c :: 0 <= c < |mem| && mem'[c] != mem[c] ==> c in SameRing(g) || c == a + 1 || c == a + 2
    requires Ring(mem', SameRing(g + [a])) && Ring(mem', [a + 2])
    requires forall i, j :: 0 <= i < j < |g| ==> Spread(g[i], g[j])
    ensures GroupOk(mem', g + [a])
  {
    var h := g + [a];
    forall j | 0 <= j < |g| ensures mem'[g[j]] == mem[g[j]] && (j >= 1 ==> mem'[g[j] + 2] == mem[g[j] + 2]) {
      SameRingCell(g, g[j]);
      if j >= 1 {
        SameRingCell(g, g[j] + 2);
      }
    }
    assert mem'[a] == mem[a] by {
      if a in SameRing(g) {
        SameRingMember(g, a);
      }
    }
    forall j | 1 <= j < |h| ensures Ring(mem', [h[j] + 2]) {
      if j < |g| {
        assert Ring(mem, [g[j] + 2]);
        RingFrame(mem, mem', [g[j] + 2]);
      }
    }
    forall j | 0 <= j < |h| ensures Size(mem', h[j]) == Size(mem', h[0]) {
      if j < |g| {
        assert Size(mem, g[j]) == Size(mem, g[0]);
      }
    }
  }

  // ---------------------------------------------------------------- registration, continued

  lemma LongerMembers(F: Groups, k: nat, a: Addr)
    requires k < |F|
    ensures Members(F[k := F[k] + [a]]) == Members(F) + {a}
  {
    var F' := F[k := F[k] + [a]];
    assert F'[k][|F[k]|] == a;
    forall x | x in Members(F) ensures x in Members(F') {
      var l, j :| 0 <= l < |F| && 0 <= j < |F[l]| && F[l][j] == x;
      assert F'[l][j] == x;
    }
    forall x | x in Members(F') ensures x in Members(F) + {a} {
      var l, j :| 0 <= l < |F'| && 0 <= j < |F'[l]| && F'[l][j] == x;
      if l != k || j < |F[k]| {
        assert F[l][j] == x;
      }
    }
  }

  lemma GroupSpread(mem: Memory, fq: Addr, F: Groups, k: nat)
    requires FreeQueueOk(mem, fq, F) && k < |F|
    ensures forall i, j :: 0 <= i < j < |F[k]| ==> Spread(F[k][i], F[k][j])
  {
    assert GroupOk(mem, F[k]);
    forall i, j | 0 <= i < j < |F[k]| ensures Spread(F[k][i], F[k][j]) {
      MemberOf(F, k, i);
      MemberOf(F, k, j);
    }
  }

  /** Registering an area of a size that group k already has. */
  lemma AppendSameSize(mem: Memory, fq: Addr, F: Groups, k: nat, a: Addr)
    requires FreeQueueOk(mem, fq, F) && a + 2 < |mem| && k < |F|
    requires a !in Members(F) && Spaced(fq, Members(F) + {a})
    requires F[k] != [] && Rep(F[k]) < |mem| ==> Size(mem, Rep(F[k])) == Size(mem, a)
    ensures F[k] != []
    ensures var q := Rep(F[k]) + 2;
            && q < |mem| && mem[q].prev.ptr < |mem|
            && FreeQueueOk(Appended(mem, a, q), fq, F[k := F[k] + [a]])
            && Touched(mem, Appended(mem, a, q), fq, Members(F) + {a})
    ensures Members(F[k := F[k] + [a]]) == Members(F) + {a}
  {
    hide Ring, SameRing, SizeRing, Ascending, Appended;
    var g := F[k];
    assert GroupOk(mem, g);
    forall j | 0 <= j < |g| ensures g[j] != a && Spread(a, g[j]) {
      MemberOf(F, k, j);
    }
    GroupSpread(mem, fq, F, k);
    LongerGroup(mem, g, a);
    LongerMembers(F, k, a);
    GroupReplaced(mem, Appended(mem, a, g[0] + 2), fq, F, k, g + [a], {a});
  }

  // ---------------------------------------------------------------- removal

  lemma CutMembers(F: Groups, k: nat, j: nat)
    requires k < |F| && j < |F[k]| && Distinct(F[k])
    requires forall l, i :: 0 <= l < |F| && l != k && 0 <= i < |F[l]| ==> F[l][i] != F[k][j]
    ensures Members(F[k := Cut(F[k], j)]) == Members(F) - {F[k][j]}
  {
    var F' := F[k := Cut(F[k], j)];
    DistinctCut(F[k], j);
    forall x | x in Members(F) - {F[k][j]} ensures x in Members(F') {
      var l, i :| 0 <= l < |F| && 0 <= i < |F[l]| && F[l][i] == x;
      if l == k {
        assert x in F'[k];
        var m :| 0 <= m < |F'[k]| && F'[k][m] == x;
      } else {
        assert F'[l][i] == x;
      }
    }
    forall x | x in Members(F') ensures x in Members(F) - {F[k][j]} {
      var l, i :| 0 <= l < |F'| && 0 <= i < |F'[l]| && F'[l][i] == x;
      if l == k {
        assert x in F[k];
        var m :| 0 <= m < |F[k]| && F[k][m] == x;
      } else {
        assert F[l][i] == x;
      }
    }
  }

  lemma MemberApart(mem: Memory, F: Groups, k: nat, j: nat)
    requires forall n :: 0 <= n < |F| ==> GroupOk(mem, F[n])
    requires Ascending(mem, F) && k < |F| && j < |F[k]|
    ensures forall l, i :: 0 <= l < |F| && l != k && 0 <= i < |F[l]| ==> F[l][i] != F[k][j]
  {
    forall l, i | 0 <= l < |F| && l != k && 0 <= i < |F[l]| ensures F[l][i] != F[k][j] {
      GroupsApart(mem, F, l, k, i, j);
    }
  }

  lemma ShorterRing(g: seq<Addr>, j: nat)
    requires 1 <= j < |g|
    ensures SameRing(Cut(g, j)) == Cut(SameRing(g), j)
    ensures forall c :: c in Cut(SameRing(g), j) ==> c in SameRing(g) && GroupCell(c, g, {})
  {
    forall c | c in Cut(SameRing(g), j) ensures c in SameRing(g) && GroupCell(c, g, {}) {
      SameRingMember(g, c);
    }
  }

  lemma ShorterGroup(mem: Memory, g: seq<Addr>, j: nat)
    requires GroupOk(mem, g) && 1 <= j < |g|
    requires forall i, j :: 0 <= i < j < |g| ==> Spread(g[i], g[j])
    ensures mem[g[j] + 1].prev.ptr < |mem| && mem[g[j] + 1].next < |mem|
    ensures var mem' := Removed(mem, g[j] + 1);
            GroupLinking(mem, mem', g, {}) && GroupOk(mem', Cut(g, j))
  {
    hide Removed, Ring, Cut, Spread, GroupCell;
    var s := SameRing(g);
    DistinctCut(g, j);
    ShorterRing(g, j);
    RemoveStep(mem, s, j);
    ShorterGroupOk(mem, Removed(mem, g[j] + 1), g, j);
  }

  lemma ShorterGroupOk(mem: Memory, mem': Memory, g: seq<Addr>, j: nat)
    requires GroupOk(mem, g) && 1 <= j < |g| && |mem| == |mem'|
    requires forall i, j :: 0 <= i < j < |g| ==> Spread(g[i], g[j])
    requires forall c :: 0 <= c < |mem| && mem'[c] != mem[c] ==> c in SameRing(g)
    requires Ring(mem', SameRing(Cut(g, j))) && Distinct(Cut(g, j))
    ensures GroupOk(mem', Cut(g, j))
  {
    hide Ring, SameRing, Spread, Distinct;
    var h := Cut(g, j);
    forall i | 0 <= i < |g| ensures mem'[g[i]] == mem[g[i]] && (i >= 1 ==> mem'[g[i] + 2] == mem[g[i] + 2]) {
      SameRingCell(g, g[i]);
      if i >= 1 {
        SameRingCell(g, g[i] + 2);
      }
    }
    forall i | 0 <= i < |h| ensures h[i] == g[if i < j then i else i + 1] {
    }
    forall i | 1 <= i < |h| ensures Ring(mem', [h[i] + 2]) {
      var n := if i < j then i else i + 1;
      assert Ring(mem, [g[n] + 2]);
      RingFrame(mem, mem', [g[n] + 2]);
    }
    forall i | 0 <= i < |h| ensures Size(mem', h[i]) == Size(mem', h[0]) {
      var n := if i < j then i else i + 1;
      assert Size(mem, g[n]) == Size(mem, g[0]);
    }
  }

  lemma CutHead(g: seq<Addr>, j: nat)
    requires 1 <= j < |g|
    ensures |Cut(g, j)| == |g| - 1 && Cut(g, j)[0] == g[0]
  {
  }

  /** The same-size link of a sibling is a ring of its own. */
  lemma SiblingLink(mem: Memory, g: seq<Addr>, j: nat)
    requires GroupOk(mem, g) && 1 <= j < |g|
    ensures g[j] + 2 < |mem| && mem[g[j] + 2].next == g[j] + 2
  {
    assert LinkAt(mem, [g[j] + 2], 0);
  }

  /** removeFreeQue of an area that is not the first of its size. */
  lemma RemoveSibling(mem: Memory, fq: Addr, F: Groups, k: nat, j: nat)
    requires FreeQueueOk(mem, fq, F) && k < |F| && 1 <= j < |F[k]|
    ensures var a := F[k][j];
            && a + 2 < |mem| && mem[a + 2].next == a + 2
            && mem[a + 1].prev.ptr < |mem| && mem[a + 1].next < |mem|
            && FreeQueueOk(Removed(mem, a + 1), fq, F[k := Cut(F[k], j)])
            && Touched(mem, Removed(mem, a + 1), fq, Members(F))
            && Members(F[k := Cut(F[k], j)]) == Members(F) - {a}
  {
    hide Ring, GroupOk, Ascending, Spread, Spaced, SizeRing, Cut, Removed, Members;
    var g := F[k];
    assert GroupOk(mem, g);
    GroupFacts(mem, g);
    SiblingLink(mem, g, j);
    GroupSpread(mem, fq, F, k);
    ShorterGroup(mem, g, j);
    MemberApart(mem, F, k, j);
    CutMembers(F, k, j);
    assert Members(F) + {} == Members(F);
    CutHead(g, j);
    GroupReplaced(mem, Removed(mem, g[j] + 1), fq, F, k, Cut(g, j), {});
  }

  lemma LinkCellOf(mem: Memory, fq: Addr, F: Groups, c: Addr, S: set<Addr>)
    requires forall l :: 0 <= l < |F| ==> GroupOk(mem, F[l])
    requires LinkCell(c, fq, F, S)
    ensures c == fq || c - 1 in Members(F) + S || c - 2 in Members(F) + S
  {
    if c != fq && c - 1 !in S && c - 2 !in S {
      var l :| 0 <= l < |F| && c == Rep(F[l]) + 1;
      assert GroupOk(mem, F[l]);
      MemberOf(F, l, 0);
    }
  }

  /** Work on the size order leaves the groups alone. */
  lemma GroupsUntouched(mem: Memory, mem': Memory, fq: Addr, F: Groups, S: set<Addr>)
    requires GroupsOk(mem, fq, F) && Linking(mem, mem', fq, F, S)
    requires S !! Members(F) && Spaced(fq, Members(F) + S)
    ensures GroupsOk(mem', fq, F) && Touched(mem, mem', fq, Members(F) + S)
  {
    forall c | 0 <= c < |mem| && mem'[c] != mem[c]
      ensures c == fq || c - 1 in Members(F) + S || c - 2 in Members(F) + S
    {
      LinkCellOf(mem, fq, F, c, S);
    }
    forall k | 0 <= k < |F| ensures GroupOk(mem', F[k]) {
      forall a, j | a in S && 0 <= j < |F[k]| ensures Spread(a, F[k][j]) {
        MemberOf(F, k, j);
      }
      GroupUntouched(mem, mem', fq, F, k, S);
    }
    forall l | 0 <= l < |F| ensures Rep(F[l]) < |mem| && mem'[Rep(F[l])] == mem[Rep(F[l])] {
      assert GroupOk(mem, F[l]);
      MemberOf(F, l, 0);
      SizesKept(mem, mem', fq, Members(F) + S, Rep(F[l]));
    }
  }

  function Dropped(F: Groups, k: nat): Groups
    requires k < |F|
  {
    F[..k] + F[k + 1..]
  }

  lemma DroppedMembers(F: Groups, k: nat, a: Addr)
    requires k < |F| && F[k] == [a]
    requires forall l, i :: 0 <= l < |F| && l != k && 0 <= i < |F[l]| ==> F[l][i] != a
    ensures Members(Dropped(F, k)) == Members(F) - {a}
  {
    var F' := Dropped(F, k);
    forall x | x in Members(F) - {a} ensures x in Members(F') {
      var l, j :| 0 <= l < |F| && 0 <= j < |F[l]| && F[l][j] == x;
      assert F'[if l < k then l else l - 1][j] == x;
    }
    forall x | x in Members(F') ensures x in Members(F) - {a} {
      var l, j :| 0 <= l < |F'| && 0 <= j < |F'[l]| && F'[l][j] == x;
      assert F[if l < k then l else l + 1][j] == x;
    }
  }

  lemma DroppedOk(mem: Memory, fq: Addr, F: Groups, k: nat)
    requires k < |F| && GroupsOk(mem, fq, F) && Members(Dropped(F, k)) <= Members(F)
    ensures GroupsOk(mem, fq, Dropped(F, k))
  {
    var F' := Dropped(F, k);
    forall l | 0 <= l < |F'| ensures GroupOk(mem, F'[l]) {
      assert F'[l] == F[if l < k then l else l + 1];
    }
  }

  lemma DroppedRing(fq: Addr, F: Groups, k: nat)
    requires k < |F|
    ensures SizeRing(fq, Dropped(F, k)) == Cut(SizeRing(fq, F), k + 1)
  {
    var r := SizeRing(fq, Dropped(F, k));
    var t := Cut(SizeRing(fq, F), k + 1);
    assert |r| == |t|;
    forall i | 0 <= i < |r| ensures r[i] == t[i] {
    }
  }

  lemma DroppedLinks(mem: Memory, mem': Memory, fq: Addr, F: Groups, k: nat)
    requires k < |F| && Only(mem, mem', SizeRing(fq, Dropped(F, k)))
    ensures forall S :: Linking(mem, mem', fq, Dropped(F, k), S)
  {
    forall c | 0 <= c < |mem| && mem'[c] != mem[c] ensures forall S :: LinkCell(c, fq, Dropped(F, k), S) {
      SizeRingMember(fq, Dropped(F, k), c);
    }
  }

  lemma AloneLinks(mem: Memory, fq: Addr, F: Groups, k: nat)
    requires FreeQueueOk(mem, fq, F) && k < |F| && |F[k]| == 1
    ensures var a := F[k][0];
            && a + 2 < |mem| && mem[a + 2].next == a + 2
            && SizeRing(fq, F)[k + 1] == a + 1 && F[k] == [a]
  {
    var a := F[k][0];
    assert F[k] == [a] && GroupOk(mem, F[k]);
    assert SameRing(F[k]) == [a + 2] && LinkAt(mem, [a + 2], 0);
  }

  /** removeFreeQue of the only area of its size. */
  lemma RemoveAlone(mem: Memory, fq: Addr, F: Groups, k: nat)
    requires FreeQueueOk(mem, fq, F) && k < |F| && |F[k]| == 1
    ensures var a := F[k][0];
            && a + 2 < |mem| && mem[a + 2].next == a + 2
            && mem[a + 1].prev.ptr < |mem| && mem[a + 1].next < |mem|
            && FreeQueueOk(Removed(mem, a + 1), fq, Dropped(F, k))
            && Touched(mem, Removed(mem, a + 1), fq, Members(F))
            && Members(Dropped(F, k)) == Members(F) - {a}
  {
    hide GroupOk, Ring, Removed, Spaced, Ascending, Only, SameRing, LinkAt, Linking, Dropped, Members, Touched;
    var a := F[k][0];
    AloneLinks(mem, fq, F, k);
    MemberApart(mem, F, k, 0);
    MemberOf(F, k, 0);
    RemoveStep(mem, SizeRing(fq, F), k + 1);
    DroppedMembers(F, k, a);
    DroppedOk(mem, fq, F, k);
    DroppedRing(fq, F, k);
    DroppedLinks(mem, Removed(mem, a + 1), fq, F, k);
    assert Members(F) == Members(Dropped(F, k)) + {a};
    GroupsUntouched(mem, Removed(mem, a + 1), fq, Dropped(F, k), {a});
  }

  // ---------------------------------------------------------------- promotion

  /** removeFreeQue's first three calls: the second area of a size takes over the head of the ring. */
  ghost predicate Promoting(mem: Memory, a: Addr, b: Addr, m1: Memory, m2: Memory, m3: Memory) {
    && a + 2 < |mem| && b + 2 < |mem| == |m1| == |m2| == |m3|
    && mem[a + 2].prev.ptr < |mem| && mem[a + 2].next < |mem| && m1 == Removed(mem, a + 2)
    && m1[b + 1].prev.ptr < |mem| && m2 == Inserted(m1, b + 2, b + 1)
    && m2[b + 1].prev.ptr < |mem| && m2[b + 1].next < |mem| && m3 == Removed(m2, b + 1)
  }

  lemma PromoteFirst(mem: Memory, g: seq<Addr>)
    requires GroupOk(mem, g) && |g| > 1
    requires forall i, j :: 0 <= i < j < |g| ==> Spread(g[i], g[j])
    ensures mem[g[0] + 2].next == g[1] + 1 && mem[g[0] + 2].prev.ptr < |mem|
    ensures var s1 := Cut(SameRing(g), 0);
            var m1 := Removed(mem, g[0] + 2);
            && Ring(m1, s1) && s1[0] == g[1] + 1 && g[1] + 2 !in s1 && Only(mem, m1, s1)
            && (forall c :: c in s1 ==> c in SameRing(g))
  {
    var s := SameRing(g);
    assert LinkAt(mem, s, 0);
    RemoveStep(mem, s, 0);
    SameRingCell(g, g[1] + 2);
  }

  lemma GroupInMemory(mem: Memory, g: seq<Addr>)
    requires GroupOk(mem, g)
    ensures |g| > 0 && forall j :: 0 <= j < |g| ==> g[j] + 2 < |mem|
  {
  }

  lemma PromoteLengths(g: seq<Addr>)
    requires |g| > 1
    ensures |SameRing(g)| == |g| && |Cut(SameRing(g), 0)| == |g| - 1
    ensures |InsertAt(Cut(SameRing(g), 0), 0, g[1] + 2)| == |g|
  {
  }

  lemma PromoteRings(g: seq<Addr>, s1: seq<Addr>, s2: seq<Addr>)
    requires |g| > 1 && s1 == Cut(SameRing(g), 0) && s2 == InsertAt(s1, 0, g[1] + 2)
    ensures s2[1] == g[1] + 1 && Cut(s2, 1) == SameRing(g[1..])
    ensures forall c :: c in s2 ==> c in s1 || c == g[1] + 2
    ensures forall c :: c in Cut(s2, 1) ==> c in s2
  {
    hide SameRing;
    var h, ring := g[1..], SameRing(g);
    SameRingIs(g);
    SameRingIs(h);
    var r := Cut(s2, 1);
    assert s1 == ring[1..];
    assert s2 == [g[1] + 2] + ring[1..];
    assert r == [g[1] + 2] + ring[2..];
    forall i | 0 <= i < |r| ensures r[i] == SameRing(h)[i] {
      assert i > 0 ==> r[i] == ring[i + 1];
    }
  }

  lemma Promote(mem: Memory, g: seq<Addr>) returns (m1: Memory, m2: Memory, m3: Memory)
    requires GroupOk(mem, g) && |g| > 1
    requires forall i, j :: 0 <= i < j < |g| ==> Spread(g[i], g[j])
    ensures mem[g[0] + 2].next == g[1] + 1
    ensures Promoting(mem, g[0], g[1], m1, m2, m3)
    ensures Ring(m3, SameRing(g[1..])) && Only(mem, m3, SameRing(g) + [g[1] + 2])
  {
    hide Ring, Removed, Inserted, SameRing, Cut, InsertAt, Spread, GroupOk, Only;
    GroupInMemory(mem, g);
    var a, b, s := g[0], g[1], SameRing(g);
    PromoteLengths(g);
    PromoteFirst(mem, g);
    var s1 := Cut(s, 0);
    m1 := Removed(mem, a + 2);
    var s2 := InsertAt(s1, 0, b + 2);
    PromoteRings(g, s1, s2);
    InsertStep(m1, s1, 0, b + 2);
    m2 := Inserted(m1, b + 2, b + 1);
    RemoveStep(m2, s2, 1);
    m3 := Removed(m2, b + 1);
    assert Promoting(mem, a, b, m1, m2, m3);
    OnlyTwice(mem, m1, m2, s1, s2, s + [b + 2]);
    OnlyTwice(mem, m2, m3, s + [b + 2], Cut(s2, 1), s + [b + 2]);
  }

  lemma PromotedOk(mem: Memory, mem': Memory, g: seq<Addr>)
    requires GroupOk(mem, g) && |g| > 1 && |mem| == |mem'|
    requires forall i, j :: 0 <= i < j < |g| ==> Spread(g[i], g[j])
    requires Only(mem, mem', SameRing(g) + [g[1] + 2])
    requires Ring(mem', SameRing(g[1..]))
    ensures GroupOk(mem', g[1..]) && GroupLinking(mem, mem', g, {})
  {
    hide Ring, SameRing;
    var h := g[1..];
    forall c | 0 <= c < |mem| && mem'[c] != mem[c] ensures GroupCell(c, g, {}) {
      if c in SameRing(g) {
        SameRingMember(g, c);
      }
    }
    forall i | 0 <= i < |g| ensures mem'[g[i]] == mem[g[i]] && (i >= 2 ==> mem'[g[i] + 2] == mem[g[i] + 2]) {
      SameRingCell(g, g[i]);
      if i >= 1 {
        SameRingCell(g, g[i] + 2);
      }
      assert i == 1 || Spread(g[i], g[1]);
    }
    forall i | 1 <= i < |h| ensures Ring(mem', [h[i] + 2]) {
      assert Ring(mem, [g[i + 1] + 2]);
      RingFrame(mem, mem', [g[i + 1] + 2]);
    }
    forall i | 0 <= i < |h| ensures Size(mem', h[i]) == Size(mem', h[0]) {
      assert Size(mem, g[i + 1]) == Size(mem, g[0]);
    }
  }

  /** removeFreeQue's last three calls: b's size-order link takes the place of a's. */
  ghost predicate Replacing(mem: Memory, a: Addr, b: Addr, m1: Memory, m2: Memory) {
    && a + 2 < |mem| && b + 2 < |mem| == |m1| == |m2|
    && mem[a + 1].prev.ptr < |mem| && m1 == Inserted(mem, b + 1, a + 1)
    && m1[a + 1].prev.ptr < |mem| && m1[a + 1].next < |mem| && m2 == Removed(m1, a + 1)
  }

  lemma ReplaceRings(fq: Addr, F: Groups, k: nat)
    requires k < |F| && |F[k]| > 1
    ensures var s := SizeRing(fq, F);
            var s1 := InsertAt(s, k + 1, F[k][1] + 1);
            && |s| == |F| + 1 && |s1| == |s| + 1
            && s[k + 1] == s1[k + 2] == F[k][0] + 1
            && Cut(s1, k + 2) == SizeRing(fq, F[k := F[k][1..]])
            && (forall c :: c in s1 ==> c in s || c == F[k][1] + 1)
            && (forall c :: c in Cut(s1, k + 2) ==> c in s1)
  {
    var s := SizeRing(fq, F);
    var s1 := InsertAt(s, k + 1, F[k][1] + 1);
    var t := Cut(s1, k + 2);
    var u := SizeRing(fq, F[k := F[k][1..]]);
    assert |t| == |u|;
    forall i | 0 <= i < |t| ensures t[i] == u[i] {
    }
  }

  lemma Replace(mem: Memory, fq: Addr, F: Groups, k: nat) returns (m1: Memory, m2: Memory)
    requires Ring(mem, SizeRing(fq, F)) && k < |F| && |F[k]| > 1
    requires F[k][0] + 2 < |mem| && F[k][1] + 2 < |mem| && F[k][1] + 1 !in SizeRing(fq, F)
    ensures Replacing(mem, F[k][0], F[k][1], m1, m2)
    ensures Ring(m2, SizeRing(fq, F[k := F[k][1..]]))
    ensures Only(mem, m2, SizeRing(fq, F) + [F[k][1] + 1])
  {
    hide Ring, Inserted, Removed, SizeRing, InsertAt, Cut, Only;
    ReplaceRings(fq, F, k);
    var s, a, b := SizeRing(fq, F), F[k][0], F[k][1];
    InsertStep(mem, s, k + 1, b + 1);
    m1 := Inserted(mem, b + 1, a + 1);
    var s1 := InsertAt(s, k + 1, b + 1);
    RemoveStep(m1, s1, k + 2);
    m2 := Removed(m1, a + 1);
    OnlyTwice(mem, m1, m2, s1, Cut(s1, k + 2), s + [b + 1]);
  }

  lemma ReplaceLinks(mem: Memory, mem': Memory, fq: Addr, F: Groups, k: nat)
    requires k < |F| && |F[k]| > 1 && Only(mem, mem', SizeRing(fq, F) + [F[k][1] + 1])
    ensures Linking(mem, mem', fq, F[k := F[k][1..]], {F[k][0]})
  {
    var F' := F[k := F[k][1..]];
    forall c | 0 <= c < |mem| && mem'[c] != mem[c] ensures LinkCell(c, fq, F', {F[k][0]}) {
      if c == F[k][1] + 1 {
        assert Rep(F'[k]) == F[k][1];
      } else {
        SizeRingMember(fq, F, c);
        if c != fq && c - 1 != F[k][0] {
          var l :| 0 <= l < |F| && c == Rep(F[l]) + 1;
          assert Rep(F'[l]) == Rep(F[l]);
        }
      }
    }
  }

  /** After the promotion the groups without area a are in order; only the size order still shows a. */
  lemma Promoted(mem: Memory, mem': Memory, fq: Addr, F: Groups, k: nat)
    requires FreeQueueOk(mem, fq, F) && k < |F| && |F[k]| > 1 && |mem'| == |mem|
    requires Ring(mem', SameRing(F[k][1..])) && Only(mem, mem', SameRing(F[k]) + [F[k][1] + 2])
    ensures GroupsOk(mem', fq, F[k := F[k][1..]]) && Ring(mem', SizeRing(fq, F))
    ensures Touched(mem, mem', fq, Members(F))
    ensures F[k][1] + 1 !in SizeRing(fq, F)
    ensures Members(F[k := F[k][1..]]) == Members(F) - {F[k][0]}
  {
    hide Ring, Only, SameRing, SizeRing, Members, Spaced, Spread;
    var g := F[k];
    assert GroupOk(mem, g);
    GroupSpread(mem, fq, F, k);
    PromotedOk(mem, mem', g);
    assert Cut(g, 0) == g[1..];
    MemberApart(mem, F, k, 0);
    CutMembers(F, k, 0);
    assert Members(F) + {} == Members(F);
    SizeRingApart(mem, mem', fq, F, k, {});
    SecondNotHead(mem, fq, F, k);
    PromotedGroups(mem, mem', fq, F, k);
  }

  lemma SecondNotHead(mem: Memory, fq: Addr, F: Groups, k: nat)
    requires FreeQueueOk(mem, fq, F) && k < |F| && |F[k]| > 1
    ensures F[k][1] + 1 !in SizeRing(fq, F)
  {
    var b := F[k][1];
    assert GroupOk(mem, F[k]);
    MemberOf(F, k, 1);
    forall l | 0 <= l < |F| ensures Rep(F[l]) != b {
      assert GroupOk(mem, F[l]);
      if l != k {
        GroupsApart(mem, F, l, k, 0, 1);
      }
    }
  }

  lemma PromotedGroups(mem: Memory, mem': Memory, fq: Addr, F: Groups, k: nat)
    requires FreeQueueOk(mem, fq, F) && k < |F| && |F[k]| > 1
    requires GroupOk(mem', F[k][1..]) && GroupLinking(mem, mem', F[k], {})
    requires Touched(mem, mem', fq, Members(F))
    requires Members(F[k := F[k][1..]]) == Members(F) - {F[k][0]}
    ensures GroupsOk(mem', fq, F[k := F[k][1..]])
  {
    hide GroupOk, Ring, Spaced, GroupLinking, Members;
    SpacedLess(fq, Members(F), Members(F) - {F[k][0]});
    var F' := F[k := F[k][1..]];
    assert Members(F) + {} == Members(F);
    forall l | 0 <= l < |F| && l != k ensures GroupOk(mem', F[l]) {
      OtherGroups(mem, mem', fq, F, k, l, {});
    }
    assert GroupOk(mem, F[k]);
    GroupFacts(mem, F[k]);
    forall l | 0 <= l < |F|
      ensures Rep(F[l]) < |mem| && Rep(F'[l]) < |mem| && Size(mem', Rep(F'[l])) == Size(mem, Rep(F[l]))
    {
      assert GroupOk(mem, F[l]);
      GroupFacts(mem, F[l]);
      MemberOf(F, l, 0);
      MemberOf(F, k, 1);
      SizesKept(mem, mem', fq, Members(F), Rep(F[l]));
      SizesKept(mem, mem', fq, Members(F), F[k][1]);
    }
  }

  lemma TouchedTwice(m0: Memory, m1: Memory, m2: Memory, fq: Addr, S: set<Addr>)
    requires Touched(m0, m1, fq, S) && Touched(m1, m2, fq, S)
    ensures Touched(m0, m2, fq, S)
  {
  }

  /** removeFreeQue of the first of several areas of one size. */
  lemma RemoveLeader(mem: Memory, fq: Addr, F: Groups, k: nat)
    returns (m1: Memory, m2: Memory, m3: Memory, m4: Memory, m5: Memory)
    requires FreeQueueOk(mem, fq, F) && k < |F| && |F[k]| > 1
    ensures var a, b := F[k][0], F[k][1];
            && a + 2 < |mem| && mem[a + 2].next == b + 1 && a != b
            && Promoting(mem, a, b, m1, m2, m3) && Replacing(m3, a, b, m4, m5)
            && FreeQueueOk(m5, fq, F[k := F[k][1..]])
            && Touched(mem, m5, fq, Members(F))
            && Members(F[k := F[k][1..]]) == Members(F) - {a}
  {
    hide Ring, Only, SameRing, SizeRing, Members, Spread, Linking, Promoting, Replacing, Touched, Ascending;
    var a := F[k][0];
    var F' := F[k := F[k][1..]];
    assert GroupOk(mem, F[k]);
    GroupSpread(mem, fq, F, k);
    m1, m2, m3 := Promote(mem, F[k]);
    PromotingLength(mem, a, F[k][1], m1, m2, m3);
    Promoted(mem, m3, fq, F, k);
    m4, m5 := Replace(m3, fq, F, k);
    ReplaceLinks(m3, m5, fq, F, k);
    MemberOf(F, k, 0);
    assert Members(F') + {a} == Members(F);
    GroupsUntouched(m3, m5, fq, F', {a});
    TouchedTwice(mem, m3, m5, fq, Members(F));
  }

  lemma PromotingLength(mem: Memory, a: Addr, b: Addr, m1: Memory, m2: Memory, m3: Memory)
    requires Promoting(mem, a, b, m1, m2, m3)
    ensures |m3| == |mem|
  {
  }
}
