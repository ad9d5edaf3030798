/**
 The byte ring of a message buffer as a value: a record is a four-byte header with the length of the
 message, the message, and padding up to a multiple of four. Records wrap around the end of the buffer.
 */
module MessageRing {
  import opened Common

  type Message = seq<byte>

  const HEADERSZ := 4
  const INT_MAX := 0x7fff_ffff

  function RoundSz(n: nat): (r: nat)
    ensures n <= r < n + 4 && r % 4 == 0
  {
    (n + 3) / 4 * 4
  }

  function RecordSz(m: Message): nat {
    HEADERSZ + RoundSz(|m|)
  }

  function Total(msgs: seq<Message>): nat {
    if msgs == [] then 0 else RecordSz(msgs[0]) + Total(msgs[1..])
  }

  /** A header: a 32-bit integer as four bytes, lowest byte first. */
  function Encode(n: nat): (h: seq<byte>)
    requires n <= INT_MAX
    ensures |h| == 4
  {
    [(n % 256) as byte, (n / 256 % 256) as byte, (n / 65536 % 256) as byte, (n / 16777216) as byte]
  }

  function Decode(h: seq<byte>): (n: nat)
    requires |h| == 4
  {
    h[0] as int + 256 * (h[1] as int) + 65536 * (h[2] as int) + 16777216 * (h[3] as int)
  }

  lemma DecodeEncode(n: nat)
    requires n <= INT_MAX
    ensures Decode(Encode(n)) == n
  {
    assert n == n / 256 * 256 + n % 256;
    assert n / 256 == n / 256 / 256 * 256 + n / 256 % 256;
    assert n / 65536 == n / 256 / 256;
    assert n / 65536 == n / 65536 / 256 * 256 + n / 65536 % 256;
    assert n / 16777216 == n / 65536 / 256;
  }

  // ---------------------------------------------------------------- positions

  /** The position i bytes after h in a ring of n bytes. */
  function Cir(h: nat, i: nat, n: nat): nat {
    if h + i < n then h + i else h + i - n
  }

  /** The ring read from position h on. */
  function Rot(b: seq<byte>, h: nat): (r: seq<byte>)
    requires h < |b| || h == 0
    ensures |r| == |b|
  {
    b[h..] + b[..h]
  }

  lemma RotAt(b: seq<byte>, h: nat, i: nat)
    requires h < |b| && i < |b|
    ensures Cir(h, i, |b|) < |b| && Rot(b, h)[i] == b[Cir(h, i, |b|)]
  {
  }

  lemma CirTwice(h: nat, t: nat, i: nat, n: nat)
    requires h < n && t + i <= n
    ensures Cir(Cir(h, t, n), i, n) == Cir(h, t + i, n)
    ensures Cir(h, t, n) < n
  {
  }

  /** The bytes r begin with the records of msgs, one after the other. */
  ghost predicate Holds(r: seq<byte>, msgs: seq<Message>)
    decreases |msgs|
  {
    msgs != [] ==>
      var m := msgs[0];
      && |m| <= INT_MAX && RecordSz(m) <= |r|
      && r[..4] == Encode(|m|) && r[4..4 + |m|] == m
      && Holds(r[RecordSz(m)..], msgs[1..])
  }

  lemma {:induction false} TotalAppend(msgs: seq<Message>, m: Message)
    ensures Total(msgs + [m]) == Total(msgs) + RecordSz(m)
  {
    if msgs != [] {
      assert (msgs + [m])[1..] == msgs[1..] + [m];
      TotalAppend(msgs[1..], m);
    }
  }

  lemma {:induction false} TotalAligned(msgs: seq<Message>)
    ensures Total(msgs) % 4 == 0
    ensures msgs != [] ==> Total(msgs) >= 4
  {
    if msgs != [] {
      TotalAligned(msgs[1..]);
    }
  }

  lemma {:induction false} HoldsTotal(r: seq<byte>, msgs: seq<Message>)
    requires Holds(r, msgs)
    ensures Total(msgs) <= |r|
    decreases |msgs|
  {
    if msgs != [] {
      HoldsTotal(r[RecordSz(msgs[0])..], msgs[1..]);
    }
  }

  /** Records are not touched by what happens behind them. */
  lemma {:induction false} HoldsPrefix(r: seq<byte>, r': seq<byte>, msgs: seq<Message>)
    requires Holds(r, msgs) && Total(msgs) <= |r'|
    requires forall i :: 0 <= i < Total(msgs) && i < |r| ==> r'[i] == r[i]
    ensures Holds(r', msgs)
    decreases |msgs|
  {
    if msgs != [] {
      var k := RecordSz(msgs[0]);
      HoldsTotal(r, msgs);
      HoldsPrefix(r[k..], r'[k..], msgs[1..]);
      assert r'[..4] == r[..4] && r'[4..4 + |msgs[0]|] == r[4..4 + |msgs[0]|];
    }
  }

  lemma {:induction false} HoldsAppend(r: seq<byte>, msgs: seq<Message>, m: Message)
    requires Holds(r, msgs) && |m| <= INT_MAX && Total(msgs) + RecordSz(m) <= |r|
    requires r[Total(msgs)..Total(msgs) + 4] == Encode(|m|)
    requires r[Total(msgs) + 4..Total(msgs) + 4 + |m|] == m
    ensures Holds(r, msgs + [m])
    decreases |msgs|
  {
    hide Encode, Decode, RoundSz;
    if msgs == [] {
      assert r[0..4] == r[..4];
      assert (msgs + [m])[1..] == [];
    } else {
      var k := RecordSz(msgs[0]);
      var s, t := r[k..], Total(msgs[1..]);
      assert Total(msgs) == k + t;
      assert s[t..t + 4] == r[k + t..k + t + 4];
      assert s[t + 4..t + 4 + |m|] == r[k + t + 4..k + t + 4 + |m|];
      HoldsAppend(s, msgs[1..], m);
      assert (msgs + [m])[1..] == msgs[1..] + [m] && (msgs + [m])[0] == msgs[0];
    }
  }

  // ---------------------------------------------------------------- what the ring operations write

  /** The bytes rec were written from position t on, around the end; nothing else changed. */
  ghost predicate Written(b: seq<byte>, b': seq<byte>, t: nat, rec: seq<byte>) {
    && |b'| == |b| && t < |b| && |rec| <= |b|
    && (forall i :: 0 <= i < |rec| ==> b'[Cir(t, i, |b|)] == rec[i])
    && (forall i :: |rec| <= i < |b| ==> b'[Cir(t, i, |b|)] == b[Cir(t, i, |b|)])
  }

  function Overwrite(b: seq<byte>, at: nat, s: seq<byte>): (r: seq<byte>)
    requires at + |s| <= |b|
    ensures |r| == |b|
  {
    b[..at] + s + b[at + |s|..]
  }

  lemma WrittenFirst(b: seq<byte>, t: nat, s: seq<byte>)
    requires t < |b| && t + |s| <= |b|
    ensures Written(b, Overwrite(b, t, s), t, s)
  {
  }

  /** A piece that goes on where the last one ended, at the start of the buffer if need be. */
  lemma WrittenMore(b: seq<byte>, b1: seq<byte>, t: nat, rec: seq<byte>, s: seq<byte>)
    requires Written(b, b1, t, rec) && |rec| + |s| <= |b| && Cir(t, |rec|, |b|) + |s| <= |b|
    ensures Written(b, Overwrite(b1, Cir(t, |rec|, |b|), s), t, rec + s)
  {
    var n, at := |b|, Cir(t, |rec|, |b|);
    var b2 := Overwrite(b1, at, s);
    forall i | 0 <= i < n
      ensures b2[Cir(t, i, n)]
              == if i < |rec| then rec[i] else if i < |rec| + |s| then s[i - |rec|] else b[Cir(t, i, n)]
    {
      if |rec| <= i < |rec| + |s| {
        CirTwice(t, |rec|, i - |rec|, n);
        assert Cir(t, i, n) == at + (i - |rec|);
      } else {
        PieceApart(t, |rec|, |s|, i, n);
      }
    }
  }

  lemma PieceApart(t: nat, k: nat, len: nat, i: nat, n: nat)
    requires t < n && k + len <= n && Cir(t, k, n) + len <= n && i < n && !(k <= i < k + len)
    ensures !(Cir(t, k, n) <= Cir(t, i, n) < Cir(t, k, n) + len)
  {
  }

  lemma StoreKeeps(b: seq<byte>, b': seq<byte>, h: nat, t: nat, rec: seq<byte>, i: nat)
    requires h < |b| && t + |rec| <= |b| && Written(b, b', Cir(h, t, |b|), rec) && i < t
    ensures Rot(b', h)[i] == Rot(b, h)[i]
  {
    var n := |b|;
    RotAt(b, h, i);
    RotAt(b', h, i);
    BehindIsUnwritten(h, t, i, n, |rec|);
    assert b'[Cir(Cir(h, t, n), n - t + i, n)] == b[Cir(Cir(h, t, n), n - t + i, n)];
  }

  lemma StoreAdds(b: seq<byte>, b': seq<byte>, h: nat, t: nat, rec: seq<byte>)
    requires h < |b| && t + |rec| <= |b| && Written(b, b', Cir(h, t, |b|), rec)
    ensures Rot(b', h)[t..t + |rec|] == rec
  {
    forall i | 0 <= i < |rec| ensures Rot(b', h)[t + i] == rec[i] {
      RotAt(b', h, t + i);
      CirTwice(h, t, i, |b|);
    }
  }

  /** Storing a record behind the others keeps them all and adds one. */
  lemma StoreHolds(b: seq<byte>, b': seq<byte>, h: nat, msgs: seq<Message>, m: Message)
    requires h < |b| && Holds(Rot(b, h), msgs) && |m| <= INT_MAX
    requires Total(msgs) + RecordSz(m) <= |b| == |b'|
    requires Written(b, b', Cir(h, Total(msgs), |b|), Encode(|m|) + m)
    ensures Holds(Rot(b', h), msgs + [m])
  {
    hide Written, Rot, Encode, Holds;
    var t, rec := Total(msgs), Encode(|m|) + m;
    forall i | 0 <= i < t ensures Rot(b', h)[i] == Rot(b, h)[i] {
      StoreKeeps(b, b', h, t, rec, i);
    }
    HoldsPrefix(Rot(b, h), Rot(b', h), msgs);
    StoreAdds(b, b', h, t, rec);
    var r := Rot(b', h);
    assert r[t..t + 4] == r[t..t + |rec|][..4];
    assert r[t + 4..t + 4 + |m|] == r[t..t + |rec|][4..];
    HoldsAppend(r, msgs, m);
  }

  lemma BehindIsUnwritten(h: nat, t: nat, i: nat, n: nat, len: nat)
    requires h < n && i < t && t + len <= n
    ensures len <= n - t + i < n
    ensures Cir(Cir(h, t, n), n - t + i, n) == Cir(h, i, n)
  {
  }

  /** The oldest message stands at the head, whole or in two pieces, and the others follow it. */
  lemma FetchHolds(b: seq<byte>, h: nat, msgs: seq<Message>)
    requires h < |b| && msgs != [] && Holds(Rot(b, h), msgs)
    requires |b| % 4 == 0 && h % 4 == 0
    ensures h + 4 <= |b| && b[h..h + 4] == Encode(|msgs[0]|) && |msgs[0]| <= INT_MAX
    ensures RecordSz(msgs[0]) <= |b|
    ensures var k := Cir(h, 4, |b|);
            var m := msgs[0];
            && k < |b|
            && m == if |b| - k < |m| then b[k..] + b[..|m| - (|b| - k)] else b[k..k + |m|]
    ensures Holds(Rot(b, Cir(h, RecordSz(msgs[0]), |b|)), msgs[1..])
  {
    var n, m, k := |b|, msgs[0], Cir(h, 4, |b|);
    var r := Rot(b, h);
    HeaderWhole(h, n);
    assert r[..4] == b[h..h + 4];
    var got := if n - k < |m| then b[k..] + b[..|m| - (n - k)] else b[k..k + |m|];
    forall i | 0 <= i < |m| ensures got[i] == m[i] {
      RotAt(b, h, 4 + i);
      CirTwice(h, 4, i, n);
      assert r[4 + i] == r[4..4 + |m|][i];
    }
    assert got == m;
    RotMore(b, h, RecordSz(m), msgs);
  }

  lemma HeaderWhole(h: nat, n: nat)
    requires h < n && n % 4 == 0 && h % 4 == 0
    ensures h + 4 <= n
  {
  }

  lemma RotMore(b: seq<byte>, h: nat, k: nat, msgs: seq<Message>)
    requires h < |b| && k <= |b| && msgs != [] && k == RecordSz(msgs[0]) && Holds(Rot(b, h), msgs)
    ensures Holds(Rot(b, Cir(h, k, |b|)), msgs[1..])
  {
    var n := |b|;
    var s, r := Rot(b, h)[k..], Rot(b, Cir(h, k, n));
    HoldsTotal(s, msgs[1..]);
    forall i | 0 <= i < |s| ensures r[i] == s[i] {
      RotAt(b, h, k + i);
      RotAt(b, Cir(h, k, n), i);
      CirTwice(h, k, i, n);
    }
    HoldsPrefix(s, r, msgs[1..]);
  }

  lemma RoundLess(len: nat, r: nat)
    requires r % 4 == 0 && r <= len
    ensures RoundSz(len - r) == RoundSz(len) - r
  {
  }

  lemma CirAligned(h: nat, i: nat, n: nat)
    requires h < n && i <= n && n % 4 == 0 && h % 4 == 0 && i % 4 == 0
    ensures Cir(h, i, n) % 4 == 0 && Cir(h, i, n) + 4 <= n
  {
  }

  /** Where the code's position steps lead: past the header, past a first piece, past the padding. */
  lemma Steps(t: nat, len: nat, n: nat)
    requires t < n && n % 4 == 0 && t % 4 == 0 && HEADERSZ + RoundSz(len) <= n
    ensures var k := Cir(t, 4, n);
            && t + 4 <= n && k < n && k % 4 == 0 && k == (if t + 4 >= n then 0 else t + 4)
            && (n - k < len ==>
                  && Cir(t, 4 + (n - k), n) == 0 && len - (n - k) <= n
                  && Cir(t, 4 + RoundSz(len), n) == RoundSz(len - (n - k)) < n)
            && (n - k >= len ==>
                  && Cir(t, 4 + RoundSz(len), n) == if k + RoundSz(len) >= n then 0 else k + RoundSz(len))
  {
    hide RoundSz;
    var k := Cir(t, 4, n);
    CirAligned(t, 0, n);
    CirAligned(t, 4, n);
    if n - k < len {
      RoundLess(len, n - k);
    } else {
      PieceAligned(len, k, n);
    }
  }

  lemma PieceAligned(len: nat, k: nat, n: nat)
    requires k <= n && k % 4 == 0 && n % 4 == 0 && len <= n - k
    ensures RoundSz(len) <= n - k
  {
    var c := (n - k) / 4;
    assert n - k == 4 * c;
    assert (len + 3) / 4 <= c;
  }

  /** A message whose header and bytes fit also fits with its padding. */
  lemma UnroundedSuffices(free: int, m: Message)
    requires free % 4 == 0
    ensures HEADERSZ + |m| <= free <==> RecordSz(m) <= free
  {
  }

  // ---------------------------------------------------------------- the state of a ring

  /** The buffer b holds msgs, oldest first, from head up to tail, with free bytes left. */
  ghost predicate RingState(b: seq<byte>, head: nat, tail: nat, free: int, msgs: seq<Message>) {
    && |b| % 4 == 0 && head % 4 == 0 && (head < |b| || head == 0)
    && Total(msgs) <= |b| && free == |b| - Total(msgs) && tail == Cir(head, Total(msgs), |b|)
    && Holds(Rot(b, head), msgs)
  }

  /** The position behind a header at h. */
  function PastHeader(h: nat, n: nat): nat {
    if h + HEADERSZ >= n then 0 else h + HEADERSZ
  }

  /** The len bytes from position k on, in one piece or two. */
  function Piece(b: seq<byte>, k: nat, len: nat): seq<byte>
    requires k <= |b| && len <= |b|
  {
    if |b| - k < len then b[k..] + b[..len - (|b| - k)] else b[k..k + len]
  }

  /** The position behind those bytes and their padding. */
  function PastBytes(k: nat, len: nat, n: nat): nat
    requires k <= n
  {
    var p := if n - k < len then RoundSz(len - (n - k)) else k + RoundSz(len);
    if p >= n then 0 else p
  }

  lemma Positions(h: nat, len: nat, n: nat)
    requires h < n && n % 4 == 0 && h % 4 == 0 && HEADERSZ + RoundSz(len) <= n
    ensures PastHeader(h, n) == Cir(h, HEADERSZ, n) < n
    ensures PastBytes(PastHeader(h, n), len, n) == Cir(h, HEADERSZ + RoundSz(len), n) < n
    ensures Cir(h, HEADERSZ + RoundSz(len), n) % 4 == 0
  {
    hide RoundSz, Cir;
    CirAligned(h, HEADERSZ + RoundSz(len), n);
    Steps(h, len, n);
  }

  lemma FetchState(b: seq<byte>, head: nat, tail: nat, free: int, msgs: seq<Message>)
    requires RingState(b, head, tail, free, msgs) && msgs != []
    ensures var m := msgs[0];
            && head + HEADERSZ <= |b| && b[head..head + HEADERSZ] == Encode(|m|) && |m| <= INT_MAX && |m| <= |b|
            && PastHeader(head, |b|) < |b| && Piece(b, PastHeader(head, |b|), |m|) == m
            && RingState(b, PastBytes(PastHeader(head, |b|), |m|, |b|), tail, free + (HEADERSZ + RoundSz(|m|)),
                 msgs[1..])
  {
    hide Holds, Rot, RoundSz, Encode;
    var n, m := |b|, msgs[0];
    assert Total(msgs) == RecordSz(m) + Total(msgs[1..]);
    assert head < n;
    FetchHolds(b, head, msgs);
    Positions(head, |m|, n);
    CirTwice(head, RecordSz(m), Total(msgs[1..]), n);
  }

  lemma StoreState(b: seq<byte>, b': seq<byte>, head: nat, tail: nat, free: int, msgs: seq<Message>, m: Message)
    requires RingState(b, head, tail, free, msgs) && |m| <= INT_MAX && RecordSz(m) <= free && |b'| == |b|
    requires Written(b, b', tail, Encode(|m|) + m)
    ensures tail < |b| && PastHeader(tail, |b|) < |b|
    ensures RingState(b', head, PastBytes(PastHeader(tail, |b|), |m|, |b|), free - (HEADERSZ + RoundSz(|m|)),
              msgs + [m])
  {
    hide Holds, Rot, RoundSz, Encode, Written;
    StoreRoom(b, head, tail, free, msgs, m);
    StoreHolds(b, b', head, msgs, m);
    TotalAppend(msgs, m);
    Positions(tail, |m|, |b|);
    CirTwice(head, Total(msgs), RecordSz(m), |b|);
  }

  /** Where a record that fits will stand. */
  lemma StoreRoom(b: seq<byte>, head: nat, tail: nat, free: int, msgs: seq<Message>, m: Message)
    requires RingState(b, head, tail, free, msgs) && RecordSz(m) <= free
    ensures tail + HEADERSZ <= |b| && tail % 4 == 0 && HEADERSZ + RoundSz(|m|) <= |b| && head < |b|
    ensures var k := PastHeader(tail, |b|);
            && k < |b| && k == Cir(tail, HEADERSZ, |b|)
            && (|b| - k < |m| ==> Cir(tail, HEADERSZ + (|b| - k), |b|) == 0 && |m| - (|b| - k) <= |b|)
  {
    hide RoundSz, Holds, Rot, Total;
    TotalAligned(msgs);
    CirAligned(head, Total(msgs), |b|);
    Steps(tail, |m|, |b|);
  }

  lemma StateFacts(b: seq<byte>, head: nat, tail: nat, free: int, msgs: seq<Message>)
    requires RingState(b, head, tail, free, msgs)
    ensures free % 4 == 0 && (msgs == [] <==> free == |b|)
  {
    hide Holds, Rot, Cir, RecordSz;
    TotalAligned(msgs);
  }

  lemma EmptyState(b: seq<byte>)
    requires |b| % 4 == 0
    ensures RingState(b, 0, 0, |b|, [])
  {
  }
}
