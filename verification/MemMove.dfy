/**
 Copying memory in place. Memory is an array of bytes and a pointer an index into it; MASZ bytes are
 copied at once where both pointers allow it.
 */
module MemMove {
  import opened Common

  const MASZ := 4

  // Values of size_t: a count that is decremented below zero wraps around.
  const SIZES := 0x1_0000_0000

  type Bytes = seq<byte>

  /** After the first k bytes of a copy from s to d. */
  ghost predicate FirstCopied(o: Bytes, m: Bytes, d: nat, s: nat, k: nat) {
    && |m| == |o| && d + k <= |o| && s + k <= |o|
    && (forall j {:trigger m[j]} :: 0 <= j < |o| ==> m[j] == (if d <= j < d + k then o[s + (j - d)] else o[j]))
  }

  /** After the bytes from the k-th on of a copy of n bytes from s to d. */
  ghost predicate LastCopied(o: Bytes, m: Bytes, d: nat, s: nat, k: nat, n: nat) {
    && |m| == |o| && k <= n && d + n <= |o| && s + n <= |o|
    && (forall j {:trigger m[j]} :: 0 <= j < |o| ==> m[j] == (if d + k <= j < d + n then o[s + (j - d)] else o[j]))
  }

  /** The memory after n bytes at s have been copied to d all at once. */
  function Copied(o: Bytes, d: nat, s: nat, n: nat): Bytes
    requires d + n <= |o| && s + n <= |o|
    ensures |Copied(o, d, s, n)| == |o|
  {
    o[..d] + o[s..s + n] + o[d + n..]
  }

  /** What stands at each place after the copy. */
  lemma CopiedAt(o: Bytes, d: nat, s: nat, n: nat, j: nat)
    requires d + n <= |o| && s + n <= |o| && j < |o|
    ensures Copied(o, d, s, n)[j] == if d <= j < d + n then o[s + (j - d)] else o[j]
  {
  }

  lemma AllCopied(o: Bytes, m: Bytes, d: nat, s: nat, n: nat)
    requires FirstCopied(o, m, d, s, n) || LastCopied(o, m, d, s, 0, n)
    ensures m == Copied(o, d, s, n)
  {
    var c := Copied(o, d, s, n);
    assert |c| == |o|;
    forall j | 0 <= j < |o| ensures m[j] == c[j] {
      CopiedAt(o, d, s, n, j);
    }
  }

  /** One more byte of an upward copy. */
  lemma UpStep(o: Bytes, m: Bytes, d: nat, s: nat, k: nat)
    requires FirstCopied(o, m, d, s, k) && d + k < |o| && s + k < |o|
    ensures FirstCopied(o, m[d + k := o[s + k]], d, s, k + 1)
  {
  }

  /** The bytes still to be read have not been overwritten. */
  lemma UpIntact(o: Bytes, m: Bytes, d: nat, s: nat, k: nat, j: nat)
    requires FirstCopied(o, m, d, s, k) && s + k <= j < |o| && (d <= s || j < d)
    ensures m[j] == o[j]
  {
  }

  /** One more byte of a downward copy. */
  lemma DownStep(o: Bytes, m: Bytes, d: nat, s: nat, k: nat, n: nat)
    requires LastCopied(o, m, d, s, k, n) && k > 0
    ensures LastCopied(o, m[d + k - 1 := o[s + k - 1]], d, s, k - 1, n)
  {
  }

  lemma DownIntact(o: Bytes, m: Bytes, d: nat, s: nat, k: nat, n: nat, j: nat)
    requires LastCopied(o, m, d, s, k, n) && j < s + k && s <= d
    ensures m[j] == o[j]
  {
  }

  /** One word of an upward copy: four bytes read, then four bytes written. */
  lemma WordUp(o: Bytes, m: Bytes, d: nat, s: nat, k: nat) returns (m': Bytes)
    requires FirstCopied(o, m, d, s, k) && d + k + 4 <= |o| && s + k + 4 <= |o| && (d <= s || s + k + 4 <= d)
    ensures var p, q := d + k, s + k;
            m' == m[p := m[q]][p + 1 := m[q + 1]][p + 2 := m[q + 2]][p + 3 := m[q + 3]]
    ensures FirstCopied(o, m', d, s, k + 4)
  {
    var p, q := d + k, s + k;
    UpIntact(o, m, d, s, k, q);
    UpIntact(o, m, d, s, k, q + 1);
    UpIntact(o, m, d, s, k, q + 2);
    UpIntact(o, m, d, s, k, q + 3);
    UpStep(o, m, d, s, k);
    UpStep(o, m[p := o[q]], d, s, k + 1);
    UpStep(o, m[p := o[q]][p + 1 := o[q + 1]], d, s, k + 2);
    UpStep(o, m[p := o[q]][p + 1 := o[q + 1]][p + 2 := o[q + 2]], d, s, k + 3);
    m' := m[p := m[q]][p + 1 := m[q + 1]][p + 2 := m[q + 2]][p + 3 := m[q + 3]];
  }

  lemma WordDown(o: Bytes, m: Bytes, d: nat, s: nat, k: nat, n: nat) returns (m': Bytes)
    requires LastCopied(o, m, d, s, k, n) && 4 <= k && s <= d
    ensures var p, q := d + k - 4, s + k - 4;
            m' == m[p + 3 := m[q + 3]][p + 2 := m[q + 2]][p + 1 := m[q + 1]][p := m[q]]
    ensures LastCopied(o, m', d, s, k - 4, n)
  {
    var p, q := d + k - 4, s + k - 4;
    DownIntact(o, m, d, s, k, n, q);
    DownIntact(o, m, d, s, k, n, q + 1);
    DownIntact(o, m, d, s, k, n, q + 2);
    DownIntact(o, m, d, s, k, n, q + 3);
    DownStep(o, m, d, s, k, n);
    DownStep(o, m[p + 3 := o[q + 3]], d, s, k - 1, n);
    DownStep(o, m[p + 3 := o[q + 3]][p + 2 := o[q + 2]], d, s, k - 2, n);
    DownStep(o, m[p + 3 := o[q + 3]][p + 2 := o[q + 2]][p + 1 := o[q + 1]], d, s, k - 3, n);
    m' := m[p + 3 := m[q + 3]][p + 2 := m[q + 2]][p + 1 := m[q + 1]][p := m[q]];
  }

  // ---------------------------------------------------------------- the loops

  /** Copies cnt bytes upwards from offset k of a copy that goes down in memory, or between disjoint parts. */
  method BytesUp(a: array<byte>, ghost o: Bytes, d: nat, s: nat, k: nat, cnt: nat)
    requires FirstCopied(o, a[..], d, s, k) && d + k + cnt <= a.Length && s + k + cnt <= a.Length
    requires d <= s || s + k + cnt <= d
    modifies a
    ensures FirstCopied(o, a[..], d, s, k + cnt)
  {
    var i := 0;
    while i < cnt
      invariant i <= cnt && FirstCopied(o, a[..], d, s, k + i)
    {
      UpIntact(o, a[..], d, s, k + i, s + k + i);
      UpStep(o, a[..], d, s, k + i);
      ghost var m := a[..];
      a[d + k + i] := a[s + k + i];
      assert a[..] == m[d + k + i := o[s + k + i]];
      i := i + 1;
    }
  }

  /**
   The do loop in front of the words, upwards. It tests its count behind the body, so a count of zero
   wraps around; inside says whether the loop ends without an access outside the memory.
   */
  method DoBytesUp(a: array<byte>, ghost o: Bytes, d: nat, s: nat, cnt: nat) returns (inside: bool)
    requires FirstCopied(o, a[..], d, s, 0) && d + cnt <= a.Length < SIZES && s + cnt <= a.Length
    requires |o| == a.Length && (d <= s || s + cnt <= d)
    modifies a
    ensures inside <==> cnt > 0
    ensures inside ==> FirstCopied(o, a[..], d, s, cnt)
  {
    hide FirstCopied;
    var i, left := 0, cnt;
    inside := true;
    while inside
      invariant inside && cnt > 0 ==> i < cnt && left == cnt - i && FirstCopied(o, a[..], d, s, i)
      invariant inside && cnt == 0 ==> left == (if i == 0 then 0 else SIZES - i)
      invariant d + i <= a.Length && s + i <= a.Length && (!inside ==> cnt == 0)
      decreases a.Length - d - i, inside
    {
      if d + i == a.Length || s + i == a.Length {
        inside := false;
      } else {
        if cnt > 0 {
          UpIntact(o, a[..], d, s, i, s + i);
          UpStep(o, a[..], d, s, i);
        }
        ghost var m := a[..];
        a[d + i] := a[s + i];
        assert a[..] == m[d + i := m[s + i]];
        i := i + 1;
        left := if left == 0 then SIZES - 1 else left - 1;
        if left == 0 {
          break;
        }
      }
    }
  }

  method WordsUp(a: array<byte>, ghost o: Bytes, d: nat, s: nat, k: nat, cnt: nat)
    requires FirstCopied(o, a[..], d, s, k) && d + k + MASZ * cnt <= a.Length && s + k + MASZ * cnt <= a.Length
    requires d <= s || s + k + MASZ * cnt <= d
    requires (d + k) % MASZ == 0 && (s + k) % MASZ == 0
    modifies a
    ensures FirstCopied(o, a[..], d, s, k + MASZ * cnt)
  {
    var i := 0;
    while i < cnt
      invariant i <= cnt && FirstCopied(o, a[..], d, s, k + MASZ * i)
    {
      var p, q := d + k + MASZ * i, s + k + MASZ * i;
      ghost var m := a[..];
      ghost var m' := WordUp(o, m, d, s, k + MASZ * i);
      a[p], a[p + 1], a[p + 2], a[p + 3] := a[q], a[q + 1], a[q + 2], a[q + 3];
      assert a[..] == m';
      i := i + 1;
    }
  }

  /** Copies cnt bytes downwards, ending at offset k - cnt of a copy that goes up in memory. */
  method BytesDown(a: array<byte>, ghost o: Bytes, d: nat, s: nat, k: nat, cnt: nat, ghost n: nat)
    requires LastCopied(o, a[..], d, s, k, n) && cnt <= k && s <= d
    modifies a
    ensures LastCopied(o, a[..], d, s, k - cnt, n)
  {
    var i := 0;
    while i < cnt
      invariant i <= cnt && LastCopied(o, a[..], d, s, k - i, n)
    {
      DownIntact(o, a[..], d, s, k - i, n, s + k - i - 1);
      DownStep(o, a[..], d, s, k - i, n);
      ghost var m := a[..];
      i := i + 1;
      a[d + k - i] := a[s + k - i];
      assert a[..] == m[d + k - i := o[s + k - i]];
    }
  }

  /** The do loop in front of the words, downwards. */
  method DoBytesDown(a: array<byte>, ghost o: Bytes, d: nat, s: nat, k: nat, cnt: nat) returns (inside: bool)
    requires LastCopied(o, a[..], d, s, k, k) && cnt <= k && s <= d && d + k <= a.Length < SIZES
    modifies a
    ensures inside <==> cnt > 0
    ensures inside ==> LastCopied(o, a[..], d, s, k - cnt, k)
  {
    hide LastCopied;
    var i, left := 0, cnt;
    inside := true;
    while inside
      invariant inside && cnt > 0 ==> i < cnt && left == cnt - i && LastCopied(o, a[..], d, s, k - i, k)
      invariant inside && cnt == 0 ==> left == (if i == 0 then 0 else SIZES - i)
      invariant i <= s + k <= a.Length && d + k <= a.Length && (!inside ==> cnt == 0)
      decreases s + k - i, inside
    {
      if i == s + k {
        inside := false;
      } else {
        if cnt > 0 {
          DownIntact(o, a[..], d, s, k - i, k, s + k - i - 1);
          DownStep(o, a[..], d, s, k - i, k);
        }
        ghost var m := a[..];
        i := i + 1;
        a[d + k - i] := a[s + k - i];
        assert a[..] == m[d + k - i := m[s + k - i]];
        left := if left == 0 then SIZES - 1 else left - 1;
        if left == 0 {
          break;
        }
      }
    }
  }

  method WordsDown(a: array<byte>, ghost o: Bytes, d: nat, s: nat, k: nat, cnt: nat, ghost n: nat)
    requires LastCopied(o, a[..], d, s, k, n) && MASZ * cnt <= k && s <= d
    requires (d + k) % MASZ == 0 && (s + k) % MASZ == 0
    modifies a
    ensures LastCopied(o, a[..], d, s, k - MASZ * cnt, n)
  {
    var i := 0;
    while i < cnt
      invariant i <= cnt && LastCopied(o, a[..], d, s, k - MASZ * i, n)
    {
      ghost var m := a[..];
      ghost var m' := WordDown(o, m, d, s, k - MASZ * i, n);
      i := i + 1;
      var p, q := d + k - MASZ * i, s + k - MASZ * i;
      a[p], a[p + 1], a[p + 2], a[p + 3] := a[q], a[q + 1], a[q + 2], a[q + 3];
      assert a[..] == m';
    }
  }

  /** The words and the trailing bytes of an upward copy. */
  method RestUp(a: array<byte>, ghost o: Bytes, d: nat, s: nat, at: nat, left: nat)
    requires FirstCopied(o, a[..], d, s, at) && d + at + left <= a.Length && s + at + left <= a.Length
    requires d <= s || s + at + left <= d
    requires left >= MASZ ==> (d + at) % MASZ == 0 && (s + at) % MASZ == 0
    modifies a
    ensures FirstCopied(o, a[..], d, s, at + left)
  {
    hide FirstCopied;
    var k, n := at, left;
    if n >= MASZ {
      var cnt := n / MASZ;
      Words(n);
      n := n % MASZ;
      WordsUp(a, o, d, s, k, cnt);
      k := k + MASZ * cnt;
    }
    BytesUp(a, o, d, s, k, n);
  }

  /** The words and the trailing bytes of a downward copy. */
  method RestDown(a: array<byte>, ghost o: Bytes, d: nat, s: nat, at: nat, left: nat, ghost count: nat)
    requires LastCopied(o, a[..], d, s, at, count) && left <= at && s <= d
    requires left >= MASZ ==> (d + at) % MASZ == 0 && (s + at) % MASZ == 0
    modifies a
    ensures LastCopied(o, a[..], d, s, at - left, count)
  {
    hide LastCopied;
    var k, n := at, left;
    if n >= MASZ {
      var cnt := n / MASZ;
      Words(n);
      n := n % MASZ;
      WordsDown(a, o, d, s, k, cnt, count);
      k := k - MASZ * cnt;
    }
    BytesDown(a, o, d, s, k, n, count);
  }

  lemma NothingCopied(o: Bytes, d: nat, s: nat, n: nat)
    requires d + n <= |o| && s + n <= |o|
    ensures FirstCopied(o, o, d, s, 0) && LastCopied(o, o, d, s, n, n)
  {
  }

  lemma Words(n: nat)
    ensures n == MASZ * (n / MASZ) + n % MASZ
  {
  }

  // ---------------------------------------------------------------- string.c

  /** What tkl_memcpy and tkl_memmove ask of a call: to copy something, unless both pointers are aligned. */
  predicate Copies(dst: nat, src: nat, n: nat) {
    n > 0 || (src % MASZ == 0 && dst % MASZ == 0)
  }

  /** The bytes to copy one by one in front of the words of an upward copy. */
  function Leading(d: nat, s: nat, n: nat): (cnt: nat)
    ensures cnt <= n && (cnt > 0 <==> n > 0)
    ensures n - cnt >= MASZ ==> (d + cnt) % MASZ == 0 && (s + cnt) % MASZ == 0
  {
    if s % MASZ == d % MASZ && n >= MASZ * 2 then MASZ - s % MASZ else n
  }

  /** The same downwards, from the ends d and s; both are aligned alike or not at all. */
  function Trailing(d: nat, s: nat, n: nat): (cnt: nat)
    requires s % MASZ != 0 || d % MASZ != 0
    ensures cnt <= n && (cnt > 0 <==> n > 0)
    ensures n - cnt >= MASZ ==> cnt <= d && cnt <= s && (d - cnt) % MASZ == 0 && (s - cnt) % MASZ == 0
  {
    if s % MASZ == d % MASZ && n >= MASZ * 2 then s % MASZ else n
  }

  /** The upward copy of tkl_memcpy and of the first branch of tkl_memmove. */
  method CopyUp(a: array<byte>, d: nat, s: nat, count: nat) returns (inside: bool)
    requires d + count <= a.Length < SIZES && s + count <= a.Length
    requires d <= s || s + count <= d
    modifies a
    ensures inside <==> Copies(d, s, count)
    ensures inside ==> a[..] == Copied(old(a[..]), d, s, count)
  {
    hide FirstCopied, Copied, Leading;
    ghost var o := a[..];
    var n := count;
    var k := 0;
    NothingCopied(o, d, s, count);
    if s % MASZ != 0 || d % MASZ != 0 {
      var cnt := Leading(d, s, n);
      n := n - cnt;
      inside := DoBytesUp(a, o, d, s, cnt);
      if !inside {
        return;
      }
      k := cnt;
    }
    RestUp(a, o, d, s, k, n);
    AllCopied(o, a[..], d, s, count);
    inside := true;
  }

  /** The downward copy of tkl_memmove. */
  method CopyDown(a: array<byte>, d: nat, s: nat, count: nat) returns (inside: bool)
    requires d + count <= a.Length < SIZES && s <= d
    modifies a
    ensures inside <==> Copies(d + count, s + count, count)
    ensures inside ==> a[..] == Copied(old(a[..]), d, s, count)
  {
    hide LastCopied, Copied, Trailing;
    ghost var o := a[..];
    var n := count;
    var k := count;
    NothingCopied(o, d, s, count);
    if (s + k) % MASZ != 0 || (d + k) % MASZ != 0 {
      var cnt := Trailing(d + k, s + k, n);
      n := n - cnt;
      inside := DoBytesDown(a, o, d, s, k, cnt);
      if !inside {
        return;
      }
      k := k - cnt;
    }
    RestDown(a, o, d, s, k, n, count);
    AllCopied(o, a[..], d, s, count);
    inside := true;
  }

  /**
   tkl_memmove: for any overlap and alignment the result is that of a simultaneous copy, but a copy of
   nothing between pointers that are not both aligned runs out of the memory.
   */
  method MemMove(a: array<byte>, dst: nat, src: nat, n: nat) returns (inside: bool)
    requires dst + n <= a.Length < SIZES && src + n <= a.Length
    modifies a
    ensures inside <==> Copies(dst, src, n)
    ensures inside ==> a[..] == Copied(old(a[..]), dst, src, n)
  {
    if dst < src {
      inside := CopyUp(a, dst, src, n);
    } else {
      inside := CopyDown(a, dst, src, n);
    }
  }

  /** tkl_memcpy, between parts that do not overlap. */
  method MemCpy(a: array<byte>, dst: nat, src: nat, n: nat) returns (inside: bool)
    requires dst + n <= a.Length < SIZES && src + n <= a.Length && (dst + n <= src || src + n <= dst)
    modifies a
    ensures inside <==> Copies(dst, src, n)
    ensures inside ==> a[..] == Copied(old(a[..]), dst, src, n)
  {
    inside := CopyUp(a, dst, src, n);
  }

  /** One call that runs out of its memory: nothing is to be copied, from address 1 to address 0. */
  method CopyOfNothing() returns (inside: bool)
    ensures !inside
  {
    var a := new byte[8];
    inside := MemMove(a, 0, 1, 0);
  }
}
