/**
 The search for the first bit that is set. A word is the set of its bits, so a mask test asks whether any
 bit lies below a position and a right shift moves all bits down, losing those below zero.
 */
module BitSearch {

  const WORDSZ := 32

  type Word = set<nat>

  predicate IsWord(v: Word) {
    forall b :: b in v ==> b < WORDSZ
  }

  predicate Bit(words: seq<Word>, p: nat)
    requires p / WORDSZ < |words|
  {
    p % WORDSZ in words[p / WORDSZ]
  }

  /** Some of the lowest n bits of v is set. */
  predicate AnyBelow(v: Word, n: nat) {
    exists b :: b in v && b < n
  }

  function ShiftRight(v: Word, n: nat): Word {
    set b | b in v && b >= n :: b - n
  }

  /** The bits of v from position n on. */
  function From(v: Word, n: nat): Word {
    set b | b in v && b >= n
  }

  ghost predicate Least(v: Word, b: nat) {
    b in v && forall c :: c in v ==> b <= c
  }

  /** A non-empty set has a least element. */
  lemma {:induction false} LeastExists(v: Word, n: nat) returns (b: nat)
    requires v != {} && forall c :: c in v ==> c >= n
    ensures Least(v, b)
    decreases |v|, if n in v then 0 else 1, Gap(v, n)
  {
    if n in v {
      b := n;
    } else {
      b := LeastExists(v, n + 1);
    }
  }

  /** How far the given element lies above n. */
  ghost function Gap(v: Word, n: nat): nat
    requires v != {}
  {
    var c :| c in v;
    if c >= n then c - n else 0
  }

  /** One halving step keeps the lowest bit in view. */
  lemma Halve(v: Word, b: nat, half: nat)
    requires Least(v, b) && b < 2 * half
    ensures AnyBelow(v, half) ==> b < half
    ensures !AnyBelow(v, half) ==> half <= b && b - half < half && Least(ShiftRight(v, half), b - half)
  {
    if !AnyBelow(v, half) {
      assert b - half in ShiftRight(v, half);
    }
  }

  ghost predicate NoneBefore(words: seq<Word>, offset: nat, n: nat)
    requires offset + n <= WORDSZ * |words|
  {
    forall p :: offset <= p < offset + n ==> !Bit(words, p)
  }

  /** The halving of BitSearch1_w: b is the lowest bit of v. */
  method LowestBit(w: Word, ghost b: nat) returns (position: nat)
    requires Least(w, b) && b < WORDSZ
    ensures position == b
  {
    hide AnyBelow, ShiftRight, Least;
    var v := w;
    position := 0;
    Halve(v, b, 16);
    if !AnyBelow(v, 16) {
      v := ShiftRight(v, 16);
      position := position + 16;
    }
    Halve(v, b - position, 8);
    if !AnyBelow(v, 8) {
      v := ShiftRight(v, 8);
      position := position + 8;
    }
    Halve(v, b - position, 4);
    if !AnyBelow(v, 4) {
      v := ShiftRight(v, 4);
      position := position + 4;
    }
    Halve(v, b - position, 2);
    if !AnyBelow(v, 2) {
      v := ShiftRight(v, 2);
      position := position + 2;
    }
    Halve(v, b - position, 1);
    if !AnyBelow(v, 1) {
      position := position + 1;
    }
  }

  /** BitSearch1_w needs one readable word behind the range, though what it holds does not matter. */
  method BitSearch1(words: seq<Word>, offset: nat, width: int) returns (r: int)
    requires forall i :: 0 <= i < |words| ==> IsWord(words[i])
    requires words != [] && offset + width <= WORDSZ * (|words| - 1) && offset <= WORDSZ * (|words| - 1)
    ensures r == -1 || 0 <= r < width
    ensures r == -1 ==> width <= 0 || NoneBefore(words, offset, width)
    ensures r != -1 ==> NoneBefore(words, offset, r) && Bit(words, offset + r)
  {
    hide AnyBelow, ShiftRight, Bit, NoneBefore, Least, From;
    var off := offset % WORDSZ;
    var cp := offset / WORDSZ;
    var v := if off != 0 then From(words[cp], off) else words[cp];
    var position := 0;
    FirstWord(words, offset);
    while position < width
      invariant cp < |words| && 0 <= position
      invariant position == 0 ==> cp == offset / WORDSZ && v == From(words[cp], off)
      invariant position > 0 ==> offset + position == WORDSZ * cp && v == words[cp]
      invariant offset + position <= WORDSZ * |words| && NoneBefore(words, offset, position)
      decreases width - position
    {
      if v != {} {
        ghost var start := if position == 0 then offset - off else offset + position;
        ghost var b := LeastExists(v, 0);
        LeastInWord(words, offset, position, cp, v, b);
        if position == 0 {
          position := position - off;
        }
        ghost var base := position;
        var bit := LowestBit(v, b);
        position := position + bit;
        assert position == base + b;
        if position < width {
          return position;
        } else {
          NoneShorter(words, offset, position, width);
          return -1;
        }
      } else {
        EmptyWord(words, offset, position, cp, v);
        if position != 0 {
          position := position + WORDSZ;
        } else {
          position := WORDSZ - off;
        }
        cp := cp + 1;
        v := words[cp];
      }
    }
    if width > 0 {
      NoneShorter(words, offset, position, width);
    }
    return -1;
  }

  lemma FirstWord(words: seq<Word>, offset: nat)
    requires words != [] && offset <= WORDSZ * (|words| - 1)
    ensures offset / WORDSZ < |words| && offset == WORDSZ * (offset / WORDSZ) + offset % WORDSZ
    ensures offset % WORDSZ == 0 ==> From(words[offset / WORDSZ], 0) == words[offset / WORDSZ]
    ensures NoneBefore(words, offset, 0)
  {
  }

  lemma NoneShorter(words: seq<Word>, offset: nat, n: nat, m: nat)
    requires m <= n && offset + n <= WORDSZ * |words| && NoneBefore(words, offset, n)
    ensures NoneBefore(words, offset, m)
  {
  }

  /** Bit positions of word cp. */
  lemma InWord(words: seq<Word>, cp: nat, b: nat)
    requires cp < |words| && b < WORDSZ
    ensures (WORDSZ * cp + b) / WORDSZ == cp && (WORDSZ * cp + b) % WORDSZ == b
    ensures Bit(words, WORDSZ * cp + b) <==> b in words[cp]
  {
  }

  lemma LeastInWord(words: seq<Word>, offset: nat, position: nat, cp: nat, v: Word, b: nat)
    requires cp < |words| && IsWord(words[cp]) && Least(v, b)
    requires position == 0 ==> cp == offset / WORDSZ && v == From(words[cp], offset % WORDSZ)
    requires position > 0 ==> offset + position == WORDSZ * cp && v == words[cp]
    requires offset + position <= WORDSZ * |words| && NoneBefore(words, offset, position)
    ensures b < WORDSZ
    ensures var r := if position == 0 then b - offset % WORDSZ else position + b;
            0 <= r && offset + r < WORDSZ * |words| && NoneBefore(words, offset, r) && Bit(words, offset + r)
  {
    var r := if position == 0 then b - offset % WORDSZ else position + b;
    assert offset + r == WORDSZ * cp + b;
    InWord(words, cp, b);
    forall p | offset <= p < offset + r ensures !Bit(words, p) {
      if p >= offset + position {
        var c := p - WORDSZ * cp;
        InWord(words, cp, c);
        assert c < b && (c in words[cp] ==> c in v);
      }
    }
  }

  lemma EmptyWord(words: seq<Word>, offset: nat, position: nat, cp: nat, v: Word)
    requires cp < |words| && v == {}
    requires position == 0 ==> cp == offset / WORDSZ && v == From(words[cp], offset % WORDSZ)
    requires position > 0 ==> offset + position == WORDSZ * cp && v == words[cp]
    requires offset + position <= WORDSZ * |words| && NoneBefore(words, offset, position)
    ensures var n := if position != 0 then position + WORDSZ else WORDSZ - offset % WORDSZ;
            offset + n == WORDSZ * (cp + 1) && NoneBefore(words, offset, n)
  {
    var n := if position != 0 then position + WORDSZ else WORDSZ - offset % WORDSZ;
    forall p | offset <= p < offset + n ensures !Bit(words, p) {
      if p >= offset + position {
        InWord(words, cp, p - WORDSZ * cp);
        assert p - WORDSZ * cp !in v;
      }
    }
  }
}
