/** Word-packed bitsets: the enumeration of set bits upwards and downwards, and the operations that must
    leave the unused bits of the last word clear. */
module Bitsets {
  const WORD_BITS: nat := 64
  const SIZE: nat := 0x1_0000_0000_0000_0000     // one more than the largest bitset_bindex
  const LIST_SIZE: nat := 1024                   // BITSET_LIST_SIZE

  /** `bitset_word`, least significant bit first. */
  type Word = w: seq<bool> | |w| == WORD_BITS witness seq(WORD_BITS, _ => false)

  function Zero(): Word {
    seq(WORD_BITS, _ => false)
  }

  /** `word >> k`. */
  function ShiftRight(w: Word, k: nat): (r: Word)
    requires k <= WORD_BITS
  {
    w[k..] + seq(k, _ => false)
  }

  /** `word << k`. */
  function ShiftLeft(w: Word, k: nat): (r: Word)
    requires k <= WORD_BITS
  {
    seq(k, _ => false) + w[..WORD_BITS - k]
  }

  /** Bit `b` of a sequence of words. */
  predicate Has(words: seq<Word>, b: int) {
    0 <= b < |words| * WORD_BITS && words[b / WORD_BITS][b % WORD_BITS]
  }

  /** The set bits from `lo` to `hi`, exclusively, in ascending order. */
  function Up(words: seq<Word>, lo: int, hi: int): (bits: seq<int>)
    decreases hi - lo
  {
    if hi <= lo then [] else Up(words, lo, hi - 1) + (if Has(words, hi - 1) then [hi - 1] else [])
  }

  /** The same bits in descending order. */
  function Down(words: seq<Word>, lo: int, hi: int): (bits: seq<int>)
    decreases hi - lo
  {
    if hi <= lo then [] else Down(words, lo + 1, hi) + (if Has(words, lo) then [lo] else [])
  }

  predicate Rising(bits: seq<int>) {
    forall i, j | 0 <= i < j < |bits| :: bits[i] < bits[j]
  }

  predicate Falling(bits: seq<int>) {
    forall i, j | 0 <= i < j < |bits| :: bits[j] < bits[i]
  }

  /** Every set bit of the range exactly once, in order. */
  lemma {:induction false} UpIsExact(words: seq<Word>, lo: int, hi: int)
    ensures forall b :: b in Up(words, lo, hi) <==> lo <= b < hi && Has(words, b)
    ensures Rising(Up(words, lo, hi))
    decreases hi - lo
  {
    hide Has;
    if lo < hi {
      UpIsExact(words, lo, hi - 1);
      RisingAppend(Up(words, lo, hi - 1), hi - 1);
    }
  }

  lemma {:induction false} DownIsExact(words: seq<Word>, lo: int, hi: int)
    ensures forall b :: b in Down(words, lo, hi) <==> lo <= b < hi && Has(words, b)
    ensures Falling(Down(words, lo, hi))
    decreases hi - lo
  {
    hide Has;
    if lo < hi {
      DownIsExact(words, lo + 1, hi);
      FallingAppend(Down(words, lo + 1, hi), lo);
    }
  }

  lemma RisingAppend(bits: seq<int>, x: int)
    requires Rising(bits) && forall b | b in bits :: b < x
    ensures Rising(bits + [x])
  {
    forall i | 0 <= i < |bits|
      ensures bits[i] < x
    {
      assert bits[i] in bits;
    }
  }

  lemma FallingAppend(bits: seq<int>, x: int)
    requires Falling(bits) && forall b | b in bits :: x < b
    ensures Falling(bits + [x])
  {
    forall i | 0 <= i < |bits|
      ensures x < bits[i]
    {
      assert bits[i] in bits;
    }
  }

  lemma {:induction false} UpJoins(words: seq<Word>, lo: int, mid: int, hi: int)
    requires lo <= mid <= hi
    ensures Up(words, lo, mid) + Up(words, mid, hi) == Up(words, lo, hi)
    decreases hi - mid
  {
    if mid < hi { UpJoins(words, lo, mid, hi - 1); }
  }

  lemma {:induction false} DownJoins(words: seq<Word>, lo: int, mid: int, hi: int)
    requires lo <= mid <= hi
    ensures Down(words, mid, hi) + Down(words, lo, mid) == Down(words, lo, hi)
    decreases mid - lo
  {
    if lo < mid { DownJoins(words, lo + 1, mid, hi); }
  }

  function AllOnes(): Word {
    seq(WORD_BITS, _ => true)
  }

  /** `~word`. */
  function Complement(w: Word): (r: Word) {
    seq(WORD_BITS, i requires 0 <= i < WORD_BITS => !w[i])
  }

  /** `word & ((1 << k) - 1)`. */
  function Masked(w: Word, k: nat): (r: Word) {
    seq(WORD_BITS, i requires 0 <= i < WORD_BITS => i < k && w[i])
  }

  /** A stretch without set bits. */
  predicate Gap(words: seq<Word>, lo: int, hi: int) {
    forall b | lo <= b < hi :: !Has(words, b)
  }

  lemma {:induction false} UpGap(words: seq<Word>, lo: int, hi: int)
    requires Gap(words, lo, hi)
    ensures Up(words, lo, hi) == []
    decreases hi - lo
  {
    hide Has;
    if lo < hi { UpGap(words, lo, hi - 1); }
  }

  lemma {:induction false} DownGap(words: seq<Word>, lo: int, hi: int)
    requires Gap(words, lo, hi)
    ensures Down(words, lo, hi) == []
    decreases hi - lo
  {
    hide Has;
    if lo < hi { DownGap(words, lo + 1, hi); }
  }

  lemma UpSkip(words: seq<Word>, lo: int, mid: int, hi: int)
    requires lo <= mid <= hi && Gap(words, mid, hi)
    ensures Up(words, lo, hi) == Up(words, lo, mid)
  {
    UpJoins(words, lo, mid, hi);
    UpGap(words, mid, hi);
  }

  lemma DownSkip(words: seq<Word>, lo: int, mid: int, hi: int)
    requires lo <= mid <= hi && Gap(words, lo, mid)
    ensures Down(words, lo, hi) == Down(words, mid, hi)
  {
    DownJoins(words, lo, mid, hi);
    DownGap(words, lo, mid);
  }

  /** The word at hand while a loop shifts word number `x` to the right: what is left of it from bit
      `b` on. */
  lemma WordFrom(words: seq<Word>, x: nat, b: int)
    requires x < |words| && x * WORD_BITS <= b <= (x + 1) * WORD_BITS
    ensures var w := ShiftRight(words[x], b - x * WORD_BITS);
      && (w == Zero() ==> Gap(words, b, (x + 1) * WORD_BITS))
      && (w != Zero() ==> b < (x + 1) * WORD_BITS && ShiftRight(w, 1) == ShiftRight(words[x], b + 1 - x * WORD_BITS))
      && (b < (x + 1) * WORD_BITS ==> w[0] == Has(words, b))
  {
    var k := b - x * WORD_BITS;
    var w := ShiftRight(words[x], k);
    if k < WORD_BITS {
      Located(words, x, b);
      assert w[0] == words[x][k];
    } else {
      assert w == Zero();
    }
    if w == Zero() {
      forall y | b <= y < (x + 1) * WORD_BITS
        ensures !Has(words, y)
      {
        Located(words, x, y);
        assert w[y - b] == words[x][y - x * WORD_BITS];
      }
    }
  }

  /** Which word and which bit of it. */
  lemma Located(words: seq<Word>, x: nat, b: int)
    requires x < |words| && x * WORD_BITS <= b < (x + 1) * WORD_BITS
    ensures b / WORD_BITS == x && b % WORD_BITS == b - x * WORD_BITS
    ensures 0 <= b < |words| * WORD_BITS && Has(words, b) == words[x][b - x * WORD_BITS]
  {
  }

  lemma WholeWord(words: seq<Word>, x: nat)
    requires x < |words| && words[x] == Zero()
    ensures Gap(words, x * WORD_BITS, (x + 1) * WORD_BITS)
  {
    forall b | x * WORD_BITS <= b < (x + 1) * WORD_BITS
      ensures !Has(words, b)
    {
      Located(words, x, b);
    }
  }

  /** The word at hand while a loop shifts word number `x` to the left: what is left of it up to bit `b`. */
  lemma WordUpTo(words: seq<Word>, x: nat, b: int)
    requires x < |words| && x * WORD_BITS - 1 <= b < (x + 1) * WORD_BITS
    ensures var w := ShiftLeft(words[x], (x + 1) * WORD_BITS - 1 - b);
      && (w == Zero() ==> Gap(words, x * WORD_BITS, b + 1))
      && (w != Zero() ==> b >= x * WORD_BITS && ShiftLeft(w, 1) == ShiftLeft(words[x], (x + 1) * WORD_BITS - b))
      && (b >= x * WORD_BITS ==> w[WORD_BITS - 1] == Has(words, b))
  {
    var k := (x + 1) * WORD_BITS - 1 - b;
    var w := ShiftLeft(words[x], k);
    if k < WORD_BITS {
      Located(words, x, b);
      assert w[WORD_BITS - 1] == words[x][WORD_BITS - 1 - k];
    } else {
      assert w == Zero();
    }
    if w == Zero() {
      forall y | x * WORD_BITS <= y < b + 1
        ensures !Has(words, y)
      {
        Located(words, x, y);
        assert w[y - x * WORD_BITS + k] == words[x][y - x * WORD_BITS];
      }
    }
  }

  lemma GapJoins(words: seq<Word>, lo: int, mid: int, hi: int)
    requires Gap(words, lo, mid) && Gap(words, mid, hi)
    ensures Gap(words, lo, hi)
  {
  }

  lemma UpNext(words: seq<Word>, lo: int, b: int)
    requires lo <= b
    ensures Up(words, lo, b + 1) == Up(words, lo, b) + (if Has(words, b) then [b] else [])
  {
  }

  /** The index of a word in the cache, in unsigned arithmetic. */
  function CacheOffset(windex: nat, cindex: nat): nat
    requires cindex < SIZE
  {
    (windex + SIZE - cindex) % SIZE
  }

  /** One comparison tells whether the word is in the cache. */
  lemma WindowHit(windex: nat, cindex: nat, csize: nat)
    requires windex < SIZE && cindex < SIZE && cindex + csize <= SIZE
    ensures CacheOffset(windex, cindex) < csize <==> cindex <= windex < cindex + csize
    ensures cindex <= windex ==> CacheOffset(windex, cindex) == windex - cindex
  {
    if cindex <= windex {
      assert (windex - cindex + SIZE) % SIZE == windex - cindex;
    }
  }

  /** Changing one bit of one word. */
  lemma OneWordChanged(before: seq<Word>, after: seq<Word>, bitno: nat, v: bool)
    requires bitno < |before| * WORD_BITS && |after| == |before|
    requires after == before[bitno / WORD_BITS := before[bitno / WORD_BITS][bitno % WORD_BITS := v]]
    ensures forall b :: Has(after, b) <==> if b == bitno then v else Has(before, b)
  {
    forall b
      ensures Has(after, b) <==> if b == bitno then v else Has(before, b)
    {
      if 0 <= b < |before| * WORD_BITS && b != bitno && b / WORD_BITS == bitno / WORD_BITS {
        assert b % WORD_BITS != bitno % WORD_BITS;
      }
    }
  }

  lemma AllZero(words: seq<Word>)
    requires forall x | 0 <= x < |words| :: words[x] == Zero()
    ensures forall b :: !Has(words, b)
  {
  }

  class Bitset {
    const nBits: nat             // BITSET_SIZE_
    const words: array<Word>     // of b.csize elements

    /** The words suffice for the bits, and the unused bits of the last word are clear. */
    ghost predicate Valid()
      reads words
    {
      && words.Length == (nBits + WORD_BITS - 1) / WORD_BITS
      && nBits + WORD_BITS <= SIZE
      && Gap(words[..], nBits, words.Length * WORD_BITS)
    }

    /** The loop over the bits of one word, from bit `start` on, with or without the test for a full
        list. */
    method ListWord(list: array<int>, count0: nat, num: nat, x: nat, start: nat, checks: bool, ghost from: nat)
      returns (count: nat, b: nat, full: bool)
      requires x < words.Length && x * WORD_BITS <= start <= (x + 1) * WORD_BITS && from <= start
      requires count0 < num <= list.Length && list[..count0] == Up(words[..], from, start)
      requires checks || count0 + WORD_BITS < num
      modifies list
      ensures count0 <= count <= num && list[..count] == Up(words[..], from, b)
      ensures (forall i | count <= i < list.Length :: list[i] == old(list[i]))
      ensures full ==> count == num && start < b <= (x + 1) * WORD_BITS
      ensures !full ==> count < num && b == (x + 1) * WORD_BITS
    {
      hide Up, Has, Gap, ShiftRight;
      ghost var ws := words[..];
      count := count0;
      var bitno := start;
      WordFrom(ws, x, start);
      var word := ShiftRight(words[x], start - x * WORD_BITS);
      while word != Zero()
        invariant start <= bitno <= (x + 1) * WORD_BITS
        invariant word == ShiftRight(ws[x], bitno - x * WORD_BITS)
        invariant count0 <= count < num && (checks || count - count0 <= bitno - start)
        invariant list[..count] == Up(ws, from, bitno)
        invariant forall i | count <= i < list.Length :: list[i] == old(list[i])
        decreases (x + 1) * WORD_BITS - bitno
      {
        WordFrom(ws, x, bitno);
        UpNext(ws, from, bitno);
        if word[0] {
          list[count] := bitno;
          assert list[..count + 1] == list[..count] + [bitno];
          count := count + 1;
          if checks && count >= num {
            return count, bitno + 1, true;
          }
        }
        word := ShiftRight(word, 1);
        bitno := bitno + 1;
      }
      WordFrom(ws, x, bitno);
      UpSkip(ws, from, bitno, (x + 1) * WORD_BITS);
      return count, (x + 1) * WORD_BITS, false;
    }

    /** `abitset_list`. */
    method List(list: array<int>, num: nat, next0: nat) returns (count: nat, next: nat)
      requires Valid() && 0 < num <= list.Length
      modifies list
      ensures count <= num && next0 <= next && list[..count] == Up(words[..], next0, next)
      ensures count < num ==> Gap(words[..], next, words.Length * WORD_BITS)
      ensures forall i | count <= i < list.Length :: list[i] == old(list[i])
    {
      hide Up, Has, Gap, ShiftRight;
      ghost var ws := words[..];
      var bitno: nat := next0;
      var windex: nat;
      var bitoff: nat;
      count, next := 0, next0;
      UpGap(ws, next0, next0) by { NoGap(ws, next0); }
      if bitno == 0 {
        windex := 0;
        NoGap(ws, 0);
        while windex < words.Length && words[windex] == Zero()
          invariant windex <= words.Length && Gap(ws, 0, windex * WORD_BITS) && unchanged(list)
        {
          WholeWord(ws, windex);
          GapJoins(ws, 0, windex * WORD_BITS, (windex + 1) * WORD_BITS);
          windex := windex + 1;
        }
        if windex >= words.Length {
          return;
        }
        bitoff := windex * WORD_BITS;
        UpGap(ws, 0, bitoff);
      } else {
        if bitno >= nBits {
          LateGap(bitno);
          return;
        }
        windex := bitno / WORD_BITS;
        bitno := bitno % WORD_BITS;
        if bitno != 0 {
          bitoff := windex * WORD_BITS;
          var full;
          count, next, full := ListWord(list, count, num, windex, bitoff + bitno, true, next0);
          if full {
            return;
          }
          windex := windex + 1;
        }
        bitoff := windex * WORD_BITS;
      }
      while windex < words.Length
        invariant windex <= words.Length && bitoff == windex * WORD_BITS && next0 <= bitoff
        invariant count < num && list[..count] == Up(ws, next0, bitoff)
        invariant forall i | count <= i < list.Length :: list[i] == old(list[i])
      {
        if words[windex] == Zero() {
          WholeWord(ws, windex);
          UpSkip(ws, next0, bitoff, bitoff + WORD_BITS);
        } else {
          var full;
          count, next, full := ListWord(list, count, num, windex, bitoff, !(count + WORD_BITS < num), next0);
          if full {
            return;
          }
        }
        windex := windex + 1;
        bitoff := bitoff + WORD_BITS;
      }
      next := bitoff;
      NoGap(ws, next);
    }

    lemma LateGap(b: nat)
      requires Valid() && nBits <= b
      ensures Gap(words[..], b, words.Length * WORD_BITS)
    {
    }

    /** `abitset_small_list`, for bitsets of one word. */
    method SmallList(list: array<int>, num: nat, next0: nat) returns (count: nat, next: nat)
      requires Valid() && words.Length == 1 && 0 < num <= list.Length
      modifies list
      ensures count <= num && next0 <= next && list[..count] == Up(words[..], next0, next)
      ensures count < num ==> Gap(words[..], next, words.Length * WORD_BITS)
      ensures forall i | count <= i < list.Length :: list[i] == old(list[i])
    {
      hide Up, Has, Gap, ShiftRight;
      ghost var ws := words[..];
      count, next := 0, next0;
      UpGap(ws, next0, next0) by { NoGap(ws, next0); }
      if words[0] == Zero() {
        WholeWord(ws, 0);
        LaterGap(ws, 0, next0, WORD_BITS);
        return;
      }
      var bitno := next0;
      if bitno >= nBits {
        LateGap(bitno);
        return;
      }
      var word := ShiftRight(words[0], bitno);
      var checks := !(num >= WORD_BITS);
      WordFrom(ws, 0, bitno);
      while word != Zero()
        invariant next0 <= bitno <= WORD_BITS && word == ShiftRight(ws[0], bitno)
        invariant count <= bitno - next0 && count < num + (if checks then 0 else 1)
        invariant list[..count] == Up(ws, next0, bitno)
        invariant forall i | count <= i < list.Length :: list[i] == old(list[i])
        decreases WORD_BITS - bitno
      {
        WordFrom(ws, 0, bitno);
        UpNext(ws, next0, bitno);
        if word[0] {
          list[count] := bitno;
          assert list[..count + 1] == list[..count] + [bitno];
          count := count + 1;
          if checks && count >= num {
            next := bitno + 1;
            return;
          }
        }
        word := ShiftRight(word, 1);
        bitno := bitno + 1;
      }
      WordFrom(ws, 0, bitno);
      next := bitno;
    }

    /** `abitset_list_reverse`, where `next` counts from the top; the offset of the word below the first
        wraps round. */
    method ListReverse(list: array<int>, num: nat, next0: nat) returns (count: nat, next: nat)
      requires Valid() && 0 < num <= list.Length
      modifies list
      ensures count <= num && next0 <= next
      ensures list[..count] == Down(words[..], if next <= nBits then nBits - next else 0, nBits - next0)
      ensures count < num ==> Gap(words[..], 0, if next <= nBits then nBits - next else 0)
      ensures forall i | count <= i < list.Length :: list[i] == old(list[i])
    {
      hide Down, Has, Gap, ShiftLeft;
      ghost var ws := words[..];
      count, next := 0, next0;
      var rbitno := next0;
      if rbitno >= nBits {
        DownEmpty(ws, if next <= nBits then nBits - next else 0, nBits - next0);
        NoGap(ws, 0);
        return;
      }
      var bitno := nBits - (rbitno + 1);
      ghost var top := bitno + 1;
      var windex := bitno / WORD_BITS;
      var bitcnt := bitno % WORD_BITS;
      var bitoff := windex * WORD_BITS;
      DownEmpty(ws, top, top);
      while true
        invariant 0 <= windex < words.Length && bitoff == windex * WORD_BITS && 0 <= bitcnt < WORD_BITS
        invariant bitoff + bitcnt < top == nBits - next0
        invariant count < num && list[..count] == Down(ws, bitoff + bitcnt + 1, top)
        invariant forall i | count <= i < list.Length :: list[i] == old(list[i])
        decreases windex
      {
        var full, b := false, 0;
        count, b, full := ListWordDown(list, count, num, windex, bitoff + bitcnt, top);
        if full {
          next := nBits - b;
          return;
        }
        if windex == 0 {
          break;
        }
        bitoff := bitoff - WORD_BITS;
        bitcnt := WORD_BITS - 1;
        windex := windex - 1;
      }
      bitoff := (bitoff + SIZE - WORD_BITS) % SIZE;
      next := (nBits + SIZE - (bitoff + 1)) % SIZE;
      NoGap(ws, 0);
    }

    /** The loop over the bits of one word downwards from bit `start`. */
    method ListWordDown(list: array<int>, count0: nat, num: nat, x: nat, start: nat, ghost top: nat)
      returns (count: nat, b: nat, full: bool)
      requires x < words.Length && x * WORD_BITS <= start < (x + 1) * WORD_BITS && start < top
      requires count0 < num <= list.Length && list[..count0] == Down(words[..], start + 1, top)
      modifies list
      ensures count0 <= count <= num && list[..count] == Down(words[..], b, top)
      ensures forall i | count <= i < list.Length :: list[i] == old(list[i])
      ensures full ==> count == num && x * WORD_BITS <= b <= start
      ensures !full ==> count < num && b == x * WORD_BITS
    {
      hide Down, Has, Gap, ShiftLeft;
      ghost var ws := words[..];
      count := count0;
      var bitcnt: int := start % WORD_BITS;
      WordUpTo(ws, x, start);
      var word := ShiftLeft(words[x], WORD_BITS - 1 - bitcnt);
      while word != Zero()
        invariant -1 <= bitcnt < WORD_BITS && x * WORD_BITS + bitcnt <= start
        invariant word == ShiftLeft(ws[x], WORD_BITS - 1 - bitcnt)
        invariant count0 <= count < num
        invariant list[..count] == Down(ws, x * WORD_BITS + bitcnt + 1, top)
        invariant forall i | count <= i < list.Length :: list[i] == old(list[i])
        decreases bitcnt + 1
      {
        var bit := x * WORD_BITS + bitcnt;
        WordUpTo(ws, x, bit);
        DownNext(ws, bit, top);
        if word[WORD_BITS - 1] {
          list[count] := bit;
          assert list[..count + 1] == list[..count] + [bit];
          count := count + 1;
          if count >= num {
            return count, bit, true;
          }
        }
        word := ShiftLeft(word, 1);
        bitcnt := bitcnt - 1;
      }
      WordUpTo(ws, x, x * WORD_BITS + bitcnt);
      DownSkip(ws, x * WORD_BITS, x * WORD_BITS + bitcnt + 1, top);
      return count, x * WORD_BITS, false;
    }

    /** `BITSET_FOR_EACH`: the indices in the order in which the loop body sees them. */
    method ForEach(min: nat) returns (visited: seq<int>)
      requires Valid()
      ensures visited == Up(words[..], min, words.Length * WORD_BITS)
    {
      hide Up, Gap, Has;
      ghost var ws := words[..];
      ghost var total := words.Length * WORD_BITS;
      var list := new int[LIST_SIZE](_ => 0);
      var next, num := min, LIST_SIZE;
      visited := [];
      UpGap(ws, min, min) by { NoGap(ws, min); }
      while num == LIST_SIZE
        invariant min <= next && visited == Up(ws, min, next)
        invariant num <= LIST_SIZE && (num < LIST_SIZE ==> Gap(ws, next, total))
        decreases num == LIST_SIZE, if next < total then total - next else 0
      {
        ghost var before := next;
        num, next := List(list, LIST_SIZE, next);
        UpJoins(ws, min, before, next);
        if num == 0 {
          break;
        }
        Beyond(ws, before, next, total);
        visited := visited + list[..num];
      }
      Rest(ws, min, next, total);
    }

    /** `BITSET_FOR_EACH_REVERSE`. */
    method ForEachReverse(min: nat) returns (visited: seq<int>)
      requires Valid()
      ensures visited == Down(words[..], 0, nBits - min)
    {
      hide Down, Gap, Has;
      ghost var ws := words[..];
      var list := new int[LIST_SIZE](_ => 0);
      var next, num := min, LIST_SIZE;
      visited := [];
      DownEmpty(ws, if min <= nBits then nBits - min else 0, nBits - min);
      while num == LIST_SIZE
        invariant min <= next && visited == Down(ws, if next <= nBits then nBits - next else 0, nBits - min)
        invariant num <= LIST_SIZE && (num < LIST_SIZE ==> Gap(ws, 0, if next <= nBits then nBits - next else 0))
        decreases num == LIST_SIZE, if next < nBits then nBits - next else 0
      {
        ghost var before := next;
        num, next := ListReverse(list, LIST_SIZE, next);
        if before <= nBits { DownJoins(ws, if next <= nBits then nBits - next else 0, nBits - before, nBits - min); }
        if num == 0 {
          if before > nBits { DownEmpty(ws, 0, nBits - before); }
          break;
        }
        if before >= nBits { DownEmpty(ws, if next <= nBits then nBits - next else 0, nBits - before); }
        if next == before { DownEmpty(ws, nBits - next, nBits - before); }
        visited := visited + list[..num];
      }
      if next <= nBits { DownSkip(ws, 0, nBits - next, nBits - min); }
    }

    /** `bitset_next`: the first set bit from `bitno` on, or BITSET_BINDEX_MAX. */
    method Next(bitno: nat) returns (val: int)
      requires Valid()
      ensures val == SIZE - 1 || (bitno <= val && Has(words[..], val) && Gap(words[..], bitno, val))
      ensures Gap(words[..], bitno, words.Length * WORD_BITS) ==> val == SIZE - 1
      ensures !Gap(words[..], bitno, words.Length * WORD_BITS) ==> Has(words[..], val)
    {
      hide Up, Has;
      ghost var ws := words[..];
      var list := new int[1](_ => 0);
      var num, next := List(list, 1, bitno);
      UpIsExact(ws, bitno, next);
      if num == 0 {
        Nothing(ws, bitno, next, words.Length * WORD_BITS);
        return SIZE - 1;
      }
      val := list[0];
      assert list[..num] == [val];
      assert val in Up(ws, bitno, next);
      forall b | bitno <= b < val
        ensures !Has(ws, b)
      {
        assert b !in [val];
      }
      Within(ws, val);
    }

    /** `bitset_prev`, which counts from the top: the last set bit below `nBits - bitno`, or
        BITSET_BINDEX_MAX. */
    method Prev(bitno: nat) returns (val: int)
      requires Valid()
      ensures val == SIZE - 1 ||
        (0 <= val < nBits - bitno && Has(words[..], val) && Gap(words[..], val + 1, nBits - bitno))
      ensures Gap(words[..], 0, nBits - bitno) ==> val == SIZE - 1
      ensures !Gap(words[..], 0, nBits - bitno) ==> Has(words[..], val)
    {
      hide Down, Has;
      ghost var ws := words[..];
      var list := new int[1](_ => 0);
      var num, next := ListReverse(list, 1, bitno);
      ghost var lo := if next <= nBits then nBits - next else 0;
      DownIsExact(ws, lo, nBits - bitno);
      if num == 0 {
        forall b | 0 <= b < nBits - bitno
          ensures !Has(ws, b)
        {
          assert lo <= b ==> b !in Down(ws, lo, nBits - bitno);
        }
        return SIZE - 1;
      }
      val := list[0];
      assert list[..num] == [val];
      assert val in Down(ws, lo, nBits - bitno);
      forall b | val < b < nBits - bitno
        ensures !Has(ws, b)
      {
        assert b !in [val];
      }
    }

    /** `bitset_only_set_p`. */
    method OnlySet(bitno: nat) returns (only: bool)
      requires Valid()
      ensures only <==> OnlyBit(words[..], bitno)
    {
      hide Up, Has, OnlyBit;
      ghost var ws := words[..];
      var list := new int[2](_ => 0);
      var num, next := List(list, 2, 0);
      UpIsExact(ws, 0, next);
      RisingPair(list[..num]) by { assert Rising(list[..num]); }
      if num != 1 {
        if num == 0 {
          NoneSet(ws, next, words.Length * WORD_BITS);
          NotOnly(ws, bitno);
        } else {
          assert list[..num][0] in Up(ws, 0, next) && list[..num][1] in Up(ws, 0, next);
          TwoBits(ws, bitno, list[..num][0], list[..num][1]);
        }
        return false;
      }
      var x := list[0];
      assert list[..num] == [x];
      SingleBit(ws, next, words.Length * WORD_BITS, x);
      OneBit(ws, bitno, x);
      only := x == bitno;
    }

    /** `abitset_unused_clear`: keep the used bits of the last word. */
    method UnusedClear()
      requires words.Length == (nBits + WORD_BITS - 1) / WORD_BITS && nBits + WORD_BITS <= SIZE
      modifies words
      ensures Valid()
      ensures forall b | 0 <= b < nBits :: Has(words[..], b) == old(Has(words[..], b))
    {
      ghost var before := words[..];
      var lastBit := nBits % WORD_BITS;
      if lastBit != 0 {
        var last := words.Length - 1;
        words[last] := Masked(words[last], lastBit);
        ghost var after := words[..];
        forall b | 0 <= b < words.Length * WORD_BITS
          ensures Has(after, b) == (b < nBits && Has(before, b))
        {
          var x := b / WORD_BITS;
          Located(before, x, b);
          Located(after, x, b);
        }
      }
    }

    /** `abitset_ones`. */
    method Ones()
      requires Valid()
      modifies words
      ensures Valid() && forall b :: Has(words[..], b) <==> 0 <= b < nBits
    {
      for i := 0 to words.Length
        invariant forall x | 0 <= x < i :: words[x] == AllOnes()
      {
        words[i] := AllOnes();
      }
      ghost var filled := words[..];
      UnusedClear();
      forall b
        ensures Has(words[..], b) <==> 0 <= b < nBits
      {
        if 0 <= b < nBits { Located(filled, b / WORD_BITS, b); }
      }
    }

    /** `abitset_not`, into a bitset of the same size, which may be this one. */
    method Not(src: Bitset)
      requires Valid() && src.Valid() && src.nBits == nBits
      modifies words
      ensures Valid() && forall b | 0 <= b < nBits :: Has(words[..], b) == !old(Has(src.words[..], b))
    {
      ghost var before := src.words[..];
      for i := 0 to words.Length
        invariant forall x | 0 <= x < i :: words[x] == Complement(before[x])
        invariant forall x | i <= x < words.Length :: src.words[x] == before[x]
      {
        words[i] := Complement(src.words[i]);
      }
      ghost var flipped := words[..];
      UnusedClear();
      forall b | 0 <= b < nBits
        ensures Has(words[..], b) == !Has(before, b)
      {
        Located(before, b / WORD_BITS, b);
        Located(flipped, b / WORD_BITS, b);
      }
    }

    /** `bitset_set`, for a bit within the bitset: the word is always cached. */
    method Set(bitno: nat)
      requires Valid() && bitno < nBits
      modifies words
      ensures Valid() && forall b :: Has(words[..], b) <==> b == bitno || old(Has(words[..], b))
    {
      ghost var before := words[..];
      var windex := bitno / WORD_BITS;
      var offset := CacheOffset(windex, 0);
      WindowHit(windex, 0, words.Length);
      words[offset] := words[offset][bitno % WORD_BITS := true];
      OneWordChanged(before, words[..], bitno, true);
    }

    /** `bitset_reset`, for a bit within the bitset. */
    method Reset(bitno: nat)
      requires Valid() && bitno < nBits
      modifies words
      ensures Valid() && forall b :: Has(words[..], b) <==> b != bitno && old(Has(words[..], b))
    {
      ghost var before := words[..];
      var windex := bitno / WORD_BITS;
      var offset := CacheOffset(windex, 0);
      WindowHit(windex, 0, words.Length);
      words[offset] := words[offset][bitno % WORD_BITS := false];
      OneWordChanged(before, words[..], bitno, false);
    }

    /** `bitset_test`; outside the cached words the answer of an `abitset` is no. */
    method Test(bitno: nat) returns (answer: bool)
      requires Valid() && bitno < SIZE
      ensures answer == Has(words[..], bitno)
    {
      var windex := bitno / WORD_BITS;
      var offset := CacheOffset(windex, 0);
      WindowHit(windex, 0, words.Length);
      if offset < words.Length {
        Located(words[..], windex, bitno);
        answer := ShiftRight(words[offset], bitno % WORD_BITS)[0];
      } else {
        answer := false;
      }
    }

    /** `bitset_copy_`: the fallback between bitsets of different kinds. */
    method Copy(src: Bitset)
      requires Valid() && src.Valid() && src.nBits <= nBits && words != src.words
      modifies words
      ensures Valid() && forall b :: Has(words[..], b) <==> Has(src.words[..], b)
    {
      hide Up, Has;
      for i := 0 to words.Length
        invariant forall x | 0 <= x < i :: words[x] == Zero()
      {
        words[i] := Zero();
      }
      ghost var ws := src.words[..];
      ghost var total := |ws| * WORD_BITS;
      AllZero(words[..]);
      var visited := src.ForEach(0);
      UpIsExact(ws, 0, total);
      for k := 0 to |visited|
        invariant Valid()
        invariant forall b :: Has(words[..], b) <==> b in visited[..k]
      {
        assert visited[k] in visited;
        src.UsedBit(visited[k]);
        assert visited[..k + 1] == visited[..k] + [visited[k]];
        Set(visited[k]);
      }
      assert visited[..|visited|] == visited;
      forall b
        ensures Has(words[..], b) <==> Has(ws, b)
      {
        if Has(ws, b) { Within(ws, b); }
      }
    }

    lemma UsedBit(b: int)
      requires Valid() && Has(words[..], b)
      ensures 0 <= b < nBits
    {
    }

    /** `bitset_count_`: the number of set bits. */
    method Count() returns (count: nat)
      requires Valid()
      ensures count == |Up(words[..], 0, words.Length * WORD_BITS)|
    {
      hide Up, Gap, Has;
      ghost var ws := words[..];
      ghost var total := words.Length * WORD_BITS;
      var list := new int[LIST_SIZE](_ => 0);
      var next, num := 0, 1;
      count := 0;
      UpGap(ws, 0, 0) by { NoGap(ws, 0); }
      while num != 0
        invariant 0 <= next && count == |Up(ws, 0, next)|
        invariant num == 0 ==> Gap(ws, next, total)
        decreases num != 0, if next < total then total - next else 0
      {
        ghost var before := next;
        num, next := List(list, LIST_SIZE, next);
        UpJoins(ws, 0, before, next);
        if num != 0 { Beyond(ws, before, next, total); }
        count := count + num;
      }
      Rest(ws, 0, next, total);
    }
  }

  predicate HasExactly(words: seq<Word>, bitno: nat, b: int) {
    Has(words, b) <==> b == bitno
  }

  /** The bit is set, and no other is. */
  ghost predicate OnlyBit(words: seq<Word>, bitno: nat) {
    forall b :: HasExactly(words, bitno, b)
  }

  lemma TwoBits(words: seq<Word>, bitno: nat, x: int, y: int)
    requires Has(words, x) && Has(words, y) && x != y
    ensures !OnlyBit(words, bitno)
  {
    assert HasExactly(words, bitno, x) <==> x == bitno;
    assert HasExactly(words, bitno, y) <==> y == bitno;
  }

  lemma OneBit(words: seq<Word>, bitno: nat, x: int)
    requires forall b :: Has(words, b) <==> b == x
    ensures OnlyBit(words, bitno) <==> x == bitno
  {
    hide Has;
    assert HasExactly(words, bitno, x) <==> x == bitno;
  }

  lemma SingleBit(words: seq<Word>, next: int, total: int, x: int)
    requires Up(words, 0, next) == [x] && Gap(words, next, total) && total == |words| * WORD_BITS
    ensures forall b :: Has(words, b) <==> b == x
  {
    hide Up, Has;
    UpIsExact(words, 0, next);
    assert x in [x];
    forall b
      ensures Has(words, b) <==> b == x
    {
      if Has(words, b) {
        Within(words, b);
        assert b < next;
        assert b in [x];
      }
    }
  }

  lemma NotOnly(words: seq<Word>, bitno: nat)
    requires !Has(words, bitno)
    ensures !OnlyBit(words, bitno)
  {
    hide Has;
    assert !HasExactly(words, bitno, bitno);
  }

  lemma RisingPair(bits: seq<int>)
    requires Rising(bits)
    ensures |bits| >= 2 ==> bits[0] < bits[1]
  {
  }

  lemma Nothing(words: seq<Word>, lo: int, next: int, total: int)
    requires Up(words, lo, next) == [] && Gap(words, next, total)
    ensures Gap(words, lo, total)
  {
    hide Up, Has;
    UpIsExact(words, lo, next);
    forall b | lo <= b < total
      ensures !Has(words, b)
    {
      assert b < next ==> b !in Up(words, lo, next);
    }
  }

  lemma NoneSet(words: seq<Word>, next: int, total: int)
    requires Up(words, 0, next) == [] && Gap(words, next, total) && total == |words| * WORD_BITS
    ensures forall b :: !Has(words, b)
  {
    Nothing(words, 0, next, total);
    forall b
      ensures !Has(words, b)
    {
      if Has(words, b) { Within(words, b); }
    }
  }

  lemma LaterGap(words: seq<Word>, lo: int, mid: int, hi: int)
    requires Gap(words, lo, hi) && lo <= mid
    ensures Gap(words, mid, hi)
  {
  }

  lemma DownEmpty(words: seq<Word>, lo: int, hi: int)
    requires hi <= lo
    ensures Down(words, lo, hi) == []
  {
  }

  lemma DownNext(words: seq<Word>, b: int, hi: int)
    requires b < hi
    ensures Down(words, b, hi) == Down(words, b + 1, hi) + (if Has(words, b) then [b] else [])
  {
  }

  /** Whatever is found lies within the words. */
  lemma Beyond(words: seq<Word>, lo: int, hi: int, total: int)
    requires total == |words| * WORD_BITS && Up(words, lo, hi) != []
    ensures lo < hi && lo < total
  {
    hide Up, Has;
    UpIsExact(words, lo, hi);
    assert Up(words, lo, hi)[0] in Up(words, lo, hi);
    Within(words, Up(words, lo, hi)[0]);
  }

  lemma Within(words: seq<Word>, b: int)
    requires Has(words, b)
    ensures 0 <= b < |words| * WORD_BITS
  {
  }

  /** When nothing is left. */
  lemma Rest(words: seq<Word>, lo: int, next: int, total: int)
    requires total == |words| * WORD_BITS && Gap(words, next, total) && lo <= next
    ensures Up(words, lo, next) == Up(words, lo, total)
  {
    hide Up;
    if next <= total {
      UpSkip(words, lo, next, total);
    } else if lo <= total {
      UpSkip(words, lo, total, next);
    } else {
      UpGap(words, lo, next);
      UpGap(words, lo, total);
    }
  }

  lemma NoGap(words: seq<Word>, b: int)
    ensures Gap(words, b, b)
  {
  }
}
