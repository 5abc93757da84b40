/** Mark bitmaps: one bit a unit of the page, thirty-two units a word. */
module Bitmap {

  // ---------- words ----------

  /** `w >> n`: a shift by a count is that many shifts by one. */
  function Right(w: bv32, n: nat): bv32 {
    if n == 0 then w else Right(w, n - 1) >> 1
  }

  /** `w << n`. */
  function Left(w: bv32, n: nat): bv32 {
    if n == 0 then w else Left(w, n - 1) << 1
  }

  predicate BitAt(w: bv32, j: nat) {
    Right(w, j) & 1 == 1
  }

  function And(x: bv32, y: bv32): bv32 {
    x & y
  }

  function Or(x: bv32, y: bv32): bv32 {
    x | y
  }

  function Not(x: bv32): bv32 {
    !x
  }

  lemma {:induction false} RightRight(w: bv32, m: nat, n: nat)
    ensures Right(Right(w, m), n) == Right(w, m + n)
    decreases n
  {
    if n > 0 { RightRight(w, m, n - 1); }
  }

  lemma RightBit(w: bv32, s: nat, j: nat)
    ensures BitAt(Right(w, s), j) <==> BitAt(w, s + j)
  {
    RightRight(w, s, j);
  }

  lemma OneMore(w: bv32, j: nat)
    ensures BitAt(w >> 1, j) <==> BitAt(w, j + 1)
  {
    RightRight(w, 1, j);
    assert Right(w, 1) == w >> 1;
  }

  function Half(x: bv32): bv32 {
    x >> 1
  }

  lemma RightNext(x: bv32, j: nat)
    requires j > 0
    ensures Right(x, j) == Half(Right(x, j - 1))
  {
  }

  lemma {:induction false} RightAnd(x: bv32, y: bv32, j: nat)
    ensures Right(And(x, y), j) == And(Right(x, j), Right(y, j))
    decreases j
  {
    hide And, Half;
    if j > 0 {
      RightNext(x, j);
      RightNext(y, j);
      RightNext(And(x, y), j);
      hide Right;
      RightAnd(x, y, j - 1);
      HalfAnd(Right(x, j - 1), Right(y, j - 1));
    }
  }

  lemma {:induction false} RightOr(x: bv32, y: bv32, j: nat)
    ensures Right(Or(x, y), j) == Or(Right(x, j), Right(y, j))
    decreases j
  {
    hide Or, Half;
    if j > 0 {
      RightNext(x, j);
      RightNext(y, j);
      RightNext(Or(x, y), j);
      hide Right;
      RightOr(x, y, j - 1);
      HalfOr(Right(x, j - 1), Right(y, j - 1));
    }
  }

  lemma HalfAnd(x: bv32, y: bv32)
    ensures Half(And(x, y)) == And(Half(x), Half(y))
  {
    AndShift(x, y);
  }

  lemma HalfOr(x: bv32, y: bv32)
    ensures Half(Or(x, y)) == Or(Half(x), Half(y))
  {
    OrShift(x, y);
  }

  lemma AndShift(x: bv32, y: bv32)
    ensures (x & y) >> 1 == (x >> 1) & (y >> 1)
  {
  }

  lemma OrShift(x: bv32, y: bv32)
    ensures (x | y) >> 1 == (x >> 1) | (y >> 1)
  {
  }

  lemma LowBit(x: bv32, y: bv32)
    ensures And(x, y) & 1 == 1 <==> x & 1 == 1 && y & 1 == 1
    ensures Or(x, y) & 1 == 1 <==> x & 1 == 1 || y & 1 == 1
  {
  }

  lemma AndBit(x: bv32, y: bv32, j: nat)
    ensures BitAt(And(x, y), j) <==> BitAt(x, j) && BitAt(y, j)
  {
    RightAnd(x, y, j);
    LowBit(Right(x, j), Right(y, j));
    hide Right, And, Or;
  }

  lemma OrBit(x: bv32, y: bv32, j: nat)
    ensures BitAt(Or(x, y), j) <==> BitAt(x, j) || BitAt(y, j)
  {
    RightOr(x, y, j);
    LowBit(Right(x, j), Right(y, j));
    hide Right, And, Or;
  }

  lemma {:induction false} ZeroBit(j: nat)
    ensures Right(0, j) == 0 && !BitAt(0, j)
    decreases j
  {
    if j > 0 { ZeroBit(j - 1); }
  }

  /** The lowest `k` bits are ones. */
  ghost predicate LowOnes(w: bv32, k: nat) {
    k > 0 ==> w & 1 == 1 && LowOnes(w >> 1, k - 1)
  }

  lemma {:induction false} LowOnesBit(w: bv32, k: nat, j: nat)
    requires LowOnes(w, k) && j < k
    ensures BitAt(w, j)
    decreases j
  {
    if j > 0 {
      LowOnesBit(w >> 1, k - 1, j - 1);
      OneMore(w, j - 1);
    }
  }

  lemma AllOnes()
    ensures LowOnes(0xffff_ffff, 32) && LowOnes(0x7fff_ffff, 31)
  {
    assert LowOnes(0x1, 1); assert LowOnes(0x3, 2); assert LowOnes(0x7, 3); assert LowOnes(0xf, 4);
    assert LowOnes(0x1f, 5); assert LowOnes(0x3f, 6); assert LowOnes(0x7f, 7); assert LowOnes(0xff, 8);
    assert LowOnes(0x1ff, 9); assert LowOnes(0x3ff, 10); assert LowOnes(0x7ff, 11); assert LowOnes(0xfff, 12);
    assert LowOnes(0x1fff, 13); assert LowOnes(0x3fff, 14); assert LowOnes(0x7fff, 15); assert LowOnes(0xffff, 16);
    assert LowOnes(0x1ffff, 17); assert LowOnes(0x3ffff, 18); assert LowOnes(0x7ffff, 19); assert LowOnes(0xfffff, 20);
    assert LowOnes(0x1fffff, 21); assert LowOnes(0x3fffff, 22); assert LowOnes(0x7fffff, 23);
    assert LowOnes(0xffffff, 24);
    assert LowOnes(0x1ffffff, 25); assert LowOnes(0x3ffffff, 26); assert LowOnes(0x7ffffff, 27);
    assert LowOnes(0xfffffff, 28);
    assert LowOnes(0x1fffffff, 29); assert LowOnes(0x3fffffff, 30); assert LowOnes(0x7fffffff, 31);
    assert LowOnes(0xffffffff, 32);
  }

  lemma FullBit(j: nat)
    requires j < 32
    ensures BitAt(0xffff_ffff, j) && (j < 31 ==> BitAt(0x7fff_ffff, j))
  {
    AllOnes();
    hide LowOnes, BitAt;
    LowOnesBit(0xffff_ffff, 32, j);
    if j < 31 { LowOnesBit(0x7fff_ffff, 31, j); }
  }

  lemma NotBit(x: bv32, j: nat)
    requires j < 32
    ensures BitAt(Not(x), j) <==> !BitAt(x, j)
  {
    Complement(x);
    hide BitAt, And, Or, Not;
    AndBit(x, Not(x), j);
    OrBit(x, Not(x), j);
    ZeroBit(j);
    FullBit(j);
  }

  lemma Complement(x: bv32)
    ensures And(x, Not(x)) == 0 && Or(x, Not(x)) == 0xffff_ffff
  {
  }

  lemma LeftOne(x: bv32, j: nat)
    requires j < 32
    ensures BitAt(x << 1, j) <==> j > 0 && BitAt(x, j - 1)
  {
    LeftRight(x);
    if j > 0 {
      OneMore(x << 1, j - 1);
      AndBit(x, 0x7fff_ffff, j - 1);
      FullBit(j - 1);
      hide BitAt;
    }
  }

  lemma LeftRight(x: bv32)
    ensures (x << 1) >> 1 == And(x, 0x7fff_ffff) && (x << 1) & 1 == 0
  {
  }

  lemma {:induction false} LeftBit(x: bv32, s: nat, j: nat)
    requires j < 32
    ensures BitAt(Left(x, s), j) <==> s <= j && BitAt(x, j - s)
    decreases s
  {
    hide BitAt;
    if s > 0 {
      LeftOne(Left(x, s - 1), j);
      if j > 0 { LeftBit(x, s - 1, j - 1); }
    }
  }

  /** `~(~0 << size)`; a shift by 32 leaves no bit, as it does in the low word of 64 bits. */
  function Ones(size: nat): bv32 {
    Not(Left(0xffff_ffff, size))
  }

  lemma OnesBit(size: nat, j: nat)
    requires j < 32
    ensures BitAt(Ones(size), j) <==> j < size
  {
    hide BitAt, Left, Not;
    NotBit(Left(0xffff_ffff, size), j);
    LeftBit(0xffff_ffff, size, j);
    if size <= j { FullBit(j - size); }
  }

  lemma {:induction false} NoBit(x: bv32, n: nat)
    requires Right(x, n) == 0 && forall j: nat :: j < n ==> !BitAt(x, j)
    ensures x == 0
    decreases n
  {
    if n > 0 {
      RightRight(x, 1, n - 1);
      assert Right(x, 1) == x >> 1;
      var y := x >> 1;
      forall j: nat | j < n - 1
        ensures !BitAt(y, j)
      {
        OneMore(x, j);
        assert !BitAt(x, j + 1);
      }
      NoBit(y, n - 1);
      assert !BitAt(x, 0);
      ZeroFrom(x);
    }
  }

  lemma ZeroFrom(x: bv32)
    requires x >> 1 == 0 && x & 1 != 1
    ensures x == 0
  {
  }

  lemma Beyond(w: bv32)
    ensures Right(w, 32) == 0
  {
    hide Right;
    RightRight(w, 8, 8);
    RightRight(w, 16, 8);
    RightRight(w, 24, 8);
    ByteOff(w);
    ByteOff(w >> 8);
    ByteOff((w >> 8) >> 8);
    ByteOff(((w >> 8) >> 8) >> 8);
    FourBytesOff(w);
  }

  lemma TwoOff(w: bv32)
    ensures Right(w, 2) == w >> 2
  {
    hide Right;
    RightRight(w, 1, 1);
    OneOff(w);
    OneOff(w >> 1);
  }

  lemma OneOff(w: bv32)
    ensures Right(w, 1) == w >> 1
  {
    assert Right(w, 0) == w;
  }

  lemma FourOff(w: bv32)
    ensures Right(w, 4) == w >> 4
  {
    RightRight(w, 2, 2);
    TwoOff(w);
    TwoOff(w >> 2);
    hide Right;
  }

  lemma ByteOff(w: bv32)
    ensures Right(w, 8) == w >> 8
  {
    RightRight(w, 4, 4);
    FourOff(w);
    FourOff(w >> 4);
    hide Right;
  }

  lemma FourBytesOff(w: bv32)
    ensures (((w >> 8) >> 8) >> 8) >> 8 == 0
  {
  }

  lemma SomeBit(x: bv32)
    ensures x != 0 <==> exists j: nat :: j < 32 && BitAt(x, j)
  {
    Beyond(x);
    if x == 0 {
      forall j: nat | j < 32
        ensures !BitAt(x, j)
      {
        ZeroBit(j);
      }
    } else if forall j: nat :: j < 32 ==> !BitAt(x, j) {
      NoBit(x, 32);
    }
  }

  // ---------- runs of units ----------

  predicate Bit(bm: seq<bv32>, i: nat)
    requires i / 32 < |bm|
  {
    BitAt(bm[i / 32], i % 32)
  }

  /** The part of a run that lies in one word. */
  function Part(index: nat, size: nat): (n: nat)
    requires size > 0
    ensures 0 < n <= size && index % 32 + n <= 32
    ensures forall i: nat :: index <= i < index + n <==> i / 32 == index / 32 && index % 32 <= i % 32 < index % 32 + n
  {
    if size <= 32 - index % 32 then size else 32 - index % 32
  }

  /** `w | (~(~0 << n) << s)`. */
  function SetRun(w: bv32, n: nat, s: nat): bv32 {
    Or(w, Left(Ones(n), s))
  }

  lemma SetRunBit(w: bv32, n: nat, s: nat, j: nat)
    requires j < 32
    ensures BitAt(SetRun(w, n, s), j) <==> BitAt(w, j) || s <= j < s + n
  {
    hide BitAt, Ones, Or, Left;
    OrBit(w, Left(Ones(n), s), j);
    LeftBit(Ones(n), s, j);
    if s <= j { OnesBit(n, j - s); }
  }

  /** `(w >> s) & ~(~0 << n)`. */
  function TestRun(w: bv32, n: nat, s: nat): bool {
    And(Right(w, s), Ones(n)) != 0
  }

  lemma TestRunBit(w: bv32, n: nat, s: nat)
    requires s + n <= 32
    ensures TestRun(w, n, s) <==> exists j: nat :: s <= j < s + n && BitAt(w, j)
  {
    hide BitAt, Ones, Right, And;
    var m := And(Right(w, s), Ones(n));
    SomeBit(m);
    forall k: nat | k < 32
      ensures BitAt(m, k) <==> k < n && BitAt(w, s + k)
    {
      AndBit(Right(w, s), Ones(n), k);
      RightBit(w, s, k);
      OnesBit(n, k);
    }
    forall j: nat | s <= j < s + n && BitAt(w, j)
      ensures BitAt(m, j - s)
    {
    }
  }

  lemma MarkedWord(bm: seq<bv32>, index: nat, n: nat, i: nat)
    requires index / 32 < |bm| && i / 32 < |bm|
    requires index <= i < index + n <==> i / 32 == index / 32 && index % 32 <= i % 32 < index % 32 + n
    ensures var bm1 := bm[index / 32 := SetRun(bm[index / 32], n, index % 32)];
            Bit(bm1, i) <==> Bit(bm, i) || index <= i < index + n
  {
    hide BitAt, SetRun;
    SetRunBit(bm[index / 32], n, index % 32, i % 32);
  }

  /** `mark_at`. */
  method MarkAt(bitmap: array<bv32>, index0: nat, size0: nat)
    requires index0 + size0 <= 32 * bitmap.Length
    modifies bitmap
    ensures forall i: nat :: i < 32 * bitmap.Length ==>
      (Bit(bitmap[..], i) <==> Bit(old(bitmap[..]), i) || index0 <= i < index0 + size0)
  {
    hide Bit, SetRun, Part;
    ghost var was := bitmap[..];
    var index, size := index0, size0;
    while 0 < size
      invariant 0 <= size && index0 <= index && index + size == index0 + size0
      invariant forall i: nat :: i < 32 * bitmap.Length ==> (Bit(bitmap[..], i) <==> Bit(was, i) || index0 <= i < index)
    {
      var n := Part(index, size);
      ghost var mid := bitmap[..];
      bitmap[index / 32] := SetRun(bitmap[index / 32], n, index % 32);
      assert bitmap[..] == mid[index / 32 := SetRun(mid[index / 32], n, index % 32)];
      forall i: nat | i < 32 * bitmap.Length
        ensures Bit(bitmap[..], i) <==> Bit(mid, i) || index <= i < index + n
      {
        MarkedWord(mid, index, n, i);
      }
      size := size - n;
      index := index + n;
    }
  }

  lemma TestedWord(bm: seq<bv32>, index: nat, n: nat)
    requires 0 < n && index % 32 + n <= 32 && index / 32 < |bm|
    requires forall i: nat :: index <= i < index + n <==> i / 32 == index / 32 && index % 32 <= i % 32 < index % 32 + n
    ensures TestRun(bm[index / 32], n, index % 32) <==>
            exists i: nat :: index <= i < index + n && i / 32 < |bm| && Bit(bm, i)
  {
    hide BitAt, TestRun;
    var q, s := index / 32, index % 32;
    TestRunBit(bm[q], n, s);
    forall j: nat | s <= j < s + n && BitAt(bm[q], j)
      ensures Bit(bm, 32 * q + j)
    {
      SamePlace(q, j);
    }
  }

  lemma SamePlace(q: nat, j: nat)
    requires j < 32
    ensures (32 * q + j) / 32 == q && (32 * q + j) % 32 == j
  {
  }

  /** `is_marked_at`. */
  method IsMarkedAt(bitmap: array<bv32>, index0: nat, size0: nat) returns (r: bool)
    requires index0 + size0 <= 32 * bitmap.Length
    ensures r <==> exists i: nat :: index0 <= i < index0 + size0 && Bit(bitmap[..], i)
  {
    hide Bit, TestRun, Part;
    var index, size := index0, size0;
    while 0 < size
      invariant 0 <= size && index0 <= index && index + size == index0 + size0
      invariant forall i: nat :: index0 <= i < index ==> !Bit(bitmap[..], i)
    {
      var n := Part(index, size);
      TestedWord(bitmap[..], index, n);
      if TestRun(bitmap[index / 32], n, index % 32) {
        return true;
      }
      size := size - n;
      index := index + n;
    }
    return false;
  }
}
