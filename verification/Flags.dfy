/** Two flag bits a bucket, sixteen buckets a word: bit 2 is "empty", bit 1 is "deleted". */
module Flags {

  datatype State = Live | Deleted | Empty | Both

  /** The two bits of slot `j` of a word. */
  function Slot(w: bv32, j: bv32): (b: bv32)
    requires j < 16
    ensures b <= 3
  {
    (w >> (2 * j)) & 3
  }

  function Meaning(b: bv32): State {
    if b == 0 then Live else if b == 1 then Deleted else if b == 2 then Empty else Both
  }

  lemma SetBits(w: bv32, j: bv32, k: bv32)
    requires j < 16 && k < 16
    ensures Slot(w | (1 << (2 * j)), k) == if j == k then Slot(w, k) | 1 else Slot(w, k)
  {
  }

  lemma ClearBits(w: bv32, j: bv32, k: bv32, b: bv32)
    requires j < 16 && k < 16 && b <= 3
    ensures Slot(w & !(b << (2 * j)), k) == if j == k then Slot(w, k) & !b else Slot(w, k)
  {
  }

  function SlotOf(i: nat): (j: bv32)
    ensures j < 16
  {
    assert ((i % 16) as bv32) as int == i % 16;
    (i % 16) as bv32
  }

  lemma SlotBack(i: nat)
    ensures SlotOf(i) as int == i % 16
  {
    assert ((i % 16) as bv32) as int == i % 16;
  }

  lemma SlotsDiffer(i: nat, k: nat)
    requires i / 16 == k / 16 && SlotOf(i) == SlotOf(k)
    ensures i == k
  {
    SlotBack(i);
    SlotBack(k);
    hide SlotOf;
  }

  /** The words that hold `m` buckets. */
  function Words(m: nat): (r: nat)
    ensures r > 0
  {
    if m < 16 then 1 else m / 16
  }

  function StateAt(f: seq<bv32>, i: nat): State
    requires i / 16 < |f|
  {
    Meaning(Slot(f[i / 16], SlotOf(i)))
  }

  /** The states of the first `n` buckets. */
  ghost function States(f: seq<bv32>, n: nat): (s: seq<State>)
    requires n <= 16 * |f|
    ensures |s| == n && forall i :: 0 <= i < n ==> s[i] == StateAt(f, i)
  {
    seq(n, i requires 0 <= i < n => StateAt(f, i))
  }

  /** `flag |= 1ul << ...` and `flag &= ~(b << ...)`, on one word. */
  function OrDeleted(w: bv32, j: bv32): bv32
    requires j < 16
  {
    w | (1 << (2 * j))
  }

  function AndNot(w: bv32, j: bv32, b: bv32): bv32
    requires j < 16 && b <= 3
  {
    w & !(b << (2 * j))
  }

  lemma DeletedAt(f: seq<bv32>, i: nat, k: nat)
    requires i / 16 < |f| && k / 16 < |f| && StateAt(f, i) == Live
    ensures StateAt(f[i / 16 := OrDeleted(f[i / 16], SlotOf(i))], k) == if k == i then Deleted else StateAt(f, k)
  {
    hide SlotOf, Slot;
    if k / 16 == i / 16 {
      SetBits(f[i / 16], SlotOf(i), SlotOf(k));
      if SlotOf(i) == SlotOf(k) { SlotsDiffer(i, k); }
    }
  }

  lemma ClearedSlot(w: bv32, j: bv32, k: bv32, b: bv32)
    requires j < 16 && k < 16 && (b == 3 || (b == 2 && Slot(w, j) == 2))
    ensures Slot(AndNot(w, j, b), k) == if j == k then 0 else Slot(w, k)
  {
    ClearBits(w, j, k, b);
    hide Slot;
    Cleared(Slot(w, j));
  }

  lemma LiveAt(f: seq<bv32>, i: nat, k: nat, b: bv32)
    requires i / 16 < |f| && k / 16 < |f|
    requires b == 3 || (StateAt(f, i) == Empty && b == 2)
    ensures StateAt(f[i / 16 := AndNot(f[i / 16], SlotOf(i), b)], k) == if k == i then Live else StateAt(f, k)
  {
    hide SlotOf, Slot, AndNot;
    if k / 16 == i / 16 {
      ClearedSlot(f[i / 16], SlotOf(i), SlotOf(k), b);
      if SlotOf(i) == SlotOf(k) { SlotsDiffer(i, k); }
    }
  }

  lemma Cleared(b: bv32)
    ensures b <= 3 ==> b & !3 == 0
    ensures b == 2 ==> b & !2 == 0
  {
  }

  /** `ac_set_isdel_true`. */
  method SetDeleted(f: array<bv32>, i: nat, ghost n: nat)
    requires i < n <= 16 * f.Length && StateAt(f[..], i) == Live
    modifies f
    ensures States(f[..], n) == old(States(f[..], n))[i := Deleted]
  {
    hide StateAt, SlotOf, OrDeleted;
    ghost var was := f[..];
    f[i / 16] := OrDeleted(f[i / 16], SlotOf(i));
    assert f[..] == was[i / 16 := OrDeleted(was[i / 16], SlotOf(i))];
    forall k | 0 <= k < n
      ensures StateAt(f[..], k) == if k == i then Deleted else StateAt(was, k)
    {
      DeletedAt(was, i, k);
    }
    assert States(f[..], n) == States(was, n)[i := Deleted];
  }

  /** `ac_set_isempty_false` on an empty bucket, `ac_set_isboth_false` on one that holds no entry. */
  method SetLive(f: array<bv32>, i: nat, both: bool, ghost n: nat)
    requires i < n <= 16 * f.Length
    requires StateAt(f[..], i) == Empty || (both && StateAt(f[..], i) == Deleted)
    modifies f
    ensures States(f[..], n) == old(States(f[..], n))[i := Live]
  {
    hide StateAt, SlotOf, AndNot;
    ghost var was := f[..];
    var b: bv32 := if both then 3 else 2;
    f[i / 16] := AndNot(f[i / 16], SlotOf(i), b);
    assert f[..] == was[i / 16 := AndNot(was[i / 16], SlotOf(i), b)];
    forall k | 0 <= k < n
      ensures StateAt(f[..], k) == if k == i then Live else StateAt(was, k)
    {
      LiveAt(was, i, k, b);
    }
    assert States(f[..], n) == States(was, n)[i := Live];
  }

  lemma AllEmpty(j: bv32)
    requires j < 16
    ensures Slot(0xaaaa_aaaa, j) == 2
  {
  }

  /** `memset(flags, 0xaa, ...)`. */
  method FillEmpty(f: array<bv32>)
    modifies f
    ensures forall i :: 0 <= i < 16 * f.Length ==> StateAt(f[..], i) == Empty
  {
    for i := 0 to f.Length
      invariant forall k :: 0 <= k < i ==> f[k] == 0xaaaa_aaaa
    {
      f[i] := 0xaaaa_aaaa;
    }
    forall i | 0 <= i < 16 * f.Length
      ensures StateAt(f[..], i) == Empty
    {
      AllEmpty(SlotOf(i));
    }
  }
}
