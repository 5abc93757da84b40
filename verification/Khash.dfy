/** `khash.h`: the hash table behind dictionaries, weak tables, environments and the symbol table. */
module Khash {
  import opened Flags
  import opened Probing
  import opened OpenAddressing
  import opened RoundUp
  import Limbs

  // ---------- sizes ----------

  /** `ac_hash_upper`. */
  function HashUpper(n: nat): nat {
    (n * 2 * 77 / 100 + 1) / 2
  }

  /** The bound leaves a bucket empty, and is more than half of the buckets. */
  lemma UpperBounds(n: nat)
    requires n >= 4
    ensures n / 2 < HashUpper(n) < n && HashUpper(n) < HashUpper(2 * n)
  {
  }

  /** It is the number of buckets times 0.77, rounded to the nearest integer. */
  lemma UpperIs(n: nat)
    ensures 77 * n - 50 < 100 * HashUpper(n) <= 77 * n + 50
  {
  }

  /** The product in `ac_hash_upper` stays a 32-bit int just up to 2^23 buckets. */
  const MAX_BUCKETS: nat := 0x80_0000

  lemma UpperFits(n: nat)
    requires PowerOfTwo(n)
    ensures n * 2 * 77 < 0x8000_0000 <==> n <= MAX_BUCKETS
  {
    Doubled(n);
    MaxIsPower();
    if n > MAX_BUCKETS { PowersApart(MAX_BUCKETS, n); }
  }

  lemma PowAdd23()
    ensures Limbs.P2(23) == MAX_BUCKETS
  {
    Consts();
    Limbs.PowAdd(2, 16, 7);
    assert Limbs.P2(7) == 128;
  }

  /** `new_n_buckets` as `kh_resize` rounds it. */
  function NewSize(n: int): (r: nat) {
    if RoundUp32(n) < 4 then 4 else RoundUp32(n)
  }

  lemma NewSizeIs(n: int)
    requires n <= MAX_BUCKETS
    ensures PowerOfTwo(NewSize(n)) && 4 <= NewSize(n) <= MAX_BUCKETS
  {
    MaxIsPower();
    RoundUpNegative(n);
    hide RoundUp32;
    if n > 0 {
      RoundUpIs(n);
      if RoundUp32(n) > MAX_BUCKETS { PowersApart(MAX_BUCKETS, RoundUp32(n)); }
    }
    assert PowerOfTwo(2) && PowerOfTwo(4);
  }

  lemma MaxIsPower()
    ensures PowerOfTwo(MAX_BUCKETS)
  {
    Exp2Power(23);
    PowAdd23();
  }

  /** Growing from `n` buckets, or dropping the deleted ones at the same size. */
  lemma NextSizes(n: nat)
    requires n == 0 || (PowerOfTwo(n) && 4 <= n <= MAX_BUCKETS)
    ensures NewSize(n + 1) == if n == 0 then 4 else 2 * n
    ensures n > 0 ==> NewSize(n - 1) == n
  {
    hide RoundUp32, PowerOfTwo;
    if n == 0 { RoundUpIs(1); } else { NextSize(n); }
  }

  // ---------- the table ----------

  /** The three arrays are different objects. */
  ghost predicate Apart(a: object, b: object, c: object) {
    a != b && a != c && b != c
  }

  class Table<K(==, 0), V(0)> {
    const hash: K -> int
    var nBuckets: nat
    var size: nat
    var nOccupied: nat
    var upperBound: nat
    var flags: array<bv32>
    var keys: array<K>
    var vals: array<V>
    /** What the table holds. */
    ghost var contents: map<K, V>

    ghost function Buckets(): seq<State>
      requires nBuckets <= 16 * flags.Length
      reads this, flags
    {
      States(flags[..], nBuckets)
    }

    ghost function Footprint(): set<object>
      reads this
    {
      var a: object, b: object, c: object := flags, keys, vals;
      {a, b, c}
    }

    ghost predicate Valid()
      reads this, flags, keys, vals
    {
      && Apart(flags, keys, vals)
      && nBuckets <= 16 * flags.Length && keys.Length == vals.Length == nBuckets
      && Holding(Buckets(), keys[..], vals[..], contents, hash)
      && size == |contents| && nOccupied == Count(Buckets(), Occupied) && nOccupied <= upperBound
      && (if nBuckets == 0 then upperBound == 0
          else 4 <= nBuckets <= MAX_BUCKETS && PowerOfTwo(nBuckets) && upperBound == HashUpper(nBuckets))
    }

    /** `size <= n_occupied <= upper_bound < n_buckets` once buckets are allocated. */
    lemma Ordered()
      requires Valid()
      ensures size <= nOccupied <= upperBound
      ensures nBuckets > 0 ==> upperBound < nBuckets
    {
      RepresentsCount(Buckets(), keys[..], vals[..], contents);
      CountLess(Buckets());
      if nBuckets > 0 { UpperBounds(nBuckets); }
    }

    /** `kh_init`. */
    constructor (hash: K -> int)
      ensures Valid() && fresh(flags) && fresh(keys) && fresh(vals) && contents == map[] && this.hash == hash
    {
      this.hash := hash;
      nBuckets, size, nOccupied, upperBound := 0, 0, 0, 0;
      flags, keys, vals := new bv32[0], new K[0], new V[0];
      contents := map[];
    }

    /** `kh_get`: the bucket of the key, or `n_buckets`. */
    method Get(key: K) returns (x: nat)
      requires Valid()
      ensures key in contents ==> x < nBuckets && Buckets()[x] == Live && keys[x] == key && vals[x] == contents[key]
      ensures key !in contents ==> x == nBuckets
    {
      if nBuckets == 0 {
        return 0;
      }
      Ordered();
      var found;
      x, found := Search(key);
      return if found then x else nBuckets;
    }

    /** The probe loop of `kh_get`. */
    method Search(key: K) returns (i: nat, found: bool)
      requires Valid() && nBuckets > 0 && nOccupied < nBuckets
      ensures i < nBuckets && (found <==> key in contents)
      ensures found ==> Buckets()[i] == Live && keys[i] == key && vals[i] == contents[key]
    {
      hide PowerOfTwo, Probe, Count, Represents, AllReached, StateAt, Passed, HashUpper;
      ghost var st, ks, h := Buckets(), keys[..], hash(key);
      var step := 0;
      i := hash(key) % nBuckets;
      ProbeStart(h, nBuckets);
      NonePassed(st, ks, key, h);
      var last := i;
      while StateAt(flags[..], i) != Empty && (StateAt(flags[..], i) == Deleted || keys[i] != key)
        invariant step < nBuckets && Passed(st, ks, key, h, step) && i == Probe(h, step, nBuckets)
        decreases nBuckets - step
      {
        NextPassed(st, ks, key, h, step);
        ProbeStep(h, step, nBuckets);
        step := step + 1;
        i := (i + step) % nBuckets;
        if i == last {
          assert false;
          return i, false;
        }
      }
      found := StateAt(flags[..], i) == Live;
      if found {
        LiveEntry(st, ks, vals[..], contents, i);
      } else {
        AbsentKey(st, ks, vals[..], contents, hash, key, step);
      }
    }

    /** The bucket `kh_put` chooses: the key's own, or the last deleted bucket before the empty one
        that ends its path, or that empty one. */
    method FindSite(key: K) returns (x: nat, ghost s: nat)
      requires Valid() && nBuckets > 0 && nOccupied < nBuckets
      ensures x < nBuckets
      ensures key in contents ==> Buckets()[x] == Live && keys[x] == key
      ensures key !in contents ==> Buckets()[x] != Live && OnPath(Buckets(), hash(key), s, x)
    {
      hide PowerOfTwo, Probe, Count, Represents, AllReached, StateAt, Passed, HashUpper, OnPath;
      ghost var st, ks, h := Buckets(), keys[..], hash(key);
      var step: nat, site: nat := 0, nBuckets;
      s := 0;
      var i := hash(key) % nBuckets;
      ProbeStart(h, nBuckets);
      NonePassed(st, ks, key, h);
      var last := i;
      while StateAt(flags[..], i) != Empty && (StateAt(flags[..], i) == Deleted || keys[i] != key)
        invariant step < nBuckets && Passed(st, ks, key, h, step) && i == Probe(h, step, nBuckets)
        invariant site == nBuckets || (site < nBuckets && st[site] == Deleted && OnPath(st, h, s, site))
        decreases nBuckets - step
      {
        if StateAt(flags[..], i) == Deleted {
          PassedPath(st, ks, key, h, step);
          site, s := i, step;
        }
        NextPassed(st, ks, key, h, step);
        ProbeStep(h, step, nBuckets);
        step := step + 1;
        i := (i + step) % nBuckets;
        if i == last {
          assert false;
          return site, s;
        }
      }
      if StateAt(flags[..], i) == Empty {
        AbsentKey(st, ks, vals[..], contents, hash, key, step);
        PassedPath(st, ks, key, h, step);
        if site != nBuckets {
          return site, s;
        }
        return i, step;
      }
      LiveEntry(st, ks, vals[..], contents, i);
      return i, s;
    }

    /** `kh_put`: finds or makes a bucket for the key. Where the table would have to grow past the
        range of `ac_hash_upper` the C code overflows; callers stay below that. */
    method Put(key: K) returns (x: nat, ret: int)
      requires Valid() && (nOccupied < upperBound || nBuckets > 2 * size || nBuckets < MAX_BUCKETS)
      modifies this, flags, keys, vals
      ensures Valid() && x < nBuckets && Buckets()[x] == Live && keys[x] == key
      ensures fresh(Footprint() - old(Footprint()))
      ensures contents == if key in old(contents) then old(contents) else old(contents)[key := vals[x]]
      ensures ret == 0 <==> key in old(contents)
      ensures ret != 0 ==> 0 < ret <= 2
      ensures old(nOccupied) < old(upperBound) ==>
        nBuckets == old(nBuckets) && nOccupied == old(nOccupied) + (if ret == 1 then 1 else 0)
    {
      hide Represents, AllReached, Count, StateAt, PowerOfTwo, HashUpper, RoundUp32, Holding, OnPath;
      if nOccupied >= upperBound {
        GrowthFits();
        if nBuckets > 2 * size {
          Resize(nBuckets - 1);
        } else {
          Resize(nBuckets + 1);
        }
      }
      Ordered();
      ghost var s;
      x, s := FindSite(key);
      ghost var st, ks, m := Buckets(), keys[..], contents;
      if StateAt(flags[..], x) == Live {
        return x, 0;
      }
      ret := if StateAt(flags[..], x) == Empty then 1 else 2;
      Insert(x, key, ret == 1, s);
    }

    /** The free bucket `x` gets the key; its value stays what it was. */
    method Insert(x: nat, key: K, wasEmpty: bool, ghost s: nat)
      requires Valid() && x < nBuckets && Buckets()[x] != Live && (wasEmpty <==> Buckets()[x] == Empty)
      requires key !in contents && OnPath(Buckets(), hash(key), s, x) && nOccupied < upperBound
      modifies this`size, this`nOccupied, this`contents, flags, keys
      ensures Valid() && Buckets()[x] == Live && keys[x] == key
      ensures contents == old(contents)[key := vals[x]]
      ensures nOccupied == old(nOccupied) + if wasEmpty then 1 else 0
    {
      hide Represents, AllReached, Count, StateAt, PowerOfTwo, HashUpper, Holding, OnPath;
      ghost var st, ks, m := Buckets(), keys[..], contents;
      InsertAt(st, ks, vals[..], m, hash, x, key, s);
      keys[x] := key;
      assert keys[..] == ks[x := key];
      SetLive(flags, x, true, nBuckets);
      assert Buckets() == st[x := Live];
      size := size + 1;
      nOccupied := if wasEmpty then nOccupied + 1 else nOccupied;
      contents := contents[key := vals[x]];
    }

    /** The resize that `kh_put` asks for always happens, and leaves room. */
    lemma GrowthFits()
      requires Valid() && nOccupied >= upperBound && (nBuckets > 2 * size || nBuckets < MAX_BUCKETS)
      ensures var n := if nBuckets > 2 * size then nBuckets - 1 else nBuckets + 1;
              n <= MAX_BUCKETS && size < HashUpper(NewSize(n))
    {
      hide PowerOfTwo, RoundUp32, NewSize, Holding, Count;
      Ordered();
      NextSizes(nBuckets);
      if nBuckets > 0 { UpperBounds(nBuckets); }
    }

    /** `kh_resize`: nothing happens when the entries would not fit; otherwise the same entries in
        a table of the new size, with no deleted bucket. */
    method Resize(wanted: int)
      requires Valid() && wanted <= MAX_BUCKETS
      modifies this, flags, keys, vals
      ensures Valid() && contents == old(contents)
      ensures fresh(Footprint() - old(Footprint()))
      ensures size >= HashUpper(NewSize(wanted)) ==> nBuckets == old(nBuckets) && nOccupied == old(nOccupied)
      ensures size < HashUpper(NewSize(wanted)) ==>
        nBuckets == NewSize(wanted) && nOccupied == size && forall i :: 0 <= i < nBuckets ==> Buckets()[i] != Deleted
    {
      hide Represents, AllReached, Count, StateAt, PowerOfTwo, HashUpper, RoundUp32;
      var newBuckets := NewSize(wanted);
      if size >= HashUpper(newBuckets) {
        return;
      }
      NewSizeIs(wanted);
      Rehash(newBuckets);
    }

    /** The rehash into a table of a size with room for the entries. */
    method Rehash(newBuckets: nat)
      requires Valid() && PowerOfTwo(newBuckets) && 4 <= newBuckets <= MAX_BUCKETS && size < HashUpper(newBuckets)
      modifies this, flags, keys, vals
      ensures Valid() && contents == old(contents) && fresh(Footprint() - old(Footprint()))
      ensures nBuckets == newBuckets && nOccupied == size && forall i :: 0 <= i < nBuckets ==> Buckets()[i] != Deleted
    {
      hide Represents, AllReached, Count, StateAt, PowerOfTwo, HashUpper, Moving, NewSize;
      UpperBounds(newBuckets);
      WordsHold(newBuckets);
      var newFlags := new bv32[Words(newBuckets)];
      FillEmpty(newFlags);
      ghost var m, os, ks, vs := contents, Buckets(), keys[..], vals[..];
      if nBuckets < newBuckets {
        Reshape(newBuckets);
      }
      assert keys[..nBuckets] == ks && vals[..nBuckets] == vs;
      MoveStart(os, States(newFlags[..], newBuckets), keys[..], vals[..], m, hash);
      MoveAll(flags, newFlags, keys, vals, nBuckets, newBuckets, hash, m);
      if nBuckets > newBuckets {
        Reshape(newBuckets);
      } else {
        assert keys[..newBuckets] == keys[..] && vals[..newBuckets] == vals[..];
      }
      Install(newFlags, newBuckets);
    }

    /** Both arrays reallocated. */
    method Reshape(n: nat)
      requires n <= keys.Length == vals.Length || keys.Length == vals.Length <= n
      modifies this`keys, this`vals
      ensures fresh(keys) && fresh(vals) && Apart(flags, keys, vals) && keys.Length == vals.Length == n
      ensures old(keys.Length) <= n ==>
        keys[..old(keys.Length)] == old(keys[..])
        && vals[..old(keys.Length)] == old(vals[..])
      ensures n <= old(keys.Length) ==> keys[..] == old(keys[..n]) && vals[..] == old(vals[..n])
    {
      keys := Reallocate(keys, n);
      vals := Reallocate(vals, n);
    }

    method Install(newFlags: array<bv32>, newBuckets: nat)
      requires Apart(newFlags, keys, vals) && newBuckets <= 16 * newFlags.Length
        && keys.Length == vals.Length == newBuckets
      requires var st := States(newFlags[..], newBuckets);
               Holding(st, keys[..], vals[..], contents, hash) && Count(st, Occupied) == |contents|
      requires size == |contents| && PowerOfTwo(newBuckets) && 4 <= newBuckets <= MAX_BUCKETS
        && size < HashUpper(newBuckets)
      modifies this`flags, this`nBuckets, this`nOccupied, this`upperBound
      ensures Valid() && flags == newFlags && nBuckets == newBuckets && nOccupied == size
    {
      hide Represents, AllReached, Count, StateAt, PowerOfTwo, HashUpper, Holding;
      flags := newFlags;
      nBuckets := newBuckets;
      nOccupied := size;
      upperBound := HashUpper(nBuckets);
    }

    /** `kh_del`. */
    method Del(x: nat)
      requires Valid() && x <= nBuckets
      modifies this, flags
      ensures Valid() && flags == old(flags) && keys == old(keys) && vals == old(vals) && nBuckets == old(nBuckets)
      ensures contents == if x < nBuckets && old(Buckets())[x] == Live then old(contents) - {keys[x]} else old(contents)
    {
      hide PowerOfTwo, Count, Represents, AllReached, StateAt, HashUpper;
      if x != nBuckets && StateAt(flags[..], x) == Live {
        ghost var st, m, k := Buckets(), contents, keys[x];
        Removed(st, keys[..], vals[..], m, hash, x);
        LiveEntry(st, keys[..], vals[..], m, x);
        StillOccupied(st, x);
        RemoveSize(m, k);
        SetDeleted(flags, x, nBuckets);
        size := size - 1;
        contents := contents - {k};
        assert Buckets() == st[x := Deleted];
        assert Holding(Buckets(), keys[..], vals[..], contents, hash);
      }
    }

    /** `kh_clear`. */
    method Clear()
      requires Valid()
      modifies this, flags
      ensures Valid() && contents == map[] && flags == old(flags) && keys == old(keys) && vals == old(vals)
      ensures nBuckets == old(nBuckets)
    {
      hide PowerOfTwo, Count, StateAt, HashUpper, Represents, AllReached;
      NoBuckets(Buckets(), keys[..], vals[..], contents);
      if nBuckets > 0 {
        FillEmpty(flags);
        size, nOccupied := 0, 0;
        contents := map[];
        NothingHeld(Buckets(), keys[..], vals[..], hash);
      }
    }

    /** `kh_val(h, x) = v`. */
    method SetVal(x: nat, v: V)
      requires Valid() && x < nBuckets && Buckets()[x] == Live
      modifies this`contents, vals
      ensures Valid() && contents == old(contents)[keys[x] := v]
    {
      hide PowerOfTwo, Count, Represents, AllReached, StateAt, HashUpper;
      ghost var st, m, k := Buckets(), contents, keys[x];
      LiveEntry(st, keys[..], vals[..], m, x);
      ValueSet(st, keys[..], vals[..], m, x, v);
      ghost var vs := vals[..];
      vals[x] := v;
      contents := contents[k := v];
      assert m[k := v].Keys == m.Keys;
      assert vals[..] == vs[x := v] && Buckets() == st;
    }
  }

  lemma WordsHold(n: nat)
    requires PowerOfTwo(n)
    ensures n <= 16 * Words(n)
  {
    if n >= 16 {
      assert PowerOfTwo(n / 2) && PowerOfTwo(n / 2 / 2) && PowerOfTwo(n / 2 / 2 / 2);
    }
  }

  /** `pic_realloc`: the common prefix is kept. */
  method Reallocate<X(0)>(a: array<X>, n: nat) returns (b: array<X>)
    ensures fresh(b) && b.Length == n
    ensures forall i :: 0 <= i < n && i < a.Length ==> b[i] == a[i]
  {
    b := new X[n];
    for i := 0 to if n < a.Length then n else a.Length
      invariant forall t :: 0 <= t < i ==> b[t] == a[t]
    {
      b[i] := a[i];
    }
  }

  /** The probe loop of the rehash: the first empty bucket on the path. */
  method FindEmpty(flags: array<bv32>, n: nat, hash: int) returns (i: nat, ghost s: nat)
    requires PowerOfTwo(n) && n <= 16 * flags.Length && Count(States(flags[..], n), Occupied) < n
    ensures i < n && States(flags[..], n)[i] == Empty && OnPath(States(flags[..], n), hash, s, i)
  {
    hide PowerOfTwo, Probe, Count, StateAt, NoneEmpty;
    ghost var st := States(flags[..], n);
    var step := 0;
    i := hash % n;
    ProbeStart(hash, n);
    NoStep(st, hash);
    while StateAt(flags[..], i) != Empty
      invariant step < n && i == Probe(hash, step, n) && NoneEmpty(st, hash, step)
      decreases n - step
    {
      OneStep(st, hash, step);
      StepsLeft(st, hash, step);
      ProbeStep(hash, step, n);
      step := step + 1;
      i := (i + step) % n;
    }
    s := step;
    PathTo(st, hash, step);
  }

  lemma NoStep(st: seq<State>, hash: int)
    ensures NoneEmpty(st, hash, 0)
  {
  }

  lemma OneStep(st: seq<State>, hash: int, step: nat)
    requires NoneEmpty(st, hash, step) && step < |st| && st[Probe(hash, step, |st|)] != Empty
    ensures NoneEmpty(st, hash, step + 1)
  {
  }

  lemma PathTo(st: seq<State>, hash: int, step: nat)
    requires NoneEmpty(st, hash, step) && step < |st|
    ensures OnPath(st, hash, step, Probe(hash, step, |st|))
  {
  }

  /** The kick-out loop: the entry in hand goes to the first empty bucket of its new path; an entry
      that lives there and was not moved yet is taken in hand instead. */
  method PlaceEntry<K, V>(flags: array<bv32>, newFlags: array<bv32>, keys: array<K>, vals: array<V>,
                          n: nat, newN: nat, key0: K, val0: V, hash: K -> int, ghost m: map<K, V>)
    requires n <= 16 * flags.Length && newN <= 16 * newFlags.Length && PowerOfTwo(newN) && |m| <= newN
    requires flags != newFlags && Apart(flags, keys, vals) && Apart(newFlags, keys, vals)
    requires key0 in m && m[key0] == val0
    requires Moving(States(flags[..], n), States(newFlags[..], newN), keys[..], vals[..], m - {key0}, hash)
    modifies flags, newFlags, keys, vals
    ensures Moving(States(flags[..], n), States(newFlags[..], newN), keys[..], vals[..], m, hash)
    ensures forall t :: 0 <= t < n && old(StateAt(flags[..], t)) != Live ==> StateAt(flags[..], t) != Live
  {
    hide PowerOfTwo, Probe, Count, StateAt, Moving, OnPath;
    var key, val := key0, val0;
    while true
      invariant key in m && m[key] == val
      invariant Moving(States(flags[..], n), States(newFlags[..], newN), keys[..], vals[..], m - {key}, hash)
      invariant forall t :: 0 <= t < n && old(StateAt(flags[..], t)) != Live ==> StateAt(flags[..], t) != Live
      decreases Count(States(flags[..], n), IsLive)
    {
      ghost var os, ns, ks, vs := States(flags[..], n), States(newFlags[..], newN), keys[..], vals[..];
      RemoveSize(m, key);
      RoomLeft(os, ns, ks, vs, m - {key}, hash);
      LiveInside(os, ns, ks, vs, m - {key}, hash);
      var i, s := FindEmpty(newFlags, newN, hash(key));
      SetLive(newFlags, i, false, newN);
      if i < n && StateAt(flags[..], i) == Live {
        KickOut(os, ns, ks, vs, m, hash, i, key, val, s);
        var k1, v1 := keys[i], vals[i];
        keys[i] := key;
        assert keys[..] == ks[i := key];
        vals[i] := val;
        assert vals[..] == vs[i := val];
        key, val := k1, v1;
        SetDeleted(flags, i, n);
        assert States(flags[..], n) == os[i := Deleted] && States(newFlags[..], newN) == ns[i := Live];
      } else {
        Place(os, ns, ks, vs, m, hash, i, key, val, s);
        keys[i] := key;
        assert keys[..] == ks[i := key];
        vals[i] := val;
        assert vals[..] == vs[i := val];
        assert States(flags[..], n) == os && States(newFlags[..], newN) == ns[i := Live];
        assert keys[..] == ks[i := key] && vals[..] == vs[i := val];
        return;
      }
    }
  }

  /** The loop over the old buckets. */
  method MoveAll<K, V>(flags: array<bv32>, newFlags: array<bv32>, keys: array<K>, vals: array<V>,
                       n: nat, newN: nat, hash: K -> int, ghost m: map<K, V>)
    requires n <= 16 * flags.Length && newN <= 16 * newFlags.Length && PowerOfTwo(newN) && |m| <= newN
    requires flags != newFlags && Apart(flags, keys, vals) && Apart(newFlags, keys, vals)
    requires Moving(States(flags[..], n), States(newFlags[..], newN), keys[..], vals[..], m, hash)
    modifies flags, newFlags, keys, vals
    ensures newN <= keys.Length == vals.Length
    ensures var st, ks, vs := States(newFlags[..], newN), keys[..newN], vals[..newN];
            Holding(st, ks, vs, m, hash) && Count(st, Occupied) == |m| && forall i :: 0 <= i < newN ==> st[i] != Deleted
  {
    hide PowerOfTwo, Probe, Count, StateAt, Moving, Holding;
    var j := 0;
    while j != n
      invariant 0 <= j <= n
      invariant Moving(States(flags[..], n), States(newFlags[..], newN), keys[..], vals[..], m, hash)
      invariant forall t :: 0 <= t < j ==> StateAt(flags[..], t) != Live
    {
      if StateAt(flags[..], j) == Live {
        ghost var os := States(flags[..], n);
        LiveInside(os, States(newFlags[..], newN), keys[..], vals[..], m, hash);
        Lift(os, States(newFlags[..], newN), keys[..], vals[..], m, hash, j);
        var key, val := keys[j], vals[j];
        SetDeleted(flags, j, n);
        assert forall t :: 0 <= t <= j ==> States(flags[..], n)[t] != Live;
        PlaceEntry(flags, newFlags, keys, vals, n, newN, key, val, hash, m);
      }
      j := j + 1;
    }
    Moved(States(flags[..], n), States(newFlags[..], newN), keys[..], vals[..], m, hash);
    assert keys[..][..newN] == keys[..newN] && vals[..][..newN] == vals[..newN];
  }

  lemma Moved<K, V>(os: seq<State>, ns: seq<State>, keys: seq<K>, vals: seq<V>, m: map<K, V>, hash: K -> int)
    requires Moving(os, ns, keys, vals, m, hash) && forall i :: 0 <= i < |os| ==> os[i] != Live
    ensures |ns| <= |keys| == |vals|
    ensures Holding(ns, keys[..|ns|], vals[..|ns|], m, hash) && Count(ns, Occupied) == |m|
    ensures forall i :: 0 <= i < |ns| ==> ns[i] != Deleted
  {
    MoveEnd(os, ns, keys, vals, m, hash);
  }

  lemma NoBuckets<K, V>(st: seq<State>, keys: seq<K>, vals: seq<V>, m: map<K, V>)
    requires Represents(st, keys, vals, m)
    ensures st == [] ==> m == map[]
  {
    if st == [] {
      forall k
        ensures k !in m
      {
        assert k in m ==> HasLive(st, keys, k);
      }
    }
  }

  lemma InsertAt<K, V>(st: seq<State>, keys: seq<K>, vals: seq<V>, m: map<K, V>, hash: K -> int, x: nat, key: K, s: nat)
    requires Holding(st, keys, vals, m, hash) && x < |st| && st[x] != Live && key !in m
    requires OnPath(st, hash(key), s, x)
    ensures x < |keys| == |vals| == |st| && (st[x] == Empty || st[x] == Deleted)
    ensures Holding(st[x := Live], keys[x := key], vals, m[key := vals[x]], hash)
    ensures |m[key := vals[x]]| == |m| + 1
    ensures Count(st[x := Live], Occupied) == Count(st, Occupied) + if st[x] == Empty then 1 else 0
  {
    assert |keys| == |vals| == |st|;
    hide Represents, AllReached, OnPath, Count;
    Inserted(st, keys, vals, m, hash, x, key, s);
    CountUpdate(st, x, Live, Occupied);
    assert m[key := vals[x]].Keys == m.Keys + {key};
  }

  lemma StillOccupied(st: seq<State>, x: nat)
    requires x < |st| && st[x] == Live
    ensures Count(st[x := Deleted], Occupied) == Count(st, Occupied)
  {
    CountUpdate(st, x, Deleted, Occupied);
  }

  lemma RemoveSize<K, V>(m: map<K, V>, k: K)
    requires k in m
    ensures |m - {k}| == |m| - 1
  {
    assert (m - {k}).Keys == m.Keys - {k};
  }

  lemma NothingHeld<K, V>(st: seq<State>, keys: seq<K>, vals: seq<V>, hash: K -> int)
    requires |keys| == |vals| == |st| && forall i :: 0 <= i < |st| ==> st[i] == Empty
    ensures Holding(st, keys, vals, map[], hash) && Count(st, Occupied) == 0
  {
    CountAll(st, Occupied);
  }

  lemma NonePassed<K>(st: seq<State>, keys: seq<K>, key: K, hash: int)
    requires 0 < |st| <= |keys|
    ensures Passed(st, keys, key, hash, 0)
  {
  }

  lemma LiveEntry<K, V>(st: seq<State>, keys: seq<K>, vals: seq<V>, m: map<K, V>, i: nat)
    requires Represents(st, keys, vals, m) && i < |st| && st[i] == Live
    ensures keys[i] in m && m[keys[i]] == vals[i]
  {
  }

  /** A table's buckets hold exactly the map, each key on its own probe path. */
  ghost predicate Holding<K, V>(st: seq<State>, keys: seq<K>, vals: seq<V>, m: map<K, V>, hash: K -> int) {
    Represents(st, keys, vals, m) && AllReached(st, keys, hash) && forall i :: 0 <= i < |st| ==> st[i] != Both
  }
}
