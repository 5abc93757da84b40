/** Open-addressing tables as sequences: what a table holds, and why probing finds it. */
module OpenAddressing {
  import opened Flags
  import opened Probing

  /** The live buckets hold exactly the entries of `m`, each key once. */
  ghost predicate Represents<K, V>(st: seq<State>, keys: seq<K>, vals: seq<V>, m: map<K, V>) {
    && |keys| == |vals| == |st|
    && (forall i :: 0 <= i < |st| && st[i] == Live ==> keys[i] in m && m[keys[i]] == vals[i])
    && (forall i, j :: 0 <= i < j < |st| && st[i] == Live && st[j] == Live ==> keys[i] != keys[j])
    && (forall k :: k in m ==> HasLive(st, keys, k))
  }

  ghost predicate HasLive<K>(st: seq<State>, keys: seq<K>, k: K) {
    |st| <= |keys| && exists i :: 0 <= i < |st| && st[i] == Live && keys[i] == k
  }

  /** Bucket `i` is `s` steps along the probe path of `hash`, and no bucket before it is empty. */
  ghost predicate OnPath(st: seq<State>, hash: int, s: nat, i: nat) {
    && s < |st| && Probe(hash, s, |st|) == i
    && forall t :: 0 <= t < s ==> st[Probe(hash, t, |st|)] != Empty
  }

  ghost predicate Reached<K>(st: seq<State>, k: K, i: nat, hash: K -> int) {
    exists s :: OnPath(st, hash(k), s, i)
  }

  ghost predicate AllReached<K>(st: seq<State>, keys: seq<K>, hash: K -> int) {
    |st| <= |keys| && forall i :: 0 <= i < |st| && st[i] == Live ==> Reached(st, keys[i], i, hash)
  }

  // ---------- counting ----------

  ghost function Count(st: seq<State>, p: State -> bool): (c: nat)
    ensures c <= |st|
  {
    if st == [] then 0 else Count(st[..|st| - 1], p) + if p(st[|st| - 1]) then 1 else 0
  }

  const Occupied: State -> bool := s => s != Empty
  const IsLive: State -> bool := s => s == Live

  lemma {:induction false} CountUpdate(st: seq<State>, i: nat, x: State, p: State -> bool)
    requires i < |st|
    ensures Count(st[i := x], p) == Count(st, p) - (if p(st[i]) then 1 else 0) + (if p(x) then 1 else 0)
    decreases |st|
  {
    var n := |st| - 1;
    if i == n {
      assert st[i := x][..n] == st[..n];
    } else {
      assert st[i := x][..n] == st[..n][i := x];
      CountUpdate(st[..n], i, x, p);
    }
  }

  lemma {:induction false} CountAll(st: seq<State>, p: State -> bool)
    ensures Count(st, p) == |st| <==> forall i :: 0 <= i < |st| ==> p(st[i])
    ensures Count(st, p) == 0 <==> forall i :: 0 <= i < |st| ==> !p(st[i])
    decreases |st|
  {
    if st != [] {
      var n := |st| - 1;
      CountAll(st[..n], p);
      assert forall i :: 0 <= i < n ==> st[..n][i] == st[i];
    }
  }

  lemma {:induction false} CountLess(st: seq<State>)
    ensures Count(st, IsLive) <= Count(st, Occupied)
    ensures (forall i :: 0 <= i < |st| ==> st[i] != Deleted && st[i] != Both) ==>
      Count(st, IsLive) == Count(st, Occupied)
    decreases |st|
  {
    if st != [] {
      CountLess(st[..|st| - 1]);
    }
  }

  ghost function LiveKeys<K>(st: seq<State>, keys: seq<K>, p: nat): set<K>
    requires p <= |st| <= |keys|
    decreases p
  {
    if p == 0 then {} else
      LiveKeys(st, keys, p - 1) + if st[p - 1] == Live then {keys[p - 1]} else {}
  }

  lemma {:induction false} LiveKeysAre<K>(st: seq<State>, keys: seq<K>, p: nat, k: K)
    requires p <= |st| <= |keys|
    ensures k in LiveKeys(st, keys, p) <==> exists i :: 0 <= i < p && st[i] == Live && keys[i] == k
    decreases p
  {
    if p > 0 {
      LiveKeysAre(st, keys, p - 1, k);
    }
  }

  lemma {:induction false} LiveKeysCount<K>(st: seq<State>, keys: seq<K>, p: nat)
    requires p <= |st| <= |keys|
    requires forall i, j :: 0 <= i < j < |st| && st[i] == Live && st[j] == Live ==> keys[i] != keys[j]
    ensures |LiveKeys(st, keys, p)| == Count(st[..p], IsLive)
    decreases p
  {
    if p > 0 {
      LiveKeysCount(st, keys, p - 1);
      LiveKeysAre(st, keys, p - 1, keys[p - 1]);
      assert st[..p][..p - 1] == st[..p - 1];
    }
  }

  /** As many live buckets as entries. */
  lemma RepresentsCount<K, V>(st: seq<State>, keys: seq<K>, vals: seq<V>, m: map<K, V>)
    requires Represents(st, keys, vals, m)
    ensures Count(st, IsLive) == |m|
  {
    LiveKeysCount(st, keys, |st|);
    assert st[..|st|] == st;
    var ks := LiveKeys(st, keys, |st|);
    forall k | k in ks
      ensures k in m
    {
      LiveKeysAre(st, keys, |st|, k);
    }
    forall k | k in m
      ensures k in ks
    {
      LiveKeysAre(st, keys, |st|, k);
      assert HasLive(st, keys, k);
    }
    assert ks == m.Keys;
  }

  // ---------- searching ----------

  lemma SomeEmpty(st: seq<State>) returns (e: nat)
    requires Count(st, Occupied) < |st|
    ensures e < |st| && st[e] == Empty
  {
    CountAll(st, Occupied);
    e :| e < |st| && st[e] == Empty;
  }

  /** The first `step` buckets on the path of the key are taken, none by the key. */
  ghost predicate Passed<K>(st: seq<State>, keys: seq<K>, key: K, hash: int, step: nat) {
    && |st| <= |keys| && step < |st|
    && forall t :: 0 <= t < step ==> Skipped(st, keys, key, Probe(hash, t, |st|))
  }

  ghost predicate Skipped<K>(st: seq<State>, keys: seq<K>, key: K, i: nat) {
    i < |st| <= |keys| && st[i] != Empty && (st[i] == Live ==> keys[i] != key)
  }

  /** No bucket met before step `step` is empty. */
  ghost predicate NoneEmpty(st: seq<State>, hash: int, step: nat) {
    step <= |st| && forall t :: 0 <= t < step ==> st[Probe(hash, t, |st|)] != Empty
  }

  /** Before an empty bucket is met, another step is left, and it does not lead back to the start. */
  lemma StepsLeft(st: seq<State>, hash: int, step: nat)
    requires PowerOfTwo(|st|) && Count(st, Occupied) < |st| && step < |st|
    requires NoneEmpty(st, hash, step + 1)
    ensures step + 1 < |st| && Probe(hash, step + 1, |st|) != Probe(hash, 0, |st|)
  {
    hide Probe, Count, PowerOfTwo;
    var e := SomeEmpty(st);
    var s := ProbeAll(hash, e, |st|);
    assert s > step;
    NoEarlyReturn(hash, step + 1, |st|);
  }

  lemma NextPassed<K>(st: seq<State>, keys: seq<K>, key: K, hash: int, step: nat)
    requires PowerOfTwo(|st|) && Count(st, Occupied) < |st| && Passed(st, keys, key, hash, step)
    requires Skipped(st, keys, key, Probe(hash, step, |st|))
    ensures step + 1 < |st| && Passed(st, keys, key, hash, step + 1)
    ensures Probe(hash, step + 1, |st|) != Probe(hash, 0, |st|)
  {
    hide Probe, Count, PowerOfTwo;
    assert forall t :: 0 <= t <= step ==> Skipped(st, keys, key, Probe(hash, t, |st|));
    StepsLeft(st, hash, step);
  }

  lemma PassedPath<K>(st: seq<State>, keys: seq<K>, key: K, hash: int, step: nat)
    requires Passed(st, keys, key, hash, step)
    ensures OnPath(st, hash, step, Probe(hash, step, |st|))
  {
  }

  /** A path that met an empty bucket, and not the key, proves the key absent. */
  lemma AbsentKey<K, V>(st: seq<State>, keys: seq<K>, vals: seq<V>, m: map<K, V>, hash: K -> int, key: K, step: nat)
    requires Represents(st, keys, vals, m) && AllReached(st, keys, hash)
    requires Passed(st, keys, key, hash(key), step) && st[Probe(hash(key), step, |st|)] == Empty
    ensures key !in m
  {
    hide Probe;
    if key in m {
      AbsentPath(st, keys, vals, m, hash, key, step);
    }
  }

  lemma AbsentPath<K, V>(st: seq<State>, keys: seq<K>, vals: seq<V>, m: map<K, V>, hash: K -> int, key: K, step: nat)
    requires Represents(st, keys, vals, m) && AllReached(st, keys, hash) && key in m
    requires Passed(st, keys, key, hash(key), step)
    ensures st[Probe(hash(key), step, |st|)] != Empty
  {
    hide Probe;
    assert HasLive(st, keys, key);
    var i :| 0 <= i < |st| && st[i] == Live && keys[i] == key;
    assert Reached(st, keys[i], i, hash);
    var s: nat :| OnPath(st, hash(key), s, i);
  }

  // ---------- updates ----------

  lemma PathKept(st: seq<State>, st1: seq<State>, hash: int, s: nat, i: nat)
    requires OnPath(st, hash, s, i) && |st1| == |st|
    requires forall j :: 0 <= j < |st| && st[j] != Empty ==> st1[j] != Empty
    ensures OnPath(st1, hash, s, i)
  {
  }

  /** A bucket that stops being live keeps every path. */
  lemma Removed<K, V>(st: seq<State>, keys: seq<K>, vals: seq<V>, m: map<K, V>, hash: K -> int, x: nat)
    requires Represents(st, keys, vals, m) && AllReached(st, keys, hash) && x < |st| && st[x] == Live
    ensures Represents(st[x := Deleted], keys, vals, m - {keys[x]})
    ensures AllReached(st[x := Deleted], keys, hash)
  {
    var st1 := st[x := Deleted];
    forall k | k in m - {keys[x]}
      ensures HasLive(st1, keys, k)
    {
      assert HasLive(st, keys, k);
      var i :| 0 <= i < |st| && st[i] == Live && keys[i] == k;
      assert st1[i] == Live;
    }
    KeptPaths(st, st1, keys, hash);
  }

  lemma KeptPaths<K>(st: seq<State>, st1: seq<State>, keys: seq<K>, hash: K -> int)
    requires AllReached(st, keys, hash) && |st1| == |st|
    requires forall j :: 0 <= j < |st| && st[j] != Empty ==> st1[j] != Empty
    requires forall j :: 0 <= j < |st| && st1[j] == Live ==> st[j] == Live
    ensures AllReached(st1, keys, hash)
  {
    forall i | 0 <= i < |st| && st1[i] == Live
      ensures Reached(st1, keys[i], i, hash)
    {
      assert Reached(st, keys[i], i, hash);
      var s :| OnPath(st, hash(keys[i]), s, i);
      PathKept(st, st1, hash(keys[i]), s, i);
    }
  }

  /** A new key in a free bucket on its path. */
  lemma Inserted<K, V>(st: seq<State>, keys: seq<K>, vals: seq<V>, m: map<K, V>, hash: K -> int, x: nat, key: K, s: nat)
    requires Represents(st, keys, vals, m) && AllReached(st, keys, hash)
    requires x < |st| && st[x] != Live && key !in m && OnPath(st, hash(key), s, x)
    ensures Represents(st[x := Live], keys[x := key], vals, m[key := vals[x]])
    ensures AllReached(st[x := Live], keys[x := key], hash)
  {
    var st1, keys1 := st[x := Live], keys[x := key];
    forall k | k in m[key := vals[x]]
      ensures HasLive(st1, keys1, k)
    {
      if k == key {
        assert st1[x] == Live && keys1[x] == k;
      } else {
        assert HasLive(st, keys, k);
        var i :| 0 <= i < |st| && st[i] == Live && keys[i] == k;
        assert st1[i] == Live && keys1[i] == k;
      }
    }
    forall i | 0 <= i < |st| && st1[i] == Live
      ensures Reached(st1, keys1[i], i, hash)
    {
      if i == x {
        PathKept(st, st1, hash(key), s, x);
      } else {
        assert Reached(st, keys[i], i, hash);
        var s0 :| OnPath(st, hash(keys[i]), s0, i);
        PathKept(st, st1, hash(keys[i]), s0, i);
      }
    }
  }

  lemma ValueSet<K, V>(st: seq<State>, keys: seq<K>, vals: seq<V>, m: map<K, V>, x: nat, v: V)
    requires Represents(st, keys, vals, m) && x < |st| && st[x] == Live
    ensures Represents(st, keys, vals[x := v], m[keys[x] := v])
  {
    forall k | k in m[keys[x] := v]
      ensures HasLive(st, keys, k)
    {
      if k != keys[x] { assert HasLive(st, keys, k); }
    }
    forall i | 0 <= i < |st| && st[i] == Live && i != x
      ensures keys[i] != keys[x]
    {
    }
  }

  // ---------- moving every entry within the same arrays ----------

  /** Bucket `i` holds an entry: one not yet moved, or one already placed. */
  ghost predicate Taken(os: seq<State>, ns: seq<State>, i: nat) {
    (i < |os| && os[i] == Live) || (i < |ns| && ns[i] == Live)
  }

  /** In the middle of a rehash the buckets not yet moved and the buckets already placed share the
      arrays; together they hold the entries of `m`. */
  ghost predicate Moving<K, V>(os: seq<State>, ns: seq<State>, keys: seq<K>, vals: seq<V>, m: map<K, V>,
                               hash: K -> int) {
    && |keys| == |vals| && |os| <= |keys| && |ns| <= |keys|
    && (forall i :: 0 <= i < |ns| ==> ns[i] == Live || ns[i] == Empty)
    && (forall i :: 0 <= i < |os| && i < |ns| && os[i] == Live ==> ns[i] != Live)
    && Shared(os, ns, keys, vals, m)
    && AllReached(ns, keys, hash)
  }

  ghost predicate Shared<K, V>(os: seq<State>, ns: seq<State>, keys: seq<K>, vals: seq<V>, m: map<K, V>) {
    && |keys| == |vals|
    && (forall i :: 0 <= i < |keys| && Taken(os, ns, i) ==> keys[i] in m && m[keys[i]] == vals[i])
    && (forall i, j :: 0 <= i < j < |keys| && Taken(os, ns, i) && Taken(os, ns, j) ==> keys[i] != keys[j])
    && (forall k :: k in m ==> SomeTaken(os, ns, keys, k))
  }

  ghost predicate SomeTaken<K>(os: seq<State>, ns: seq<State>, keys: seq<K>, k: K) {
    exists i :: 0 <= i < |keys| && Taken(os, ns, i) && keys[i] == k
  }

  lemma MoveStart<K, V>(os: seq<State>, ns: seq<State>, keys: seq<K>, vals: seq<V>, m: map<K, V>, hash: K -> int)
    requires |os| <= |keys| == |vals| && |ns| <= |keys| && Represents(os, keys[..|os|], vals[..|os|], m)
    requires forall i :: 0 <= i < |ns| ==> ns[i] == Empty
    ensures Moving(os, ns, keys, vals, m, hash)
  {
    forall k | k in m
      ensures SomeTaken(os, ns, keys, k)
    {
      assert HasLive(os, keys[..|os|], k);
      var i :| 0 <= i < |os| && os[i] == Live && keys[..|os|][i] == k;
      assert Taken(os, ns, i);
    }
    forall i | 0 <= i < |keys| && Taken(os, ns, i)
      ensures keys[i] in m && m[keys[i]] == vals[i]
    {
      assert keys[..|os|][i] in m;
    }
    forall i, j | 0 <= i < j < |keys| && Taken(os, ns, i) && Taken(os, ns, j)
      ensures keys[i] != keys[j]
    {
      assert keys[..|os|][i] != keys[..|os|][j];
    }
  }

  /** An entry is lifted out of the old table. */
  lemma Lift<K, V>(os: seq<State>, ns: seq<State>, keys: seq<K>, vals: seq<V>, m: map<K, V>, hash: K -> int, j: nat)
    requires Moving(os, ns, keys, vals, m, hash) && j < |os| && os[j] == Live
    ensures keys[j] in m && m[keys[j]] == vals[j]
    ensures Moving(os[j := Deleted], ns, keys, vals, m - {keys[j]}, hash)
    ensures Count(os[j := Deleted], IsLive) < Count(os, IsLive)
  {
    var os1 := os[j := Deleted];
    CountUpdate(os, j, Deleted, IsLive);
    assert Taken(os, ns, j);
    forall i | 0 <= i < |keys|
      ensures Taken(os1, ns, i) <==> Taken(os, ns, i) && i != j
    {
    }
    forall k | k in m - {keys[j]}
      ensures SomeTaken(os1, ns, keys, k)
    {
      assert SomeTaken(os, ns, keys, k);
      var i :| 0 <= i < |keys| && Taken(os, ns, i) && keys[i] == k;
      assert Taken(os1, ns, i);
    }
  }

  /** The entry in hand is placed in a bucket free in both tables. */
  lemma Place<K, V>(os: seq<State>, ns: seq<State>, keys: seq<K>, vals: seq<V>, m: map<K, V>, hash: K -> int,
                    i: nat, key: K, v: V, s: nat)
    requires key in m && m[key] == v && Moving(os, ns, keys, vals, m - {key}, hash)
    requires i < |ns| && ns[i] == Empty && !Taken(os, ns, i) && OnPath(ns, hash(key), s, i)
    ensures Moving(os, ns[i := Live], keys[i := key], vals[i := v], m, hash)
  {
    var ns1, keys1, vals1 := ns[i := Live], keys[i := key], vals[i := v];
    forall j | 0 <= j < |keys|
      ensures Taken(os, ns1, j) <==> Taken(os, ns, j) || j == i
    {
    }
    PlacedKeys(os, ns, keys, vals, m, hash, i, key, v);
    PlacedPaths(ns, keys, hash, i, key, s);
  }

  lemma PlacedKeys<K, V>(os: seq<State>, ns: seq<State>, keys: seq<K>, vals: seq<V>, m: map<K, V>, hash: K -> int,
                         i: nat, key: K, v: V)
    requires key in m && m[key] == v && Moving(os, ns, keys, vals, m - {key}, hash)
    requires i < |ns| && ns[i] == Empty && !Taken(os, ns, i)
    ensures Shared(os, ns[i := Live], keys[i := key], vals[i := v], m)
  {
    var ns1, keys1 := ns[i := Live], keys[i := key];
    forall j | 0 <= j < |keys|
      ensures Taken(os, ns1, j) <==> Taken(os, ns, j) || j == i
    {
    }
    forall k | k in m
      ensures SomeTaken(os, ns1, keys1, k)
    {
      if k == key {
        assert Taken(os, ns1, i) && keys1[i] == k;
      } else {
        assert SomeTaken(os, ns, keys, k);
        var j :| 0 <= j < |keys| && Taken(os, ns, j) && keys[j] == k;
        assert Taken(os, ns1, j) && keys1[j] == k;
      }
    }
  }

  lemma PlacedPaths<K>(ns: seq<State>, keys: seq<K>, hash: K -> int, i: nat, key: K, s: nat)
    requires AllReached(ns, keys, hash) && i < |ns| && OnPath(ns, hash(key), s, i)
    ensures AllReached(ns[i := Live], keys[i := key], hash)
  {
    var ns1, keys1 := ns[i := Live], keys[i := key];
    forall j | 0 <= j < |ns| && ns1[j] == Live
      ensures Reached(ns1, keys1[j], j, hash)
    {
      if j == i {
        PathKept(ns, ns1, hash(key), s, i);
      } else {
        assert Reached(ns, keys[j], j, hash);
        var t :| OnPath(ns, hash(keys[j]), t, j);
        PathKept(ns, ns1, hash(keys[j]), t, j);
      }
    }
  }

  lemma LiveInside<K, V>(os: seq<State>, ns: seq<State>, keys: seq<K>, vals: seq<V>, m: map<K, V>, hash: K -> int)
    requires Moving(os, ns, keys, vals, m, hash)
    ensures |os| <= |keys| == |vals| && |ns| <= |keys|
  {
  }

  /** The entry in hand takes the bucket of one not yet moved, which is lifted out instead. */
  lemma KickOut<K, V>(os: seq<State>, ns: seq<State>, keys: seq<K>, vals: seq<V>, m: map<K, V>, hash: K -> int,
                      i: nat, key: K, v: V, s: nat)
    requires key in m && m[key] == v && Moving(os, ns, keys, vals, m - {key}, hash)
    requires i < |ns| && i < |os| && ns[i] == Empty && os[i] == Live && OnPath(ns, hash(key), s, i)
    ensures keys[i] in m && m[keys[i]] == vals[i]
    ensures Moving(os[i := Deleted], ns[i := Live], keys[i := key], vals[i := v], m - {keys[i]}, hash)
    ensures Count(os[i := Deleted], IsLive) < Count(os, IsLive)
  {
    LiveInside(os, ns, keys, vals, m - {key}, hash);
    hide Moving, OnPath;
    Lift(os, ns, keys, vals, m - {key}, hash, i);
    assert m - {key} - {keys[i]} == m - {keys[i]} - {key};
    Place(os[i := Deleted], ns, keys, vals, m - {keys[i]}, hash, i, key, v, s);
  }

  /** While an entry is in hand, the new table has a free bucket. */
  lemma RoomLeft<K, V>(os: seq<State>, ns: seq<State>, keys: seq<K>, vals: seq<V>, m: map<K, V>, hash: K -> int)
    requires Moving(os, ns, keys, vals, m, hash) && |m| < |ns|
    ensures Count(ns, Occupied) < |ns|
  {
    Placed(os, ns, keys, vals, m, hash);
    hide Moving, Count;
    LiveKeysCount(ns, keys, |ns|);
    CountLess(ns);
    assert ns[..|ns|] == ns;
    var ks := LiveKeys(ns, keys, |ns|);
    forall k | k in ks
      ensures k in m.Keys
    {
      LiveKeysAre(ns, keys, |ns|, k);
    }
    SizeLe(ks, m.Keys);
  }

  lemma Placed<K, V>(os: seq<State>, ns: seq<State>, keys: seq<K>, vals: seq<V>, m: map<K, V>, hash: K -> int)
    requires Moving(os, ns, keys, vals, m, hash)
    ensures |ns| <= |keys| && forall i :: 0 <= i < |ns| ==> ns[i] == Live || ns[i] == Empty
    ensures forall i :: 0 <= i < |ns| && ns[i] == Live ==> keys[i] in m
    ensures forall i, j :: 0 <= i < j < |ns| && ns[i] == Live && ns[j] == Live ==> keys[i] != keys[j]
  {
    hide AllReached;
    forall i | 0 <= i < |ns| && ns[i] == Live
      ensures Taken(os, ns, i)
    {
    }
  }

  lemma SizeLe<X>(a: set<X>, b: set<X>)
    requires a <= b
    ensures |a| <= |b|
  {
    if a != b { SubsetSize(a, b); }
  }

  /** When nothing is left to move, the new table is the table. */
  lemma MoveEnd<K, V>(os: seq<State>, ns: seq<State>, keys: seq<K>, vals: seq<V>, m: map<K, V>, hash: K -> int)
    requires Moving(os, ns, keys, vals, m, hash) && forall i :: 0 <= i < |os| ==> os[i] != Live
    ensures Represents(ns, keys[..|ns|], vals[..|ns|], m) && AllReached(ns, keys[..|ns|], hash)
    ensures Count(ns, Occupied) == |m|
  {
    var ks := keys[..|ns|];
    forall i | 0 <= i < |ns| && ns[i] == Live
      ensures ks[i] in m && m[ks[i]] == vals[..|ns|][i] && Reached(ns, ks[i], i, hash)
    {
      assert Taken(os, ns, i);
      assert Reached(ns, keys[i], i, hash);
    }
    forall i, j | 0 <= i < j < |ns| && ns[i] == Live && ns[j] == Live
      ensures ks[i] != ks[j]
    {
      assert Taken(os, ns, i) && Taken(os, ns, j);
    }
    forall k | k in m
      ensures HasLive(ns, ks, k)
    {
      assert SomeTaken(os, ns, keys, k);
      var i :| 0 <= i < |keys| && Taken(os, ns, i) && keys[i] == k;
      assert ks[i] == k;
    }
    RepresentsCount(ns, ks, vals[..|ns|], m);
    CountLess(ns);
  }
}
