/** Triangular probing modulo a power of two. */
module Probing {

  ghost predicate PowerOfTwo(n: nat)
    decreases n
  {
    n == 1 || (n > 1 && n % 2 == 0 && PowerOfTwo(n / 2))
  }

  function T(s: nat): nat {
    s * (s + 1) / 2
  }

  lemma TStep(s: nat)
    ensures T(s + 1) == T(s) + s + 1
  {
    assert (s + 1) * (s + 2) == s * (s + 1) + 2 * (s + 1);
  }

  /** The bucket looked at after `s` steps. */
  function Probe(hash: int, s: nat, n: nat): (i: nat)
    requires n > 0
    ensures i < n
  {
    (hash + T(s)) % n
  }

  lemma ModSum(a: int, b: nat, n: nat)
    requires n > 0
    ensures (a % n + b) % n == (a + b) % n
  {
    var q := a / n;
    assert a == n * q + a % n;
    ModShift(a % n + b, q, n);
    assert a + b == a % n + b + q * n;
  }

  lemma ModShift(x: int, q: int, n: nat)
    requires n > 0
    ensures (x + q * n) % n == x % n
  {
    var a, r := x / n, x % n;
    assert x + q * n == n * (a + q) + r by { assert n * (a + q) == n * a + n * q; }
    ModUnique(x + q * n, a + q, r, n);
  }

  lemma ModUnique(x: int, q: int, r: nat, n: nat)
    requires r < n && x == n * q + r
    ensures x % n == r
  {
    var a, b := x / n, x % n;
    assert n * (a - q) == r - b by { assert n * (a - q) == n * a - n * q; }
    NegateScale(n, a - q);
    if a > q { Scale(n, a - q); } else if a < q { Scale(n, q - a); }
  }

  lemma NegateScale(n: nat, d: int)
    ensures n * (-d) == -(n * d)
  {
  }

  lemma Scale(n: nat, d: int)
    requires d >= 1
    ensures n * d >= n
  {
  }

  /** `i = (i + ++step) & mask` moves along the probe path. */
  lemma ProbeStep(hash: int, s: nat, n: nat)
    requires n > 0
    ensures (Probe(hash, s, n) + (s + 1)) % n == Probe(hash, s + 1, n)
  {
    TStep(s);
    ModSum(hash + T(s), s + 1, n);
  }

  lemma ProbeStart(hash: int, n: nat)
    requires n > 0
    ensures Probe(hash, 0, n) == hash % n
  {
  }

  /** An odd factor does not help to make a power of two. */
  lemma {:induction false} OddFactor(n: nat, x: nat, y: nat)
    requires PowerOfTwo(n) && x % 2 == 1 && (x * y) % n == 0
    ensures y % n == 0
    decreases n
  {
    if n > 1 {
      var q := x * y / n;
      assert x * y == n * q;
      var h := n / 2;
      assert n * q == 2 * (h * q) by { assert n == 2 * h; assert (2 * h) * q == 2 * (h * q); }
      EvenFactor(x, y, h * q);
      var z := y / 2;
      assert x * y == 2 * (x * z) by { assert y == 2 * z; assert x * (2 * z) == 2 * (x * z); }
      assert x * z == h * q;
      ModUnique(x * z, q, 0, h);
      OddFactor(h, x, z);
      DoubleMultiple(z, h);
    } else {
      ModUnique(y, y, 0, 1);
    }
  }

  lemma EvenFactor(x: nat, y: nat, k: nat)
    requires x % 2 == 1 && x * y == 2 * k
    ensures y % 2 == 0
  {
    var a, b := x / 2, y / 2;
    OddProduct(a, b);
  }

  lemma OddProduct(a: nat, b: nat)
    ensures (2 * a + 1) * (2 * b + 1) == 2 * (2 * (a * b) + a + b) + 1
  {
  }

  lemma DoubleMultiple(z: nat, h: nat)
    requires h > 0 && z % h == 0
    ensures (2 * z) % (2 * h) == 0
  {
    var q := z / h;
    assert z == h * q;
    assert 2 * z == (2 * h) * q;
    ModUnique(2 * z, q, 0, 2 * h);
  }

  lemma SmallMultiple(y: nat, n: nat)
    requires 0 < y < n
    ensures y % n != 0
  {
    ModUnique(y, 0, y, n);
  }

  lemma SameResidue(x: int, y: int, n: nat) returns (q: int)
    requires n > 0 && x % n == y % n
    ensures y - x == n * q
  {
    q := y / n - x / n;
    assert n * q == n * (y / n) - n * (x / n);
  }

  lemma NoDifference(a: nat, b: nat, n: nat, q: int)
    requires PowerOfTwo(n) && a < b < n
    ensures (b - a) * (a + b + 1) != (2 * n) * q
  {
    var d, s := b - a, a + b + 1;
    if d * s == (2 * n) * q {
      assert PowerOfTwo(2 * n) by { assert (2 * n) / 2 == n; }
      ModUnique(d * s, q, 0, 2 * n);
      if d % 2 == 1 {
        OddFactor(2 * n, d, s);
        SmallMultiple(s, 2 * n);
      } else {
        OddFactor(2 * n, s, d);
        SmallMultiple(d, 2 * n);
      }
    }
  }

  /** Two different steps below `n` never meet. */
  lemma ProbeInjective(hash: int, a: nat, b: nat, n: nat)
    requires PowerOfTwo(n) && a < b < n
    ensures Probe(hash, a, n) != Probe(hash, b, n)
  {
    if Probe(hash, a, n) == Probe(hash, b, n) {
      var q := SameResidue(hash + T(a), hash + T(b), n);
      DoubleDifference(a, b);
      DoubleTwice(n, q);
      NoDifference(a, b, n, q);
    }
  }

  lemma DoubleTwice(n: nat, q: int)
    ensures 2 * (n * q) == (2 * n) * q
  {
  }

  lemma DoubleDifference(a: nat, b: nat)
    requires a < b
    ensures 2 * (T(b) - T(a)) == (b - a) * (a + b + 1)
  {
    Even(a);
    Even(b);
    assert (b - a) * (a + b + 1) == b * (b + 1) - a * (a + 1);
  }

  lemma Even(s: nat)
    ensures 2 * T(s) == s * (s + 1)
  {
    var h := s / 2;
    if s % 2 == 0 {
      assert s * (s + 1) == 2 * (h * (s + 1)) by { assert s == 2 * h; assert (2 * h) * (s + 1) == 2 * (h * (s + 1)); }
    } else {
      assert s * (s + 1) == 2 * (s * (h + 1)) by {
        assert s + 1 == 2 * (h + 1); assert s * (2 * (h + 1)) == 2 * (s * (h + 1));
      }
    }
  }

  /** The buckets seen before step `s`. */
  ghost function Seen(hash: int, s: nat, n: nat): (r: set<nat>)
    requires n > 0
    ensures forall i :: i in r ==> i < n && exists t :: 0 <= t < s && Probe(hash, t, n) == i
    ensures forall t :: 0 <= t < s ==> Probe(hash, t, n) in r
    decreases s
  {
    if s == 0 then {} else Seen(hash, s - 1, n) + {Probe(hash, s - 1, n)}
  }

  lemma {:induction false} SeenCount(hash: int, s: nat, n: nat)
    requires PowerOfTwo(n) && s <= n
    ensures |Seen(hash, s, n)| == s
    decreases s
  {
    hide Probe, PowerOfTwo;
    if s > 0 {
      SeenCount(hash, s - 1, n);
      forall t | 0 <= t < s - 1
        ensures Probe(hash, t, n) != Probe(hash, s - 1, n)
      {
        ProbeInjective(hash, t, s - 1, n);
      }
    }
  }

  ghost function Below(n: nat): (r: set<nat>)
    ensures forall i: nat :: i in r <==> i < n
    ensures |r| == n
  {
    if n == 0 then {} else Below(n - 1) + {n - 1}
  }

  /** Triangular probing reaches every bucket within `n` steps. */
  lemma ProbeAll(hash: int, e: nat, n: nat) returns (s: nat)
    requires PowerOfTwo(n) && e < n
    ensures s < n && Probe(hash, s, n) == e
  {
    SeenCount(hash, n, n);
    Full(Seen(hash, n, n), n);
    assert e in Seen(hash, n, n);
    s :| 0 <= s < n && Probe(hash, s, n) == e;
  }

  lemma Full(s: set<nat>, n: nat)
    requires |s| == n && forall i: nat :: i in s ==> i < n
    ensures s == Below(n)
  {
    assert s <= Below(n);
    if s != Below(n) {
      SubsetSize(s, Below(n));
    }
  }

  lemma {:induction false} SubsetSize<X>(a: set<X>, b: set<X>)
    requires a < b
    ensures |a| < |b|
    decreases a
  {
    if a == {} {
    } else {
      var x :| x in a;
      SubsetSize(a - {x}, b - {x});
    }
  }

  /** A probe path comes back to its start only after every bucket was seen. */
  lemma NoEarlyReturn(hash: int, s: nat, n: nat)
    requires PowerOfTwo(n) && 0 < s < n
    ensures Probe(hash, s, n) != Probe(hash, 0, n)
  {
    ProbeInjective(hash, 0, s, n);
  }
}
