/** What the procedures with instructions of their own compute, said without the functions that define them. */
module Primitives {
  import opened Util
  import opened Syntax
  import opened Builtins

  /** The number that a value stands for. */
  ghost predicate Means<C>(v: Value<C>, x: real) {
    (v.Int? && v.i as real == x) || (v.Flo? && v.r == x)
  }

  predicate Number<C>(v: Value<C>) {
    v.Int? || v.Flo?
  }

  /** The range of a C `int`. */
  predicate Fits(x: real) {
    -2147483648.0 <= x <= 2147483647.0
  }

  // ---------- two arguments ----------

  /** Sum, difference and product of two numbers; exact numbers stay exact while the result fits. */
  lemma Sum<C>(a: Value<C>, b: Value<C>, x: real, y: real)
    requires Means(a, x) && Means(b, y)
    ensures var r := Execute(Prim.Add, [a, b]);
      r.Some? && Means(r.value, x + y) && (r.value.Int? <==> a.Int? && b.Int? && Fits(x + y))
  {
  }

  lemma Difference<C>(a: Value<C>, b: Value<C>, x: real, y: real)
    requires Means(a, x) && Means(b, y)
    ensures var r := Execute(Prim.Sub, [a, b]);
      r.Some? && Means(r.value, x - y) && (r.value.Int? <==> a.Int? && b.Int? && Fits(x - y))
  {
  }

  lemma Product<C>(a: Value<C>, b: Value<C>, x: real, y: real)
    requires Means(a, x) && Means(b, y)
    ensures var r := Execute(Prim.Mul, [a, b]);
      r.Some? && Means(r.value, x * y) && (r.value.Int? <==> a.Int? && b.Int? && Fits(x * y))
  {
    if a.Int? && b.Int? { assert (a.i * b.i) as real == (a.i as real) * (b.i as real); }
  }

  /** The five comparisons are those of the numbers, so exactly one of less, equal and greater holds. */
  lemma Comparisons<C>(a: Value<C>, b: Value<C>, x: real, y: real)
    requires Means(a, x) && Means(b, y)
    ensures Execute(Prim.NumEq, [a, b]) == Some(Bool(x == y))
    ensures Execute(Prim.NumLt, [a, b]) == Some(Bool(x < y)) && Execute(Prim.NumGt, [a, b]) == Some(Bool(y < x))
    ensures Execute(Prim.NumLe, [a, b]) == Some(Bool(!(y < x))) && Execute(Prim.NumGe, [a, b]) == Some(Bool(!(x < y)))
  {
  }

  /** Subtraction undoes addition. */
  lemma Undone<C>(a: Value<C>, b: Value<C>, x: real, y: real)
    requires Means(a, x) && Means(b, y)
    ensures Execute(Prim.Add, [a, b]).Some?
    ensures var r := Execute(Prim.Sub, [Execute(Prim.Add, [a, b]).value, b]);
      r.Some? && Means(r.value, x) && (a.Int? && b.Int? && Fits(x) && Fits(x + y) ==> r.value == a)
  {
    hide Execute;
    Sum(a, b, x, y);
    Difference(Execute(Prim.Add, [a, b]).value, b, x + y, y);
  }

  /** Arithmetic and comparisons refuse everything that is no number. */
  lemma Refused<C>(p: Prim, a: Value<C>, b: Value<C>)
    requires p.Add? || p.Sub? || p.Mul? || p.NumEq? || p.NumLt? || p.NumLe? || p.NumGt? || p.NumGe?
    ensures Execute(p, [a, b]).None? <==> !Number(a) || !Number(b)
  {
  }

  // ---------- pairs and kinds ----------

  /** Pairs are made of what is in them, and of nothing else. */
  lemma Pairs<C>(a: Value<C>, b: Value<C>)
    ensures var p := Execute(Prim.Cons, [a, b]);
      p.Some? && Execute(Prim.Car, [p.value]) == Some(a) && Execute(Prim.Cdr, [p.value]) == Some(b)
  {
  }

  lemma Unpaired<C>(v: Value<C>)
    ensures Execute(Prim.PairP, [v]) == Some(Bool(exists a, b :: Execute(Prim.Cons, [a, b]) == Some(v)))
    ensures Execute(Prim.PairP, [v]) == Some(Bool(true)) ==>
      var a, d := Execute(Prim.Car, [v]), Execute(Prim.Cdr, [v]);
      a.Some? && d.Some? && Execute(Prim.Cons, [a.value, d.value]) == Some(v)
    ensures Execute(Prim.PairP, [v]) == Some(Bool(false)) ==>
      Execute(Prim.Car, [v]) == None && Execute(Prim.Cdr, [v]) == None
  {
    if v.Pair? { assert Execute(Prim.Cons, [v.car, v.cdr]) == Some(v); }
  }

  /** The tests: the empty list, symbols, and pairs are apart, and `not` picks out one value. */
  lemma Kinds<C>(v: Value<C>)
    ensures Execute(Prim.NullP, [v]) == Some(Bool(v == Nil))
    ensures Execute(Prim.SymbolP, [v]) == Some(Bool(exists s :: v == Sym(s)))
    ensures Execute(Prim.Not, [v]) == Some(Bool(v == Bool(false)))
    ensures var n, s, p := Execute(Prim.NullP, [v]), Execute(Prim.SymbolP, [v]), Execute(Prim.PairP, [v]);
      !(n == s == Some(Bool(true))) && !(s == p == Some(Bool(true))) && !(n == p == Some(Bool(true)))
  {
    if v.Sym? { assert v == Sym(v.s); }
  }

  // ---------- any number of arguments ----------

  ghost predicate AllMean<C>(vs: seq<Value<C>>, xs: seq<real>) {
    |vs| == |xs| && forall i :: 0 <= i < |vs| ==> Means(vs[i], xs[i])
  }

  function Total(xs: seq<real>): real {
    if xs == [] then 0.0 else Total(xs[..|xs| - 1]) + xs[|xs| - 1]
  }

  function TotalProduct(xs: seq<real>): real {
    if xs == [] then 1.0 else TotalProduct(xs[..|xs| - 1]) * xs[|xs| - 1]
  }

  /** The fold of the variadic procedures, from its end. */
  lemma {:induction false} FoldLast<C>(p: Prim, acc: Value<C>, vs: seq<Value<C>>)
    requires vs != []
    ensures var r := FoldArith(p, acc, vs[..|vs| - 1]);
      FoldArith(p, acc, vs) == if r.Some? then Arith(p, r.value, vs[|vs| - 1]) else None
    decreases |vs|
  {
    hide Arith;
    if |vs| == 1 {
      assert vs[1..] == [] && vs[..0] == [];
      var r := Arith(p, acc, vs[0]);
      if r.Some? { assert FoldArith(p, r.value, vs[1..]) == r; }
    } else {
      var r := Arith(p, acc, vs[0]);
      assert vs[1..][..|vs| - 2] == vs[..|vs| - 1][1..];
      if r.Some? { FoldLast(p, r.value, vs[1..]); }
    }
  }

  lemma ApplyLast<C>(p: Prim, vs: seq<Value<C>>)
    requires (p.Add? || p.Mul?) && |vs| > 1
    ensures var r := Apply(p, vs[..|vs| - 1]);
      Apply(p, vs) == if r.Some? then Execute(p, [r.value, vs[|vs| - 1]]) else None
  {
    hide Arith;
    FoldLast(p, vs[0], vs[1..]);
    assert vs[1..][..|vs| - 2] == vs[..|vs| - 1][1..];
  }

  /** Sums and products of any number of numbers. */
  lemma {:induction false} Sums<C>(vs: seq<Value<C>>, xs: seq<real>)
    requires AllMean(vs, xs)
    ensures Apply(Prim.Add, vs).Some? && Means(Apply(Prim.Add, vs).value, Total(xs))
    decreases |vs|
  {
    if |vs| == 1 { assert xs[..0] == []; }
    if |vs| > 1 {
      hide Execute, Apply;
      var n := |vs| - 1;
      Sums(vs[..n], xs[..n]);
      ApplyLast(Prim.Add, vs);
      Sum(Apply(Prim.Add, vs[..n]).value, vs[n], Total(xs[..n]), xs[n]);
    }
  }

  lemma {:induction false} Products<C>(vs: seq<Value<C>>, xs: seq<real>)
    requires AllMean(vs, xs)
    ensures Apply(Prim.Mul, vs).Some? && Means(Apply(Prim.Mul, vs).value, TotalProduct(xs))
    decreases |vs|
  {
    if |vs| == 1 { assert xs[..0] == []; }
    if |vs| > 1 {
      hide Execute, Apply;
      var n := |vs| - 1;
      Products(vs[..n], xs[..n]);
      ApplyLast(Prim.Mul, vs);
      Product(Apply(Prim.Mul, vs[..n]).value, vs[n], TotalProduct(xs[..n]), xs[n]);
    }
  }

  /** The first number without the others; a single one is negated, and none is an error. */
  lemma {:induction false} Differences<C>(vs: seq<Value<C>>, xs: seq<real>)
    requires AllMean(vs, xs)
    ensures vs == [] ==> Apply(Prim.Sub, vs) == None
    ensures |vs| == 1 ==> Apply(Prim.Sub, vs).Some? && Means(Apply(Prim.Sub, vs).value, 0.0 - xs[0])
    ensures |vs| > 1 ==> Apply(Prim.Sub, vs).Some? && Means(Apply(Prim.Sub, vs).value, xs[0] - Total(xs[1..]))
    decreases |vs|
  {
    if |vs| == 1 {
      Difference(Int(0), vs[0], 0.0, xs[0]);
    } else if |vs| > 1 {
      SubtractAll(vs[0], vs[1..], xs[0], xs[1..]);
    }
  }

  lemma {:induction false} SubtractAll<C>(acc: Value<C>, vs: seq<Value<C>>, x: real, xs: seq<real>)
    requires Means(acc, x) && AllMean(vs, xs)
    ensures FoldArith(Prim.Sub, acc, vs).Some? && Means(FoldArith(Prim.Sub, acc, vs).value, x - Total(xs))
    decreases |vs|
  {
    if vs != [] {
      var n := |vs| - 1;
      SubtractAll(acc, vs[..n], x, xs[..n]);
      FoldLast(Prim.Sub, acc, vs);
      var r := FoldArith(Prim.Sub, acc, vs[..n]).value;
      Difference(r, vs[n], x - Total(xs[..n]), xs[n]);
      assert Execute(Prim.Sub, [r, vs[n]]) == Arith(Prim.Sub, r, vs[n]);
    }
  }

  ghost predicate Related(p: Prim, x: real, y: real) {
    match p
    case NumEq => x == y
    case NumLt => x < y
    case NumLe => x <= y
    case NumGt => x > y
    case _ => x >= y
  }

  ghost predicate Neighbours(p: Prim, xs: seq<real>) {
    forall i, j :: 0 <= i && j == i + 1 && j < |xs| ==> Related(p, xs[i], xs[j])
  }

  /** A comparison of any number of numbers holds when it does for all neighbours. */
  lemma {:induction false} Chains<C>(p: Prim, vs: seq<Value<C>>, xs: seq<real>)
    requires AllMean(vs, xs) && (p.NumEq? || p.NumLt? || p.NumLe? || p.NumGt? || p.NumGe?)
    ensures Apply(p, vs) == Some(Bool(Neighbours(p, xs)))
    decreases |vs|
  {
    if |vs| >= 2 {
      assert AllMean(vs[1..], xs[1..]);
      Chains(p, vs[1..], xs[1..]);
      FirstTwo(p, xs);
      Compared(p, vs[0], vs[1], xs[0], xs[1]);
      hide Neighbours, Related, Compare;
    }
  }

  lemma Compared<C>(p: Prim, a: Value<C>, b: Value<C>, x: real, y: real)
    requires Means(a, x) && Means(b, y) && (p.NumEq? || p.NumLt? || p.NumLe? || p.NumGt? || p.NumGe?)
    ensures Compare(p, a, b) == Some(Related(p, x, y))
  {
  }

  lemma FirstTwo(p: Prim, xs: seq<real>)
    requires |xs| >= 2
    ensures Neighbours(p, xs) <==> Related(p, xs[0], xs[1]) && Neighbours(p, xs[1..])
  {
    hide Related;
    var ys := xs[1..];
    if Neighbours(p, xs) {
      forall i, j | 0 <= i && j == i + 1 && j < |ys| ensures Related(p, ys[i], ys[j]) {
        assert Related(p, xs[i + 1], xs[j + 1]);
      }
    }
    if Related(p, xs[0], xs[1]) && Neighbours(p, ys) {
      forall i, j | 0 <= i && j == i + 1 && j < |xs| ensures Related(p, xs[i], xs[j]) {
        if i > 0 { assert Related(p, ys[i - 1], ys[j - 1]); }
      }
    }
  }

  // ---------- constants ----------

  /** A constant says what it is: different constants are different values, and the parts of a quoted pair are the
      quoted parts. */
  lemma {:induction false} InjectOnce<C>(a: Datum, b: Datum)
    requires Inject<C>(a) == Inject<C>(b)
    ensures a == b
    decreases a
  {
    if a.DPair? && b.DPair? {
      InjectOnce<C>(a.car, b.car);
      InjectOnce<C>(a.cdr, b.cdr);
    }
  }

  lemma QuotedPair<C>(a: Datum, b: Datum)
    ensures Execute<C>(Prim.Cons, [Inject(a), Inject(b)]) == Some(Inject(DPair(a, b)))
  {
  }
}
