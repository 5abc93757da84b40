/** The procedures with their own instruction (`pic_vm_proc`), and what they compute. */
module Builtins {
  import opened Util
  import opened Syntax

  const INT_MIN: int := -0x8000_0000
  const INT_MAX: int := 0x7FFF_FFFF

  /** The instruction-backed procedure of that name, and its argument count. */
  function InlineName(x: Name): Option<Prim> {
    if x == "cons" then Some(Prim.Cons)
    else if x == "car" then Some(Prim.Car)
    else if x == "cdr" then Some(Prim.Cdr)
    else if x == "null?" then Some(Prim.NullP)
    else if x == "symbol?" then Some(Prim.SymbolP)
    else if x == "pair?" then Some(Prim.PairP)
    else if x == "not" then Some(Prim.Not)
    else if x == "=" then Some(Prim.NumEq)
    else if x == "<" then Some(Prim.NumLt)
    else if x == "<=" then Some(Prim.NumLe)
    else if x == ">" then Some(Prim.NumGt)
    else if x == ">=" then Some(Prim.NumGe)
    else if x == "+" then Some(Prim.Add)
    else if x == "-" then Some(Prim.Sub)
    else if x == "*" then Some(Prim.Mul)
    else None
  }

  function InlineArity(p: Prim): nat {
    match p
    case Cons | NumEq | NumLt | NumLe | NumGt | NumGe | Add | Sub | Mul => 2
    case _ => 1
  }

  function ToReal<C>(v: Value<C>): Option<real> {
    match v
    case Int(i) => Some(i as real)
    case Flo(r) => Some(r)
    case _ => None
  }

  function RealOp(p: Prim, a: real, b: real): real {
    match p
    case Add => a + b
    case Sub => a - b
    case _ => a * b
  }

  function RealCmp(p: Prim, a: real, b: real): bool {
    match p
    case NumEq => a == b
    case NumLt => a < b
    case NumLe => a <= b
    case NumGt => a > b
    case _ => a >= b
  }

  function IntOp(p: Prim, a: int, b: int): int {
    match p
    case Add => a + b
    case Sub => a - b
    case _ => a * b
  }

  /** Binary arithmetic: two exact numbers stay exact while the result fits an `int`. */
  function Arith<C>(p: Prim, a: Value<C>, b: Value<C>): Option<Value<C>> {
    if a.Int? && b.Int? then
      var f := IntOp(p, a.i, b.i);
      Some(if INT_MIN <= f <= INT_MAX then Int(f) else Flo(f as real))
    else
      match (ToReal(a), ToReal(b))
      case (Some(x), Some(y)) => Some(Flo(RealOp(p, x, y)))
      case _ => None
  }

  function Compare<C>(p: Prim, a: Value<C>, b: Value<C>): Option<bool> {
    match (ToReal(a), ToReal(b))
    case (Some(x), Some(y)) => Some(RealCmp(p, x, y))
    case _ => None
  }

  /** The variadic arithmetic procedures fold from the left. */
  function FoldArith<C>(p: Prim, acc: Value<C>, vs: seq<Value<C>>): Option<Value<C>>
    decreases vs
  {
    if vs == [] then Some(acc)
    else
      match Arith(p, acc, vs[0])
      case Some(r) => FoldArith(p, r, vs[1..])
      case None => None
  }

  /** The comparison procedures stop at the first pair that fails. */
  function Chain<C>(p: Prim, vs: seq<Value<C>>): Option<Value<C>> {
    if |vs| < 2 then Some(Bool(true))
    else
      match Compare(p, vs[0], vs[1])
      case Some(true) => Chain(p, vs[1..])
      case Some(false) => Some(Bool(false))
      case None => None
  }

  /** A call of the native procedure with any number of arguments; `None` is a run-time error. */
  function Apply<C>(p: Prim, vs: seq<Value<C>>): Option<Value<C>> {
    match p
    case Cons => if |vs| == 2 then Some(Pair(vs[0], vs[1])) else None
    case Car => if |vs| == 1 && vs[0].Pair? then Some(vs[0].car) else None
    case Cdr => if |vs| == 1 && vs[0].Pair? then Some(vs[0].cdr) else None
    case NullP => if |vs| == 1 then Some(Bool(vs[0].Nil?)) else None
    case SymbolP => if |vs| == 1 then Some(Bool(vs[0].Sym?)) else None
    case PairP => if |vs| == 1 then Some(Bool(vs[0].Pair?)) else None
    case Not => if |vs| == 1 then Some(Bool(vs[0] == Bool(false))) else None
    case NumEq | NumLt | NumLe | NumGt | NumGe => Chain(p, vs)
    case Add => if vs == [] then Some(Int(0)) else FoldArith(p, vs[0], vs[1..])
    case Mul => if vs == [] then Some(Int(1)) else FoldArith(p, vs[0], vs[1..])
    case Sub =>
      if vs == [] then None
      else if |vs| == 1 then Arith(p, Int(0), vs[0])
      else FoldArith(p, vs[0], vs[1..])
    case EscapeWith => if |vs| == 1 then Some(vs[0]) else None
  }

  /** What the instruction computes from exactly the arguments it pops. */
  function Execute<C>(p: Prim, vs: seq<Value<C>>): Option<Value<C>> {
    if |vs| != InlineArity(p) then None
    else match p
      case Add | Sub | Mul => Arith(p, vs[0], vs[1])
      case NumEq | NumLt | NumLe | NumGt | NumGe =>
        (match Compare(p, vs[0], vs[1])
         case Some(b) => Some(Bool(b))
         case None => None)
      case _ => Apply(p, vs)
  }

  /** Inlining is faithful: at the inlined argument count the instruction and the native
      procedure agree, errors included. */
  lemma ExecuteIsApply<C>(p: Prim, vs: seq<Value<C>>)
    requires |vs| == InlineArity(p)
    ensures Execute(p, vs) == Apply(p, vs)
  {
    if p.Add? || p.Sub? || p.Mul? {
      assert vs[1..] == [vs[1]];
      var r := Arith(p, vs[0], vs[1]);
      if r.Some? {
        assert FoldArith(p, r.value, vs[1..][1..]) == r;
      }
    } else if |vs| == 2 && !p.Cons? {
      assert Chain(p, vs[1..]) == Some(Bool(true));
    }
  }
}
