/** Programs that call a procedure of the standard environment: what the machine answers, by the name of the
    procedure. */
module Calls {
  import opened Util
  import opened Syntax
  import opened CoreForms
  import opened Pipeline
  import Arguments
  import Builtins
  import Compiler
  import D = Direct
  import Distinct
  import Errors
  import L = LazyMachine
  import Primitives

  // ---------- what the procedures are for ----------

  predicate Numeric(d: Datum) {
    d.DInt? || d.DFlo?
  }

  function NumberOf(d: Datum): real
    requires Numeric(d)
  {
    if d.DInt? then d.i as real else d.r
  }

  /** An exact result that does not fit a C `int` becomes inexact. */
  function Exact(i: int): Datum {
    if -2147483648 <= i <= 2147483647 then DInt(i) else DFlo(i as real)
  }

  predicate OneArgument(f: Name) {
    f in ["car", "cdr", "null?", "symbol?", "pair?", "not"]
  }

  predicate TwoArguments(f: Name) {
    f in ["cons", "=", "<", "<=", ">", ">=", "+", "-", "*"]
  }

  function OfOne(f: Name, a: Datum): Option<Datum> {
    if f == "car" then (if a.DPair? then Some(a.car) else None)
    else if f == "cdr" then (if a.DPair? then Some(a.cdr) else None)
    else if f == "null?" then Some(DBool(a == DNil))
    else if f == "symbol?" then Some(DBool(a.DSym?))
    else if f == "pair?" then Some(DBool(a.DPair?))
    else Some(DBool(a == DBool(false)))
  }

  function OfTwo(f: Name, a: Datum, b: Datum): Option<Datum> {
    if f == "cons" then Some(DPair(a, b))
    else if !Numeric(a) || !Numeric(b) then None
    else
      var x, y := NumberOf(a), NumberOf(b);
      if f == "=" then Some(DBool(x == y))
      else if f == "<" then Some(DBool(x < y))
      else if f == "<=" then Some(DBool(x <= y))
      else if f == ">" then Some(DBool(x > y))
      else if f == ">=" then Some(DBool(x >= y))
      else if a.DInt? && b.DInt? then
        Some(Exact(if f == "+" then a.i + b.i else if f == "-" then a.i - b.i else a.i * b.i))
      else Some(DFlo(if f == "+" then x + y else if f == "-" then x - y else x * y))
  }

  /** The standard environment: every name with an instruction has its procedure. */
  ghost predicate Standard(g: map<Name, Prim>) {
    forall x :: Builtins.InlineName(x).Some? ==> x in g && g[x] == Builtins.InlineName(x).value
  }

  lemma OneIs(f: Name, a: Datum, g: map<Name, Prim>)
    requires OneArgument(f) && Standard(g)
    ensures f in g && Builtins.Apply<D.Closure>(g[f], [Inject(a)]) == Result(OfOne(f, a))
  {
    assert Builtins.InlineName(f).Some?;
  }

  /** A datum as a result. */
  function Result(r: Option<Datum>): Option<D.DVal> {
    match r
    case Some(d) => Some(Inject(d))
    case None => None
  }

  lemma TwoIs(f: Name, a: Datum, b: Datum, g: map<Name, Prim>)
    requires TwoArguments(f) && Standard(g)
    ensures f in g && Builtins.Apply<D.Closure>(g[f], [Inject(a), Inject(b)]) == Result(OfTwo(f, a, b))
  {
    TwoNames(f);
    hide Builtins.InlineName, OfTwo, Builtins.Execute, Builtins.Apply;
    Builtins.ExecuteIsApply<D.Closure>(g[f], [Inject(a), Inject(b)]);
    if f == "cons" { ConsIs(a, b); }
    if f == "=" || f == "<" || f == "<=" { LessIs(a, b); }
    if f == ">" || f == ">=" { GreaterIs(a, b); }
    if f == "+" { SumIs(a, b); }
    if f == "-" { DifferenceIs(a, b); }
    if f == "*" { ProductIs(a, b); }
  }

  lemma TwoNames(f: Name)
    requires TwoArguments(f)
    ensures Builtins.InlineName(f).Some? && Builtins.InlineArity(Builtins.InlineName(f).value) == 2
    ensures f == "cons" ==> Builtins.InlineName(f) == Some(Prim.Cons)
    ensures f == "=" ==> Builtins.InlineName(f) == Some(Prim.NumEq)
    ensures f == "<" ==> Builtins.InlineName(f) == Some(Prim.NumLt)
    ensures f == "<=" ==> Builtins.InlineName(f) == Some(Prim.NumLe)
    ensures f == ">" ==> Builtins.InlineName(f) == Some(Prim.NumGt)
    ensures f == ">=" ==> Builtins.InlineName(f) == Some(Prim.NumGe)
    ensures f == "+" ==> Builtins.InlineName(f) == Some(Prim.Add)
    ensures f == "-" ==> Builtins.InlineName(f) == Some(Prim.Sub)
    ensures f == "*" ==> Builtins.InlineName(f) == Some(Prim.Mul)
  {
  }

  lemma ConsIs(a: Datum, b: Datum)
    ensures Builtins.Execute<D.Closure>(Prim.Cons, [Inject(a), Inject(b)]) == Result(OfTwo("cons", a, b))
  {
  }

  lemma LessIs(a: Datum, b: Datum)
    ensures Builtins.Execute<D.Closure>(Prim.NumEq, [Inject(a), Inject(b)]) == Result(OfTwo("=", a, b))
    ensures Builtins.Execute<D.Closure>(Prim.NumLt, [Inject(a), Inject(b)]) == Result(OfTwo("<", a, b))
    ensures Builtins.Execute<D.Closure>(Prim.NumLe, [Inject(a), Inject(b)]) == Result(OfTwo("<=", a, b))
  {
  }

  lemma GreaterIs(a: Datum, b: Datum)
    ensures Builtins.Execute<D.Closure>(Prim.NumGt, [Inject(a), Inject(b)]) == Result(OfTwo(">", a, b))
    ensures Builtins.Execute<D.Closure>(Prim.NumGe, [Inject(a), Inject(b)]) == Result(OfTwo(">=", a, b))
  {
  }

  lemma SumIs(a: Datum, b: Datum)
    ensures Builtins.Execute<D.Closure>(Prim.Add, [Inject(a), Inject(b)]) == Result(OfTwo("+", a, b))
  {
    if Numeric(a) && Numeric(b) { ArithOf(Prim.Add, a, b); }
    hide Builtins.IntOp, Builtins.RealOp;
  }

  lemma DifferenceIs(a: Datum, b: Datum)
    ensures Builtins.Execute<D.Closure>(Prim.Sub, [Inject(a), Inject(b)]) == Result(OfTwo("-", a, b))
  {
    if Numeric(a) && Numeric(b) { ArithOf(Prim.Sub, a, b); }
    hide Builtins.IntOp, Builtins.RealOp;
  }

  lemma ProductIs(a: Datum, b: Datum)
    ensures Builtins.Execute<D.Closure>(Prim.Mul, [Inject(a), Inject(b)]) == Result(OfTwo("*", a, b))
  {
    if Numeric(a) && Numeric(b) { ArithOf(Prim.Mul, a, b); }
    hide Builtins.IntOp, Builtins.RealOp;
  }

  lemma ArithOf(p: Prim, a: Datum, b: Datum)
    requires Numeric(a) && Numeric(b)
    ensures a.DInt? && b.DInt? ==>
      Builtins.Arith<D.Closure>(p, Inject(a), Inject(b)) == Some(Inject(Exact(Builtins.IntOp(p, a.i, b.i))))
    ensures !a.DInt? || !b.DInt? ==>
      Builtins.Arith<D.Closure>(p, Inject(a), Inject(b))
      == Some(Inject(DFlo(Builtins.RealOp(p, NumberOf(a), NumberOf(b)))))
    ensures p.Add? ==> forall i, j :: Builtins.IntOp(p, i, j) == i + j
    ensures p.Sub? ==> forall i, j :: Builtins.IntOp(p, i, j) == i - j
    ensures p.Mul? ==> forall i, j :: Builtins.IntOp(p, i, j) == i * j
    ensures p.Add? ==> forall x, y :: Builtins.RealOp(p, x, y) == x + y
    ensures p.Sub? ==> forall x, y :: Builtins.RealOp(p, x, y) == x - y
    ensures p.Mul? ==> forall x, y :: Builtins.RealOp(p, x, y) == x * y
  {
    RealIs(a);
    RealIs(b);
    ArithParts(p, a, b);
    hide Builtins.ToReal, NumberOf, Builtins.Arith;
  }

  lemma ArithParts(p: Prim, a: Datum, b: Datum)
    requires Numeric(a) && Numeric(b)
    requires Builtins.ToReal<D.Closure>(Inject(a)) == Some(NumberOf(a))
    requires Builtins.ToReal<D.Closure>(Inject(b)) == Some(NumberOf(b))
    ensures a.DInt? && b.DInt? ==>
      Builtins.Arith<D.Closure>(p, Inject(a), Inject(b)) == Some(Inject(Exact(Builtins.IntOp(p, a.i, b.i))))
    ensures !a.DInt? || !b.DInt? ==>
      Builtins.Arith<D.Closure>(p, Inject(a), Inject(b))
      == Some(Inject(DFlo(Builtins.RealOp(p, NumberOf(a), NumberOf(b)))))
  {
    hide Builtins.IntOp, Builtins.RealOp, Builtins.ToReal, NumberOf;
  }

  lemma RealIs(d: Datum)
    requires Numeric(d)
    ensures Builtins.ToReal<D.Closure>(Inject(d)) == Some(NumberOf(d))
  {
  }

  // ---------- the programs ----------

  function Call1(f: Name, a: Datum): Core {
    CCall(CVar(f), [CQuote(a)])
  }

  function Call2(f: Name, a: Datum, b: Datum): Core {
    CCall(CVar(f), [CQuote(a), CQuote(b)])
  }

  /** Direct evaluation applies the global procedure to the constants. */
  lemma ReadsGlobal(f: Name, g: map<Name, Prim>)
    requires f in g
    ensures var s := DirectStart(g).(frames := [D.TOP_FRAME]); D.Lookup(s, 0, f) == Some(Builtin(g[f]))
  {
    var s := DirectStart(g).(frames := [D.TOP_FRAME]);
    assert D.Find(s.frames, 0, f) == None;
  }

  lemma Direct1(f: Name, a: Datum, g: map<Name, Prim>, n: nat)
    requires f in g
    ensures var o, r := D.EvalProgram(Call1(f, a), DirectStart(g), n), Builtins.Apply<D.Closure>(g[f], [Inject(a)]);
      if r.Some? then o.Ok? && o.v == r.value else o.Error?
  {
    hide D.Lookup;
    var s := DirectStart(g).(frames := [D.TOP_FRAME]);
    ReadsGlobal(f, g);
    DirectUnfold(Call1(f, a), DirectStart(g), n);
    assert DirectStart(g).frames + [D.TOP_FRAME] == [D.TOP_FRAME];
    assert [CQuote(a)][1..] == [];
    assert D.EvalArgs([], 0, s, n) == D.ArgsOk([], s);
    assert D.Eval(CQuote(a), 0, s, n) == D.Ok(Inject(a), s);
    assert D.EvalArgs([CQuote(a)], 0, s, n) == D.ArgsOk([Inject(a)] + [], s);
    assert D.Eval(CVar(f), 0, s, n) == D.Ok(Builtin(g[f]), s);
    assert [Inject<D.Closure>(a)] + [] == [Inject(a)];
    hide Builtins.Apply;
    assert D.Eval(Call1(f, a), 0, s, n) == D.ApplyProc(Builtin(g[f]), [Inject(a)], s, n);
  }

  lemma Direct2(f: Name, a: Datum, b: Datum, g: map<Name, Prim>, n: nat)
    requires f in g
    ensures var o := D.EvalProgram(Call2(f, a, b), DirectStart(g), n);
      var r := Builtins.Apply<D.Closure>(g[f], [Inject(a), Inject(b)]);
      if r.Some? then o.Ok? && o.v == r.value else o.Error?
  {
    hide D.Lookup;
    var s := DirectStart(g).(frames := [D.TOP_FRAME]);
    ReadsGlobal(f, g);
    DirectUnfold(Call2(f, a, b), DirectStart(g), n);
    assert DirectStart(g).frames + [D.TOP_FRAME] == [D.TOP_FRAME];
    assert [CQuote(a), CQuote(b)][1..] == [CQuote(b)] && [CQuote(b)][1..] == [];
    assert D.EvalArgs([], 0, s, n) == D.ArgsOk([], s);
    assert D.Eval(CQuote(a), 0, s, n) == D.Ok(Inject(a), s) && D.Eval(CQuote(b), 0, s, n) == D.Ok(Inject(b), s);
    assert D.EvalArgs([CQuote(b)], 0, s, n) == D.ArgsOk([Inject(b)] + [], s);
    assert [Inject<D.Closure>(b)] + [] == [Inject(b)] && [Inject<D.Closure>(a)] + [Inject(b)] == [Inject(a), Inject(b)];
    assert D.EvalArgs([CQuote(a), CQuote(b)], 0, s, n) == D.ArgsOk([Inject(a)] + [Inject(b)], s);
    assert D.Eval(CVar(f), 0, s, n) == D.Ok(Builtin(g[f]), s);
    hide Builtins.Apply;
    assert D.Eval(Call2(f, a, b), 0, s, n) == D.ApplyProc(Builtin(g[f]), [Inject(a), Inject(b)], s, n);
  }

  lemma Compiles(e: Core, c: Expr)
    requires Optimize(e) == e && Normalize(e) == c && Compiler.Assignable(Compiler.A.TOP_SCOPE, c)
    ensures Compiler.Compile(Normalize(Optimize(e))).Some?
  {
    hide Compiler.Compile;
    Compiler.CompileSucceeds(c);
  }

  lemma Compiles1(f: Name, a: Datum)
    ensures NoDup(Distinct.Binders(Call1(f, a))) && Distinct.Binders(Call1(f, a)) == []
    ensures Compiler.Compile(Normalize(Optimize(Call1(f, a)))).Some?
  {
    hide Compiler.Compile;
    var e, q := Call1(f, a), CQuote(a);
    assert [q][1..] == [];
    assert OptimizeAll([q]) == [q] && Optimize(e) == CCall(CVar(f), OptimizeAll([q])) == e;
    assert NormalizeAll([q]) == [Quote(a)] + NormalizeAll([]);
    assert Normalize(e) == Call(Var(f), [Quote(a)]) && [Quote(a)][1..] == [];
    assert Distinct.BindersAll([q]) == [];
    assert Compiler.AssignableList(Compiler.A.TOP_SCOPE, []);
    assert Compiler.AssignableList(Compiler.A.TOP_SCOPE, [Quote(a)]);
    hide Optimize, Normalize;
    Compiles(e, Call(Var(f), [Quote(a)]));
  }

  lemma Compiles2(f: Name, a: Datum, b: Datum)
    ensures NoDup(Distinct.Binders(Call2(f, a, b))) && Distinct.Binders(Call2(f, a, b)) == []
    ensures Compiler.Compile(Normalize(Optimize(Call2(f, a, b)))).Some?
  {
    hide Compiler.Compile;
    var e, p, q := Call2(f, a, b), CQuote(a), CQuote(b);
    Arguments2(p, q, Quote(a), Quote(b));
    assert Normalize(CVar(f)) == Var(f) && Distinct.Binders(e) == [] + [];
    assert Compiler.Assignable(Compiler.A.TOP_SCOPE, Call(Var(f), [Quote(a), Quote(b)]));
    assert Normalize(e) == Call(Normalize(CVar(f)), NormalizeAll([p, q]));
    assert Optimize(e) == CCall(Optimize(CVar(f)), OptimizeAll([p, q])) == e;
    hide Optimize, Normalize;
    Compiles(e, Call(Var(f), [Quote(a), Quote(b)]));
  }

  lemma Arguments2(p: Core, q: Core, a: Expr, b: Expr)
    requires p.CQuote? && q.CQuote? && a == Quote(p.d) && b == Quote(q.d)
    ensures OptimizeAll([p, q]) == [p, q] && NormalizeAll([p, q]) == [a, b] && Distinct.BindersAll([p, q]) == []
    ensures Compiler.AssignableList(Compiler.A.TOP_SCOPE, [a, b])
  {
    assert [p, q][1..] == [q] && [q][1..] == [] && [a, b][1..] == [b] && [b][1..] == [];
    assert OptimizeAll([q]) == [q] && NormalizeAll([q]) == [b] + NormalizeAll([]) && Distinct.BindersAll([q]) == [];
    assert OptimizeAll([p, q]) == [p] + [q] && NormalizeAll([p, q]) == [a] + NormalizeAll([q]);
    assert Compiler.AssignableList(Compiler.A.TOP_SCOPE, []);
    assert Compiler.AssignableList(Compiler.A.TOP_SCOPE, [b]);
  }

  // ---------- the machine ----------

  /** The machine answers with the datum, or faults when there is none. */
  ghost predicate Answers(e: Core, g: map<Name, Prim>, r: Option<Datum>) {
    var c := Compiler.Compile(Normalize(Optimize(e)));
    c.Some? &&
    var b := Compiler.Boot(c.value, [], MachineStart(g, TopDefs(e)));
    match r
    case Some(d) => exists k: nat, last :: L.Run(b, k) == L.Next(last) && L.Step(last) == L.Halt(Inject(d))
    case None => exists k: nat :: L.Run(b, k) == L.Fault
  }

  lemma AnswersIs(e: Core, g: map<Name, Prim>, r: Option<Datum>, n: nat)
    requires NoDup(Distinct.Binders(e)) && forall x :: x in Distinct.Binders(e) ==> x !in g
    requires Compiler.Compile(Normalize(Optimize(e))).Some? && Standard(g)
    requires var o, v := D.EvalProgram(e, DirectStart(g), n), Result(r);
      if v.Some? then o.Ok? && o.v == v.value else o.Error?
    ensures Answers(e, g, r)
  {
    hide L.Run, L.Step, Compiler.Compile, Compiler.Boot, MachineStart, TopDefs, D.Eval, D.EvalProgram, Distinct.Binders,
      Normalize, Optimize, Builtins.InlineName, DirectStart, Fails;
    var ir := Compiler.Compile(Normalize(Optimize(e))).value;
    match r
    case Some(d) => var k, last := PipelineCorrect(e, ir, g, n, d);
    case None =>
      ErrorFails(e, D.EvalProgram(e, DirectStart(g), n));
      var k := PipelineFaults(e, ir, g, n);
  }

  lemma ErrorFails(e: Core, o: D.Outcome)
    requires o.Error?
    ensures Fails(e, o)
  {
  }

  /** One argument: every constant, whatever it is. */
  lemma MachineOne(f: Name, a: Datum, g: map<Name, Prim>)
    requires OneArgument(f) && Standard(g)
    ensures Answers(Call1(f, a), g, OfOne(f, a))
  {
    hide *;
    OneIs(f, a, g);
    Direct1(f, a, g, 0);
    Compiles1(f, a);
    AnswersIs(Call1(f, a), g, OfOne(f, a), 0);
  }

  lemma MachineTwo(f: Name, a: Datum, b: Datum, g: map<Name, Prim>)
    requires TwoArguments(f) && Standard(g)
    ensures Answers(Call2(f, a, b), g, OfTwo(f, a, b))
  {
    hide *;
    TwoIs(f, a, b, g);
    Direct2(f, a, b, g, 0);
    Compiles2(f, a, b);
    AnswersIs(Call2(f, a, b), g, OfTwo(f, a, b), 0);
  }

  // ---------- a rest list ----------

  function Quotes(ds: seq<Datum>): seq<Core> {
    if ds == [] then [] else [CQuote(ds[0])] + Quotes(ds[1..])
  }

  function Values(ds: seq<Datum>): (vs: seq<D.DVal>)
    ensures |vs| == |ds| && forall i :: 0 <= i < |ds| ==> vs[i] == Inject(ds[i])
  {
    if ds == [] then [] else [Inject(ds[0])] + Values(ds[1..])
  }

  /** `((lambda r r) . ds)` */
  function ListCall(r: Name, ds: seq<Datum>): Core {
    CCall(CLambda([], Some(r), CVar(r)), Quotes(ds))
  }

  /** The list of the constants. */
  predicate DatumList(d: Datum, ds: seq<Datum>) {
    if ds == [] then d == DNil else d.DPair? && d.car == ds[0] && DatumList(d.cdr, ds[1..])
  }

  lemma {:induction false} QuotesEval(ds: seq<Datum>, s: D.Store, n: nat)
    ensures D.EvalArgs(Quotes(ds), 0, s, n) == D.ArgsOk(Values(ds), s)
    decreases |ds|
  {
    if ds != [] {
      QuotesEval(ds[1..], s, n);
      assert Quotes(ds)[1..] == Quotes(ds[1..]);
      assert D.Eval(CQuote(ds[0]), 0, s, n) == D.Ok(Inject(ds[0]), s);
    }
  }

  /** A proper list of constants is the constant list. */
  lemma {:induction false} ListDatum(v: D.DVal, ds: seq<Datum>, d: Datum)
    requires DatumList(d, ds) && Arguments.ProperList(v, |ds|)
    requires forall j :: 0 <= j < |ds| ==> Arguments.Element(v, j) == Some(Inject(ds[j]))
    ensures v == Inject(d)
    decreases |ds|
  {
    if ds != [] {
      assert Arguments.Element(v, 0) == Some(Inject(ds[0]));
      forall j | 0 <= j < |ds| - 1 ensures Arguments.Element(v.cdr, j) == Some(Inject(ds[1..][j])) {
        assert Arguments.Element(v, j + 1) == Some(Inject(ds[j + 1]));
      }
      ListDatum(v.cdr, ds[1..], d.cdr);
    }
  }

  lemma ListDirect(r: Name, ds: seq<Datum>, d: Datum, g: map<Name, Prim>, n: nat)
    requires DatumList(d, ds) && n > 0
    ensures var o := D.EvalProgram(ListCall(r, ds), DirectStart(g), n); o.Ok? && o.v == Inject(d)
  {
    hide *;
    var lam := CLambda([], Some(r), CVar(r));
    var s := DirectStart(g).(frames := [D.TOP_FRAME]);
    DirectUnfold(ListCall(r, ds), DirectStart(g), n);
    OneTop(g);
    QuotesEval(ds, s, n);
    OnlyRest(r);
    var fr := Arguments.DirectCall(lam, 0, Values(ds), s, n);
    RestHolds(r, ds, d, fr);
    CallUnfold(r, ds, s, n);
    ReadsRest(r, fr, d, s, n - 1);
  }

  lemma OneTop(g: map<Name, Prim>)
    ensures DirectStart(g).frames == [] && [] + [D.TOP_FRAME] == [D.TOP_FRAME]
  {
  }

  lemma OnlyRest(r: Name)
    ensures NoDup([] + Arguments.Merging.RestNames(Some(r)))
  {
  }

  lemma RestHolds(r: Name, ds: seq<Datum>, d: Datum, fr: D.Frame)
    requires DatumList(d, ds) && Arguments.Bound(CLambda([], Some(r), CVar(r)), 0, Values(ds), fr)
    ensures r in fr.vars && fr.vars[r] == Inject(d)
  {
    hide DatumList;
    ListDatum(fr.vars[r], ds, d);
  }

  lemma CallUnfold(r: Name, ds: seq<Datum>, s: D.Store, n: nat)
    requires D.EvalArgs(Quotes(ds), 0, s, n) == D.ArgsOk(Values(ds), s)
    ensures D.Eval(ListCall(r, ds), 0, s, n)
      == D.ApplyProc(Proc(D.Closure(CLambda([], Some(r), CVar(r)), 0)), Values(ds), s, n)
  {
    hide D.ApplyProc, D.EvalArgs;
    assert D.Eval(CLambda([], Some(r), CVar(r)), 0, s, n).Ok?;
  }

  lemma ReadsRest(r: Name, fr: D.Frame, d: Datum, s: D.Store, n: nat)
    requires s.frames == [D.TOP_FRAME] && r in fr.vars && fr.vars[r] == Inject(d)
    ensures var s1 := s.(frames := s.frames + [fr]);
      |s.frames| == 1 && D.Eval(CVar(r), |s.frames|, s1, n) == D.Ok(Inject(d), s1)
  {
    var s1 := s.(frames := s.frames + [fr]);
    assert s1.frames[1] == fr && D.Find(s1.frames, 1, r) == Some(1);
  }

  lemma {:induction false} QuotesPlain(ds: seq<Datum>)
    ensures OptimizeAll(Quotes(ds)) == Quotes(ds) && Distinct.BindersAll(Quotes(ds)) == []
    ensures Compiler.AssignableList(Compiler.A.TOP_SCOPE, NormalizeAll(Quotes(ds)))
    decreases |ds|
  {
    if ds != [] {
      var qs := Quotes(ds);
      QuotesPlain(ds[1..]);
      assert qs[1..] == Quotes(ds[1..]) && qs[0] == CQuote(ds[0]);
      assert NormalizeAll(qs)[1..] == NormalizeAll(qs[1..]);
    }
  }

  lemma ListCompiles(r: Name, ds: seq<Datum>)
    ensures Distinct.Binders(ListCall(r, ds)) == [r] && Compiler.Compile(Normalize(Optimize(ListCall(r, ds)))).Some?
  {
    hide Compiler.Compile;
    var e, lam := ListCall(r, ds), CLambda([], Some(r), CVar(r));
    QuotesPlain(ds);
    assert Optimize(lam) == lam && Distinct.Binders(lam) == [] + [r] + Distinct.Binders(CVar(r));
    assert Optimize(e) == e;
    assert Normalize(lam) == Lambda([], Some(r), [], Var(r));
    assert Normalize(e) == Call(Normalize(lam), NormalizeAll(Quotes(ds)));
    assert Compiler.Assignable(Compiler.A.TOP_SCOPE, Normalize(lam));
    hide Optimize, Normalize;
    Compiles(e, Call(Lambda([], Some(r), [], Var(r)), NormalizeAll(Quotes(ds))));
  }

  /** A lambda with only a rest variable, called with any constants, gives their list. */
  lemma MachineList(r: Name, ds: seq<Datum>, d: Datum, g: map<Name, Prim>)
    requires DatumList(d, ds) && r !in g && Standard(g)
    ensures Answers(ListCall(r, ds), g, Some(d))
  {
    hide *;
    ListDirect(r, ds, d, g, 1);
    ListCompiles(r, ds);
    OneBinder(r);
    ResultIs(d);
    AnswersIs(ListCall(r, ds), g, Some(d), 1);
  }

  lemma OneBinder(r: Name)
    ensures NoDup([r])
  {
  }

  lemma ResultIs(d: Datum)
    ensures Result(Some(d)) == Some(Inject(d))
  {
  }
}
