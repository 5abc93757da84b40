/** Programs whose text shows that every error stays an error. */
module Errors {
  import opened Util
  import opened Syntax
  import opened CoreForms
  import opened Pipeline
  import opened Ordering
  import Builtins
  import Compiler
  import D = Direct
  import Distinct
  import Fuel
  import L = LazyMachine
  import R = Relation
  import S = Source

  /** Reading a local variable is watched, and assigning a local variable or one that the program defines at the
      top level. */
  function Watched(e: Core): Watch {
    Watch(Locals(e), Locals(e) + NameSet(TopDefs(e)))
  }

  /** The program mentions its local variables only where they are bound, and defines its variables before it uses
      them. */
  predicate Orderly(e: Core) {
    Free(e, Watched(e)) <= NameSet(Defs(e)) && Ordered(e, NameSet(Defs(e)), {}, Watched(e))
  }

  /** In particular when it assigns nothing, has no definitions inside lambdas, and mentions local variables only where
      they are bound. */
  lemma PlainOrderly(e: Core)
    requires NoDup(Distinct.Binders(e)) && Plain(e) && Free(e, Watched(e)) == {}
    ensures Orderly(e)
  {
    forall x | x in NameSet(Defs(e)) ensures x !in Locals(e) { LocalsAre(e, x); }
    PlainOrdered(e, NameSet(Defs(e)), {}, Watched(e));
  }

  predicate Failed(o: D.Outcome) {
    o.Error? || o.Unbound?
  }

  /** No local variable of an orderly program is without a value when it is used. */
  lemma OrderlyFails(e: Core, g: map<Name, Prim>, n: nat)
    requires Orderly(e) && Failed(D.EvalProgram(e, DirectStart(g), n))
    ensures Fails(e, D.EvalProgram(e, DirectStart(g), n))
  {
    hide D.Eval, Free, Ordered, Defs, Locals, TopDefs;
    var k := Watched(e);
    var s := DirectStart(g).(frames := [D.TOP_FRAME]);
    DirectUnfold(e, DirectStart(g), n);
    assert DirectStart(g).frames + [D.TOP_FRAME] == [D.TOP_FRAME];
    assert MayRun(s, [{}], 0, NameSet(Defs(e)), NameSet(Defs(e)), {}, k);
    var vis1 := Kept(e, 0, s, n, [{}], NameSet(Defs(e)), NameSet(Defs(e)), {}, k);
  }

  /** So every error of an orderly program is an error after the two passes. */
  lemma ErrorsStay(e: Core, g: map<Name, Prim>, n: nat)
    requires NoDup(Distinct.Binders(e)) && forall x :: x in Distinct.Binders(e) ==> x !in g
    requires Orderly(e) && Failed(D.EvalProgram(e, DirectStart(g), n))
    ensures Compiler.EvalProgram(Normalize(Optimize(e)), Announced(SourceStart(g), TopDefs(e)), n) == S.Error
  {
    hide *;
    OrderlyFails(e, g, n);
    ErrorsCorrect(e, g, n);
  }

  /** The two passes bring no errors into any program. */
  lemma NoNewErrors(e: Core, g: map<Name, Prim>, m: nat) returns (n: nat)
    requires NoDup(Distinct.Binders(e)) && forall x :: x in Distinct.Binders(e) ==> x !in g
    requires Compiler.EvalProgram(Normalize(Optimize(e)), Announced(SourceStart(g), TopDefs(e)), m) == S.Error
    ensures Failed(D.EvalProgram(e, DirectStart(g), n))
  {
    hide *;
    if forall n: nat :: D.EvalProgram(e, DirectStart(g), n).Timeout? {
      DivergenceCorrect(e, g, m);
      assert false;
    }
    n :| !D.EvalProgram(e, DirectStart(g), n).Timeout?;
    NotOk(e, g, m, n);
    Outcomes(D.EvalProgram(e, DirectStart(g), n));
  }

  lemma Outcomes(o: D.Outcome)
    ensures o.Ok? || o.Timeout? || Failed(o)
  {
  }

  lemma NotOk(e: Core, g: map<Name, Prim>, m: nat, n: nat)
    requires NoDup(Distinct.Binders(e)) && forall x :: x in Distinct.Binders(e) ==> x !in g
    requires Compiler.EvalProgram(Normalize(Optimize(e)), Announced(SourceStart(g), TopDefs(e)), m) == S.Error
    ensures !D.EvalProgram(e, DirectStart(g), n).Ok?
  {
    hide *;
    if D.EvalProgram(e, DirectStart(g), n).Ok? {
      var y, h1 := OptimizeCorrect(e, g, n);
      var h := Announced(SourceStart(g), TopDefs(e));
      SourceOnce(Normalize(Optimize(e)), h, m, n);
    }
  }

  /** An outcome other than running out of fuel is the only one. */
  lemma SourceOnce(e: Expr, h: S.Store, m: nat, n: nat)
    requires !Compiler.EvalProgram(e, h, m).Timeout? && !Compiler.EvalProgram(e, h, n).Timeout?
    ensures Compiler.EvalProgram(e, h, m) == Compiler.EvalProgram(e, h, n)
  {
    hide S.Eval;
    var h1 := h.(frames := h.frames + [Compiler.TOP_FRAME]);
    if m <= n { Fuel.SourceMore(e, |h.frames|, h1, m, n); } else { Fuel.SourceMore(e, |h.frames|, h1, n, m); }
  }

  /** An orderly program fails after the two passes exactly when it fails before them. */
  lemma ErrorsExact(e: Core, g: map<Name, Prim>)
    requires NoDup(Distinct.Binders(e)) && forall x :: x in Distinct.Binders(e) ==> x !in g
    requires Orderly(e)
    ensures (exists n: nat :: Failed(D.EvalProgram(e, DirectStart(g), n))) <==>
      exists m: nat ::
        Compiler.EvalProgram(Normalize(Optimize(e)), Announced(SourceStart(g), TopDefs(e)), m) == S.Error
  {
    hide *;
    if n: nat :| Failed(D.EvalProgram(e, DirectStart(g), n)) { ErrorsStay(e, g, n); }
    if m: nat :| Compiler.EvalProgram(Normalize(Optimize(e)), Announced(SourceStart(g), TopDefs(e)), m) == S.Error {
      var n := NoNewErrors(e, g, m);
    }
  }

  // ---------- the machine ----------

  /** A run that halts halts with one value, however long one looks. */
  lemma {:induction false} HaltsOnce(s: L.State, k: nat, last: L.State, v: L.VVal, limit: nat)
    requires L.Run(s, k) == L.Next(last) && L.Step(last) == L.Halt(v)
    ensures L.Run(s, limit).Next? || L.Run(s, limit) == L.Halt(v)
    decreases k
  {
    hide L.Step;
    if k > 0 && limit > 0 {
      HaltsOnce(L.Step(s).s, k - 1, last, v, limit - 1);
    }
  }

  lemma {:induction false} FaultsOnce(s: L.State, k: nat, limit: nat)
    requires L.Run(s, k) == L.Fault
    ensures L.Run(s, limit).Next? || L.Run(s, limit) == L.Fault
    decreases k
  {
    hide L.Step;
    if k > 0 && limit > 0 && L.Step(s).Next? {
      FaultsOnce(L.Step(s).s, k - 1, limit - 1);
    }
  }

  /** When evaluating an orderly program as written fails, the machine faults. */
  lemma OrderlyFaults(e: Core, ir: Irep, g: map<Name, Prim>, n: nat) returns (k: nat)
    requires NoDup(Distinct.Binders(e)) && forall x :: x in Distinct.Binders(e) ==> x !in g
    requires forall x :: Builtins.InlineName(x).Some? ==> x in g && g[x] == Builtins.InlineName(x).value
    requires Compiler.Compile(Normalize(Optimize(e))) == Some(ir)
    requires Orderly(e) && Failed(D.EvalProgram(e, DirectStart(g), n))
    ensures L.Run(Compiler.Boot(ir, [], MachineStart(g, TopDefs(e))), k) == L.Fault
  {
    hide *;
    OrderlyFails(e, g, n);
    k := PipelineFaults(e, ir, g, n);
  }

  /** When the machine faults, evaluating the program as written fails. */
  lemma FaultsFail(e: Core, ir: Irep, g: map<Name, Prim>, k: nat) returns (n: nat)
    requires NoDup(Distinct.Binders(e)) && forall x :: x in Distinct.Binders(e) ==> x !in g
    requires forall x :: Builtins.InlineName(x).Some? ==> x in g && g[x] == Builtins.InlineName(x).value
    requires Compiler.Compile(Normalize(Optimize(e))) == Some(ir)
    requires L.Run(Compiler.Boot(ir, [], MachineStart(g, TopDefs(e))), k) == L.Fault
    ensures Failed(D.EvalProgram(e, DirectStart(g), n))
  {
    hide *;
    if forall n: nat :: D.EvalProgram(e, DirectStart(g), n).Timeout? {
      PipelineEndless(e, ir, g, k);
      assert false;
    }
    n :| !D.EvalProgram(e, DirectStart(g), n).Timeout?;
    if D.EvalProgram(e, DirectStart(g), n).Ok? {
      OkHalts(e, ir, g, n, k);
      assert false;
    }
    Outcomes(D.EvalProgram(e, DirectStart(g), n));
  }

  lemma OkHalts(e: Core, ir: Irep, g: map<Name, Prim>, n: nat, k: nat)
    requires NoDup(Distinct.Binders(e)) && forall x :: x in Distinct.Binders(e) ==> x !in g
    requires forall x :: Builtins.InlineName(x).Some? ==> x in g && g[x] == Builtins.InlineName(x).value
    requires Compiler.Compile(Normalize(Optimize(e))) == Some(ir) && D.EvalProgram(e, DirectStart(g), n).Ok?
    ensures !L.Run(Compiler.Boot(ir, [], MachineStart(g, TopDefs(e))), k).Fault?
  {
    hide *;
    var y, h1 := OptimizeCorrect(e, g, n);
    StartMay(e, g);
    StartIdle(g, TopDefs(e));
    var w, s := R.World(map[], []), Announced(SourceStart(g), TopDefs(e));
    var j, w1, x, last :=
      Compiler.CompilerCorrect(Normalize(Optimize(e)), ir, w, s, [], MachineStart(g, TopDefs(e)), n);
    FinishedOnce(w, y, h1, Compiler.Boot(ir, [], MachineStart(g, TopDefs(e))), j, w1, x, last, k);
  }

  lemma FinishedOnce(w: R.World, v: S.SVal, s1: S.Store, start: L.State, n: nat, w1: R.World, x: L.VVal,
                     last: L.State, k: nat)
    requires Compiler.Finished(w, v, s1, start, n, w1, x, last)
    ensures !L.Run(start, k).Fault?
  {
    hide L.Run, L.Step, R.ValRel, Compiler.Idle;
    HaltsOnce(start, n, last, x, k);
  }

  /** The machine faults on an orderly program exactly when evaluating it as written fails. */
  lemma FaultsExact(e: Core, ir: Irep, g: map<Name, Prim>)
    requires NoDup(Distinct.Binders(e)) && forall x :: x in Distinct.Binders(e) ==> x !in g
    requires forall x :: Builtins.InlineName(x).Some? ==> x in g && g[x] == Builtins.InlineName(x).value
    requires Compiler.Compile(Normalize(Optimize(e))) == Some(ir) && Orderly(e)
    ensures (exists n: nat :: Failed(D.EvalProgram(e, DirectStart(g), n))) <==>
      exists k: nat :: L.Run(Compiler.Boot(ir, [], MachineStart(g, TopDefs(e))), k) == L.Fault
  {
    hide *;
    if n: nat :| Failed(D.EvalProgram(e, DirectStart(g), n)) { var k := OrderlyFaults(e, ir, g, n); }
    if k: nat :| L.Run(Compiler.Boot(ir, [], MachineStart(g, TopDefs(e))), k) == L.Fault {
      var n := FaultsFail(e, ir, g, k);
    }
  }
}
