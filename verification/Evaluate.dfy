/** `pic_eval`: expand, compile and run a program without macros. */
module Evaluate {
  import opened Util
  import opened Syntax
  import opened CoreForms
  import opened Identifiers
  import Builtins
  import Compiler
  import D = Direct
  import Distinct
  import Emission
  import Errors
  import Expansion
  import L = LazyMachine
  import P = Pipeline
  import R = Relation
  import S = Source
  import Vm

  /** What the machine may have come to when the program has the outcome `o`. */
  ghost predicate Fitting(c: Core, o: D.Outcome, status: Vm.Status) {
    && (forall d :: o.Ok? && o.v == Inject(d) ==> status == Vm.Running || status == Vm.Stopped(Inject(d)))
    && (P.Fails(c, o) || (Errors.Orderly(c) && Errors.Failed(o)) ==> status == Vm.Running || status == Vm.Failed)
  }

  /** The compiler and the machine together do what direct evaluation does. */
  lemma RunFits(c: Core, ir: Irep, g: map<Name, Prim>, n: nat, limit: nat, status: Vm.Status)
    requires NoDup(Distinct.Binders(c)) && forall x :: x in Distinct.Binders(c) ==> x !in g
    requires forall x :: Builtins.InlineName(x).Some? ==> x in g && g[x] == Builtins.InlineName(x).value
    requires Compiler.Compile(Normalize(Optimize(c))) == Some(ir)
    requires var r := L.Run(Compiler.Boot(ir, [], P.MachineStart(g, P.TopDefs(c))), limit);
      && !r.Wild? && (r.Next? ==> status == Vm.Running) && (r.Halt? ==> status == Vm.Stopped(r.v))
        && (r.Fault? ==> status == Vm.Failed)
    ensures Fitting(c, D.EvalProgram(c, P.DirectStart(g), n), status)
    ensures status == Vm.Failed ==> exists m: nat :: Errors.Failed(D.EvalProgram(c, P.DirectStart(g), m))
  {
    hide L.Run, L.Step, Compiler.Compile, Compiler.Boot, P.MachineStart, P.TopDefs, P.DirectStart, D.Eval,
      D.EvalProgram, NoDup, Distinct.Binders, Normalize, Optimize, P.Fails, Builtins.InlineName, Errors.Orderly,
      Errors.Failed;
    var o, b := D.EvalProgram(c, P.DirectStart(g), n), Compiler.Boot(ir, [], P.MachineStart(g, P.TopDefs(c)));
    forall d | o.Ok? && o.v == Inject(d) ensures status == Vm.Running || status == Vm.Stopped(Inject(d)) {
      var k, last := P.PipelineCorrect(c, ir, g, n, d);
      Errors.HaltsOnce(b, k, last, Inject(d), limit);
    }
    if Errors.Orderly(c) && Errors.Failed(o) { Errors.OrderlyFails(c, g, n); }
    if status == Vm.Failed { var m := Errors.FaultsFail(c, ir, g, limit); }
    if P.Fails(c, o) {
      var k := P.PipelineFaults(c, ir, g, n);
      Errors.FaultsOnce(b, k, limit);
    }
  }

  /** `pic_eval` in a fresh session, for at most `limit` instructions. The program defines no name of a native
      procedure and none beginning with a dot, and no scope of it has an identifier twice. */
  method Eval(ex: Expander, f: Expansion.Form, env: Env, g: map<Name, Prim>, limit: nat)
    returns (status: Option<Vm.Status>, c: Core, ghost names: map<Ident, Name>)
    requires env.Linked() && env.up == null && Expansion.WellScoped(f) && NoDup(Expansion.Defined(f))
    requires forall x :: x in Expansion.Defined(f) ==> env.prefix + x !in g && Ordinary(env.prefix + x)
    requires forall x :: x in Expansion.Defined(f) && Symbol(x) in env.uids ==> env.uids[Symbol(x)] == env.prefix + x
    requires forall x :: x in g ==> Ordinary(x)
    requires forall x :: Builtins.InlineName(x).Some? ==> x in g && g[x] == Builtins.InlineName(x).value
    modifies ex, env`uids
    ensures Expansion.Renames(f, c, names, [], Expansion.Defined(f), Expansion.TopNames(old(env.uids), env.prefix))
    ensures NoDup(Distinct.Binders(c))
    ensures status.None? <==> !Compiler.Assignable(Compiler.A.TOP_SCOPE, Normalize(Optimize(c)))
    ensures status.Some? ==>
      && (forall n: nat :: Fitting(c, D.EvalProgram(c, P.DirectStart(g), n), status.value))
      && ((forall n: nat :: D.EvalProgram(c, P.DirectStart(g), n).Timeout?) ==> status.value == Vm.Running)
      && (status.value == Vm.Failed ==> exists n: nat :: Errors.Failed(D.EvalProgram(c, P.DirectStart(g), n)))
  {
    hide Expansion.WellScoped, Expansion.Defined, Expansion.Renames, Expansion.TopNames, Distinct.Binders, MadeIn,
      NoDup, Normalize, Optimize, Builtins.InlineName, P.TopDefs, P.MachineStart, P.DirectStart, P.SourceStart,
      P.Announced, D.Eval, D.EvalProgram, Fitting, Compiler.Idle, Compiler.Assignable, L.Run, Compiler.Boot,
      Errors.Failed, Errors.Orderly;
    ghost var lo := ex.ucnt;
    c, names := Expansion.ExpandProgram(ex, f, env);
    NamesApart(Expansion.Defined(f), env.prefix, g, lo, ex.ucnt);
    var e := Normalize(Optimize(c));
    Compiler.CompileSucceeds(e);
    var ir := Emission.CompileProgram(e);
    if ir.None? { return None, c, names; }
    P.StartMay(c, g);
    P.StartIdle(g, P.TopDefs(c));
    var machine, st := Vm.RunProgram(e, ir.value, R.World(map[], []), P.Announced(P.SourceStart(g), P.TopDefs(c)), [],
                                     P.MachineStart(g, P.TopDefs(c)), limit);
    status := Some(st);
    forall n: nat ensures Fitting(c, D.EvalProgram(c, P.DirectStart(g), n), st) {
      RunFits(c, ir.value, g, n, limit, st);
    }
    RunFits(c, ir.value, g, 0, limit, st);
    if forall n: nat :: D.EvalProgram(c, P.DirectStart(g), n).Timeout? {
      P.PipelineEndless(c, ir.value, g, limit);
    }
  }

  predicate Ordinary(x: Name) {
    x == "" || x[0] != '.'
  }

  lemma NamesApart(xs: seq<string>, prefix: string, g: map<Name, Prim>, lo: nat, hi: nat)
    requires forall x :: x in xs ==> prefix + x !in g && Ordinary(prefix + x)
    requires forall x :: x in g ==> Ordinary(x)
    ensures forall x :: x in xs ==> !MadeIn(prefix + x, lo, hi)
    ensures forall x :: x in g ==> !MadeIn(x, lo, hi)
  {
    hide MadeIn;
    forall x | x in xs ensures !MadeIn(prefix + x, lo, hi) { Expansion.OrdinaryName(prefix + x, lo, hi); }
    forall x | x in g ensures !MadeIn(x, lo, hi) { Expansion.OrdinaryName(x, lo, hi); }
  }
}
