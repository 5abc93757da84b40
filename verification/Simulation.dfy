/** Compiler correctness against the heap machine: running the code emitted for an expression
    does what evaluating the expression does. */
module Simulation {
  import opened Util
  import opened Syntax
  import opened Relation
  import opened Instructions
  import opened Activation
  import Builtins
  import S = Source
  import A = Analyzer
  import C = Codegen
  import H = HeapMachine
  import V = Variables

  /** The machine went from `h` to `h1` within frame `f`, leaving the operands `xs` on top. */
  ghost predicate Moved(w: World, s: S.Store, h: H.State, f: nat, xs: seq<H.VVal>, pc: nat,
                        w1: World, s1: S.Store, h1: H.State)
  {
    && h.frames != [] && Ext(w, w1) && Keeps(w, s, w1, s1, {f}) && Inv(w1, s1, h1, f)
    && h1.frames == h.frames[|h.frames| - 1 := H.Top(h1)] && h1.ip == h.ip.(pc := pc)
    && H.Top(h1) == H.Top(h).(slots := H.Top(h1).slots, file := H.Top(h1).file, cxt := H.Top(h1).cxt,
                              temps := H.Top(h).temps + xs)
  }

  /** The frame of `h` returned the value of `v` to its caller. */
  ghost predicate Returned(w: World, s: S.Store, h: H.State, f: nat, v: S.SVal,
                           w1: World, s1: S.Store, h1: H.State)
  {
    && |h.frames| >= 2 && Ext(w, w1) && Keeps(w, s, w1, s1, {f}) && Base(w1, s1, h1)
    && Answered(w1, h.(frames := h.frames[..|h.frames| - 1], ip := H.Top(h).ret), v, h1)
  }

  /** The call site that `h` waits at got the value of `v`. */
  ghost predicate Answered(w1: World, h: H.State, v: S.SVal, h1: H.State) {
    && h.frames != [] && h1.ip == h.ip.(pc := h.ip.pc + 1)
    && h1.frames == h.frames[|h.frames| - 1 := H.Top(h).(temps := H.Top(h).temps + [Last(h1)])]
    && ValRel(w1, v, Last(h1))
  }

  function Last(h: H.State): H.VVal {
    if h.frames == [] || H.Top(h).temps == [] then Undef else H.Top(h).temps[|H.Top(h).temps| - 1]
  }

  /** After `n` steps the machine agrees with the outcome `o` of the evaluation; an evaluation that runs
      out of fuel keeps the machine running for as many steps. */
  ghost predicate Goal(fuel: nat, w: World, s: S.Store, h: H.State, f: nat, tail: bool, pc: nat, o: S.Outcome,
                       n: nat, w1: World, h1: H.State)
  {
    match o
    case Timeout => n >= fuel && H.Run(h, n).Next?
    case Error => H.Run(h, n) == H.Fault
    case Ok(v, s1) =>
      && H.Run(h, n) == H.Next(h1)
      && if tail then Returned(w, s, h, f, v, w1, s1, h1)
         else Moved(w, s, h, f, [Last(h1)], pc, w1, s1, h1) && ValRel(w1, v, Last(h1))
  }

  lemma MovedRefl(w: World, s: S.Store, h: H.State, f: nat, pc: nat)
    requires Inv(w, s, h, f) && h.ip.pc == pc
    ensures Moved(w, s, h, f, [], pc, w, s, h)
  {
    KeepsRefl(w, s, {f});
  }

  lemma MovedTrans(w: World, s: S.Store, h: H.State, f: nat, xs: seq<H.VVal>, pc: nat, w1: World,
                   s1: S.Store, h1: H.State, ys: seq<H.VVal>, pc2: nat, w2: World, s2: S.Store, h2: H.State)
    requires Inv(w, s, h, f) && Moved(w, s, h, f, xs, pc, w1, s1, h1) && Moved(w1, s1, h1, f, ys, pc2, w2, s2, h2)
    ensures Moved(w, s, h, f, xs + ys, pc2, w2, s2, h2)
  {
    hide Keeps;
    KeepsTrans(w, s, w1, s1, w2, s2, {f});
    assert H.Top(h).temps + xs + ys == H.Top(h).temps + (xs + ys);
    hide Inv;
  }

  /** A caller does not notice what happens inside the frame it waits for. */
  lemma SameCaller(w: World, s: S.Store, h: H.State, f: nat, xs: seq<H.VVal>, pc: nat, w1: World,
                   s1: S.Store, h1: H.State)
    requires Moved(w, s, h, f, xs, pc, w1, s1, h1) && |h.frames| >= 2
    ensures h1.frames[..|h1.frames| - 1] == h.frames[..|h.frames| - 1] && H.Top(h1).ret == H.Top(h).ret
  {
    hide Keeps;
    hide Inv;
    hide Ext;
  }

  lemma MovedReturned(w: World, s: S.Store, h: H.State, f: nat, xs: seq<H.VVal>, pc: nat, w1: World,
                      s1: S.Store, h1: H.State, v: S.SVal, w2: World, s2: S.Store, h2: H.State)
    requires Inv(w, s, h, f) && Moved(w, s, h, f, xs, pc, w1, s1, h1) && Returned(w1, s1, h1, f, v, w2, s2, h2)
    ensures Returned(w, s, h, f, v, w2, s2, h2)
  {
    hide Keeps;
    hide ValRel;
    hide Last;
    assert |h.frames| == |h1.frames|;
    KeepsTrans(w, s, w1, s1, w2, s2, {f});
    SameCaller(w, s, h, f, xs, pc, w1, s1, h1);
    hide Inv;
    hide Base;
    hide H.Top;
  }

  /** Reach the goal after having moved. */
  lemma MovedGoal(fuel: nat, w: World, s: S.Store, h: H.State, f: nat, n: nat, pc: nat, w1: World,
                  s1: S.Store, h1: H.State, tail: bool, k: nat, o: S.Outcome, m: nat, w2: World, h2: H.State)
    requires Inv(w, s, h, f) && Moved(w, s, h, f, [], pc, w1, s1, h1) && H.Run(h, n) == H.Next(h1)
    requires Goal(fuel, w1, s1, h1, f, tail, k, o, m, w2, h2)
    ensures Goal(fuel, w, s, h, f, tail, k, o, n + m, w2, h2)
  {
    hide Moved;
    hide Returned;
    hide Inv;
    hide H.Run;
    hide ValRel;
    H.RunTrans(h, n, h1, m);
    if o.Ok? {
      if tail {
        MovedReturned(w, s, h, f, [], pc, w1, s1, h1, o.v, w2, o.s, h2);
      } else {
        MovedTrans(w, s, h, f, [], pc, w1, s1, h1, [Last(h2)], k, w2, o.s, h2);
        assert [] + [Last(h2)] == [Last(h2)];
      }
    }
  }

  /** Non-tail code followed by OP_RET is tail code. */
  lemma FinishGoal(fuel: nat, w: World, s: S.Store, h: H.State, f: nat, pc: nat, k: nat, o: S.Outcome, n: nat,
                   w1: World, h1: H.State)
    returns (m: nat, h2: H.State)
    requires Goal(fuel, w, s, h, f, false, pc, o, n, w1, h1) && |h.frames| >= 2
    requires pc < |h.ip.code| && h.ip.code[pc] == RetI
    ensures Goal(fuel, w, s, h, f, true, k, o, m, w1, h2)
  {
    hide H.Run, H.Step, Keeps, ValRel, FramesOk, ContextsOk, GlobalsRel, TopOk;
    m, h2 := n, h1;
    if o.Ok? {
      var v := o.v;
      H.StepIs(h1, RetI);
      h2 := H.DoRet(h1).s;
      H.RunTrans(h, n, h1, 1);
      H.RunFirst(h1, h2, 0);
      H.RunNone(h2);
      m := n + 1;
      assert Last(h2) == Last(h1);
      assert h.frames[..|h.frames| - 1] == h1.frames[..|h1.frames| - 1];
    }
  }

  // ---------- calls ----------

  /** All that code generation guarantees about an expression about to be run. */
  ghost predicate Ready(w: World, s: S.Store, h: H.State, f: nat, e: Expr, a: AExpr, tail: bool, t: C.Tables) {
    && Inv(w, s, h, f) && A.Addressed(w.scopes[f], e, a) && C.Gen(w.scopes[f], a, tail, t).Some?
    && CodeAt(H.Top(h).irep, |t.code|, C.Gen(w.scopes[f], a, tail, t).value)
    && AtCode(h, |t.code|) && (tail ==> |h.frames| >= 2)
  }

  /** A call answered its call site; no existing frame's own variables changed. */
  ghost predicate Applied(fuel: nat, w: World, s: S.Store, h: H.State, o: S.Outcome, n: nat, start: H.Outcome,
                          w1: World, h1: H.State) {
    match o
    case Timeout => n + 1 >= fuel && H.Continue(start, n).Next?
    case Error => H.Continue(start, n) == H.Fault
    case Ok(v, s1) =>
      && H.Continue(start, n) == H.Next(h1)
      && Ext(w, w1) && Keeps(w, s, w1, s1, {}) && Base(w1, s1, h1) && Answered(w1, h, v, h1)
  }

  lemma KeepsCallee(w: World, s: S.Store, w1: World, s1: S.Store, w2: World, s2: S.Store, f: nat)
    requires FramesOk(w, s.frames) && FramesOk(w1, s1.frames) && Ext(w, w1) && f == |s.frames|
    requires Keeps(w, s, w1, s1, {}) && Keeps(w1, s1, w2, s2, {f})
    ensures Keeps(w, s, w2, s2, {})
  {
    forall g | 0 <= g < |s.frames| ensures KeepsFrame(w, s, w2, s2, g) {
      assert FrameOk(w, s.frames, g) && FrameOk(w1, s1.frames, g);
      assert KeepsFrame(w, s, w1, s1, g) && KeepsFrame(w1, s1, w2, s2, g);
    }
  }

  /** Code objects carry the shape of their lambda. */
  lemma CompiledShape(sc: Scope, lam: Expr, ir: Irep) returns (a: AExpr)
    requires CompiledAs(sc, lam, ir)
    ensures a.ALambda? && lam.Lambda? && A.Addressed(sc, lam, a) && C.GenLambda(sc, a) == Some(ir)
    ensures a.params == lam.params && a.rest == lam.rest && a.locals == lam.locals
    ensures var inner := Scope(a.params, a.rest, a.locals, a.captures, Some(sc));
            var t0 := C.NO_TABLES.(code := C.ActivationCode(inner));
            && A.CapturesOk(inner) && A.Addressed(inner, lam.body, a.body)
            && C.Gen(inner, a.body, true, t0).Some? && ir == C.Finish(inner, C.Gen(inner, a.body, true, t0).value)
            && C.ActivationCode(inner) <= ir.code
  {
    a :| a.ALambda? && A.Addressed(sc, lam, a) && C.GenLambda(sc, a) == Some(ir);
    var inner := Scope(a.params, a.rest, a.locals, a.captures, Some(sc));
    C.GenExtends(inner, a.body, true, C.NO_TABLES.(code := C.ActivationCode(inner)));
  }

  /** The activation code pushes an undefined value only for locals, which are undefined. */
  lemma ActivationUndef(sc: Scope, lam: Expr, env: nat, vs: seq<S.SVal>, i: nat)
    requires lam.Lambda? && S.ArityOk(|lam.params|, lam.rest.Some?, |vs|)
    requires sc.params == lam.params && sc.rest == lam.rest && sc.locals == lam.locals && A.CapturesOk(sc)
    requires i < |sc.captures| && C.Activation(sc, i) == PushUndef
    ensures var fr := S.NewFrame(lam, env, vs);
            CaptureSlot(sc, i) < |fr.vals| && fr.vals[CaptureSlot(sc, i)] == Undef
  {
    assert sc.captures[i] in Names(sc);
    LocalsStartUndefined(lam, env, vs, sc.captures[i]);
  }

  /** The scope that the code of lambda `al`, closed over frame `env`, was generated in. */
  function InnerScope(w: World, env: nat, al: AExpr): Scope
    requires al.ALambda? && env < |w.scopes|
  {
    Scope(al.params, al.rest, al.locals, al.captures, Some(w.scopes[env]))
  }

  /** The frame of a closure that is just being entered. */
  lemma EnteringFrame(w: World, s: S.Store, h: H.State, lam: Expr, env: nat, vs: seq<S.SVal>, xs: seq<H.VVal>,
                      al: AExpr, ir: Irep, c: Option<nat>, slots: seq<H.VVal>)
    requires Base(w, s, h) && env < |s.frames| && env in w.beta && c == Some(w.beta[env])
    requires lam.Lambda? && ValsRel(w, vs, xs) && S.ArityOk(|lam.params|, lam.rest.Some?, |vs|)
    requires al.ALambda? && al.params == lam.params && al.rest == lam.rest && al.locals == lam.locals
    requires A.CapturesOk(InnerScope(w, env, al)) && C.ActivationCode(InnerScope(w, env, al)) <= ir.code
    requires ir.capturec == |al.captures|
    requires |slots| > 0 && slots[1..] == S.InitialSlots(|lam.params|, lam.rest.Some?, |lam.locals|, xs)
    ensures var sc := InnerScope(w, env, al);
            var s1 := s.(frames := s.frames + [S.NewFrame(lam, env, vs)]);
            var w1 := Entered(w, sc);
            && Ext(w, w1) && Base(w1, s1, h) && Keeps(w, s, w1, s1, {})
            && Entering(w1, s1.frames, |s.frames|, H.Frame(slots, [], [], ir, c, None, h.ip))
  {
    hide ValRel;
    hide Keeps;
    var f, sc, fr := |s.frames|, InnerScope(w, env, al), S.NewFrame(lam, env, vs);
    var s1, w1 := s.(frames := s.frames + [fr]), Entered(w, sc);
    SlotsRelInitial(w, lam, env, vs, xs);
    EnteredBase(w, s, h, sc, fr);
    assert f !in w.beta;
    ValsRelExt(w, w1, fr.vals, slots[1..]);
    forall i | 0 <= i < |sc.captures| && C.Activation(sc, i) == PushUndef
      ensures CaptureSlot(sc, i) < |fr.vals| && fr.vals[CaptureSlot(sc, i)] == Undef
    {
      ActivationUndef(sc, lam, env, vs, i);
    }
    assert FrameOk(w1, s1.frames, f);
    hide Base;
  }

  /** Entering a closure: after its activation code, the new frame is represented and the body
      is ready to run. */
  lemma EnterClosure(w: World, s: S.Store, h: H.State, lam: Expr, env: nat, vs: seq<S.SVal>, x: H.VVal, xs: seq<H.VVal>)
    returns (a: AExpr, t0: C.Tables, w1: World, n: nat, h1: H.State)
    requires Base(w, s, h) && h.frames != []
    requires lam.Lambda? && ValRel(w, Proc(S.Closure(lam, env)), x) && ValsRel(w, vs, xs)
    requires S.ArityOk(|lam.params|, lam.rest.Some?, |vs|)
    ensures var s1 := s.(frames := s.frames + [S.NewFrame(lam, env, vs)]);
            && H.Continue(H.EnterProc(h, [x] + xs), n) == H.Next(h1)
            && Ext(w, w1) && Keeps(w, s, w1, s1, {})
            && Ready(w1, s1, h1, |s.frames|, lam.body, a, true, t0)
            && h1.frames[..|h1.frames| - 1] == h.frames && H.Top(h1).ret == h.ip
  {
    var f := |s.frames|;
    var s1 := s.(frames := s.frames + [S.NewFrame(lam, env, vs)]);
    var ir := x.closure.irep;
    var al := CompiledShape(w.scopes[env], lam, ir);
    var sc := InnerScope(w, env, al);
    a, t0, w1 := al.body, C.NO_TABLES.(code := C.ActivationCode(sc)), Entered(w, sc);
    assert env < |s.frames| by { assert ContextOk(w, s.frames, h.cxts, env); }
    var h0 := EnteredState(h, x, xs);
    EnteringFrame(w, s, h, lam, env, vs, xs, al, ir, x.closure.cxt, H.Top(h0).slots);
    assert w1.scopes[f] == sc;
    hide *;
    n, h1 := EnterBody(w1, s1, h, h0, f);
    BodyReady(w1, s1, h1, f, sc, lam.body, a, t0);
    EnteredRun(h, x, xs, h0, n, h1);
  }

  lemma EnteredRun(h: H.State, x: H.VVal, xs: seq<H.VVal>, h0: H.State, n: nat, h1: H.State)
    requires h.frames != [] && H.EnterProc(h, [x] + xs) == H.Next(h0) && H.Run(h0, n) == H.Next(h1)
    requires |h0.frames| == |h.frames| + 1 && h0.frames[..|h.frames|] == h.frames && H.Top(h0).ret == h.ip
    requires h1.frames != [] && h1.frames[..|h1.frames| - 1] == h0.frames[..|h0.frames| - 1]
      && H.Top(h1).ret == H.Top(h0).ret
    ensures H.Continue(H.EnterProc(h, [x] + xs), n) == H.Next(h1)
    ensures h1.frames[..|h1.frames| - 1] == h.frames && H.Top(h1).ret == h.ip
  {
    hide H.EnterProc;
    hide H.Run;
  }

  lemma BodyReady(w: World, s: S.Store, h: H.State, f: nat, sc: Scope, e: Expr, a: AExpr, t0: C.Tables)
    requires Inv(w, s, h, f) && AtCode(h, |t0.code|) && w.scopes[f] == sc && A.Addressed(sc, e, a)
    requires C.Gen(sc, a, true, t0).Some? && H.Top(h).irep == C.Finish(sc, C.Gen(sc, a, true, t0).value)
    requires |h.frames| >= 2
    ensures Ready(w, s, h, f, e, a, true, t0)
  {
    hide Inv;
    hide C.Gen;
    hide A.Addressed;
  }

  lemma EnterBody(w1: World, s1: S.Store, h: H.State, h0: H.State, f: nat) returns (n: nat, h1: H.State)
    requires h0.frames != [] && Entering(w1, s1.frames, f, H.Top(h0)) && AtCode(h0, 0) && H.Top(h0).file == []
    requires Base(w1, s1, h0)
    ensures H.Run(h0, n) == H.Next(h1) && Inv(w1, s1, h1, f) && AtCode(h1, |w1.scopes[f].captures|)
    ensures h1.frames[..|h1.frames| - 1] == h0.frames[..|h0.frames| - 1]
    ensures H.Top(h1).ret == H.Top(h0).ret && H.Top(h1).irep == H.Top(h0).irep
  {
    hide H.Run;
    n, h1 := Prologue(w1, s1.frames, f, h0);
    EnteredTopOk(w1, s1.frames, f, H.Top(h1));
    hide Entering;
  }

  /** The state in which a compiled procedure starts. */
  function EnteredState(h: H.State, x: H.VVal, xs: seq<H.VVal>): (h0: H.State)
    requires h.frames != [] && x.Proc? && x.closure.irep.argc > 0
    requires x.closure.irep.localc >= (if x.closure.irep.varg then 1 else 0)
    requires S.ArityOk(x.closure.irep.argc - 1, x.closure.irep.varg, |xs|)
    ensures H.EnterProc(h, [x] + xs) == H.Next(h0)
    ensures |h0.frames| == |h.frames| + 1 && h0.frames[..|h.frames|] == h.frames
    ensures var ir := x.closure.irep;
            && H.Top(h0).irep == ir && H.Top(h0).ret == h.ip && H.Top(h0).up == x.closure.cxt && H.Top(h0).cxt == None
            && H.Top(h0).file == H.Top(h0).temps == [] && |H.Top(h0).slots| > 0
            && H.Top(h0).slots[1..] == S.InitialSlots(ir.argc - 1, ir.varg, ir.localc - (if ir.varg then 1 else 0), xs)
            && h0.ip == H.Ip(ir.code, 0) && h0.cxts == h.cxts && h0.globals == h.globals
  {
    var ir := x.closure.irep;
    assert ([x] + xs)[1..] == xs;
    H.State(h.frames + [H.Frame(
        [x] + S.InitialSlots(ir.argc - 1, ir.varg, ir.localc - (if ir.varg then 1 else 0), xs),
        [], [], ir, x.closure.cxt, None, h.ip)],
      H.Ip(ir.code, 0), h.cxts, h.globals)
  }

  // ---------- how the code of a compound expression splits ----------

  lemma ReadySub(w: World, s: S.Store, h: H.State, f: nat, e: Expr, a: AExpr, tail: bool, t: C.Tables, t1: C.Tables,
                 t2: C.Tables)
    requires Inv(w, s, h, f) && A.Addressed(w.scopes[f], e, a) && C.Gen(w.scopes[f], a, tail, t) == Some(t1)
    requires CodeAt(H.Top(h).irep, |t.code|, t2) && C.Extends(t1, t2) && AtCode(h, |t.code|)
      && (tail ==> |h.frames| >= 2)
    ensures Ready(w, s, h, f, e, a, tail, t)
  {
    hide Inv;
    hide C.Gen;
    hide A.Addressed;
  }

  /** Code appended to `t1` up to `t2` is in place when all of `t2` is. */
  lemma CodeAtSuffix(ir: Irep, from: nat, to: nat, t2: C.Tables)
    requires CodeAt(ir, from, t2) && from <= to
    ensures CodeAt(ir, to, t2)
  {
  }

  /** Moving keeps the code object and, for tail code, the caller. */
  lemma MovedCode(w: World, s: S.Store, h: H.State, f: nat, xs: seq<H.VVal>, pc: nat, w1: World,
                  s1: S.Store, h1: H.State)
    requires Moved(w, s, h, f, xs, pc, w1, s1, h1) && Inv(w, s, h, f) && AtCode(h, h.ip.pc)
    ensures H.Top(h1).irep == H.Top(h).irep && AtCode(h1, pc) && |h1.frames| == |h.frames|
    ensures h1.frames != [] && f < |w1.scopes|
    ensures Inv(w1, s1, h1, f) && f < |w.scopes| && w1.scopes[f] == w.scopes[f]
    ensures H.Top(h1).temps == H.Top(h).temps + xs
  {
    hide Keeps;
  }

  /** An instruction consumed the topmost operand. */
  lemma DropLast(w: World, s: S.Store, h: H.State, f: nat, x: H.VVal, pc: nat, w1: World, s1: S.Store,
                 h1: H.State, pc1: nat)
    requires Moved(w, s, h, f, [x], pc, w1, s1, h1)
    ensures Moved(w, s, h, f, [], pc1, w1, s1, WithTemps(h1, H.Top(h).temps, pc1))
  {
    TempsInv(w1, s1, h1, f, H.Top(h).temps, pc1);
    hide Keeps;
    hide Inv;
  }

  lemma PopStep(w: World, s: S.Store, h: H.State, f: nat, pc: nat, w1: World, s1: S.Store, h1: H.State)
    requires Moved(w, s, h, f, [Last(h1)], pc, w1, s1, h1) && AtCode(h1, pc)
    requires pc < |H.Top(h1).irep.code|
    ensures H.Top(h1).irep.code[pc] == Pop ==> H.Step(h1) == H.Next(WithTemps(h1, H.Top(h).temps, pc + 1))
    ensures H.Top(h1).irep.code[pc].JmpIf? ==>
              H.Step(h1) == H.Next(WithTemps(h1, H.Top(h).temps,
                pc + if Last(h1) == Bool(false) then 1 else H.Top(h1).irep.code[pc].off))
  {
    hide Keeps, Inv, H.Step;
    assert H.Top(h1).temps == H.Top(h).temps + [Last(h1)];
    assert H.Drop(H.Top(h1), 1).temps == H.Top(h).temps;
    H.StepIs(h1, H.Top(h1).irep.code[pc]);
  }

  /** Where the pieces of a conditional end up, and where its two jumps lead. */
  lemma IfCode(sc: Scope, a: AExpr, tail: bool, t: C.Tables, ir: Irep)
    returns (t1: C.Tables, t2: C.Tables, t3: C.Tables, t4: C.Tables)
    requires a.AIf? && C.Gen(sc, a, tail, t).Some? && CodeAt(ir, |t.code|, C.Gen(sc, a, tail, t).value)
    ensures C.Gen(sc, a.c, false, t) == Some(t1) && CodeAt(ir, |t.code|, t1) && |t.code| < |t1.code| < |ir.code|
    ensures ir.code[|t1.code|] == JmpIf(|t3.code| - |t1.code|)
    ensures C.Gen(sc, a.f, tail, C.Emit(t1, JmpIf(0))) == Some(t2) && CodeAt(ir, |t1.code| + 1, t2)
    ensures |t1.code| + 1 < |t2.code| < |ir.code| && |t3.code| == |t2.code| + 1
    ensures ir.code[|t2.code|] == Jmp(|t4.code| - |t2.code|)
    ensures C.Gen(sc, a.t, tail, t3) == Some(t4) && CodeAt(ir, |t3.code|, t4)
    ensures |t4.code| == |C.Gen(sc, a, tail, t).value.code|
  {
    var t5;
    t1, t2, t3, t4, t5 := IfParts(sc, a, tail, t);
    hide C.Gen;
    C.GenExtends(sc, a.c, false, t);
    C.GenExtends(sc, a.f, tail, C.Emit(t1, JmpIf(0)));
    C.GenExtends(sc, a.t, tail, t3);
    IfTables(ir, t, t1, t2, t3, t4, t5);
  }

  /** The tables between the pieces. */
  lemma IfParts(sc: Scope, a: AExpr, tail: bool, t: C.Tables)
    returns (t1: C.Tables, t2: C.Tables, t3: C.Tables, t4: C.Tables, t5: C.Tables)
    requires a.AIf? && C.Gen(sc, a, tail, t).Some?
    ensures C.Gen(sc, a.c, false, t) == Some(t1)
    ensures C.Gen(sc, a.f, tail, C.Emit(t1, JmpIf(0))) == Some(t2) && |t1.code| < |C.Emit(t2, Jmp(0)).code|
    ensures t3 == C.Patch(C.Emit(t2, Jmp(0)), |t1.code|, JmpIf(|C.Emit(t2, Jmp(0)).code| - |t1.code|))
    ensures C.Gen(sc, a.t, tail, t3) == Some(t4) && |t2.code| < |t4.code|
    ensures C.Gen(sc, a, tail, t) == Some(t5) && t5 == C.Patch(t4, |t2.code|, Jmp(|t4.code| - |t2.code|))
  {
    t5 := C.Gen(sc, a, tail, t).value;
    t1 := C.Gen(sc, a.c, false, t).value;
    var t1' := C.Emit(t1, JmpIf(0));
    t2 := C.Gen(sc, a.f, tail, t1').value;
    var t2' := C.Emit(t2, Jmp(0));
    t3 := C.Patch(t2', |t1.code|, JmpIf(|t2'.code| - |t1.code|));
    t4 := C.Gen(sc, a.t, tail, t3).value;
  }

  lemma IfTables(ir: Irep, t: C.Tables, t1: C.Tables, t2: C.Tables, t3: C.Tables, t4: C.Tables, t5: C.Tables)
    requires C.Extends(t, t1) && C.Extends(C.Emit(t1, JmpIf(0)), t2) && C.Extends(t3, t4)
    requires |t.code| < |t1.code| && |t1.code| + 1 < |t2.code| && |t2.code| + 1 < |t4.code|
    requires t3 == C.Patch(C.Emit(t2, Jmp(0)), |t1.code|, JmpIf(|t2.code| + 1 - |t1.code|))
    requires t5 == C.Patch(t4, |t2.code|, Jmp(|t4.code| - |t2.code|)) && CodeAt(ir, |t.code|, t5)
    ensures CodeAt(ir, |t.code|, t1) && CodeAt(ir, |t1.code| + 1, t2) && CodeAt(ir, |t3.code|, t4)
    ensures ir.code[|t1.code|] == JmpIf(|t3.code| - |t1.code|) && ir.code[|t2.code|] == Jmp(|t4.code| - |t2.code|)
  {
    assert forall i :: |t.code| <= i < |t5.code| ==> ir.code[i] == t5.code[i];
    assert forall i :: 0 <= i < |t3.code| ==> t4.code[i] == t3.code[i];
    assert forall i :: 0 <= i < |t1.code| + 1 ==> t2.code[i] == C.Emit(t1, JmpIf(0)).code[i];
    assert t4.code[|t1.code|] == t3.code[|t1.code|];
  }

  // ---------- single instructions ----------

  lemma PushMoved(w: World, s: S.Store, h: H.State, f: nat, y: H.VVal, pc: nat)
    requires Inv(w, s, h, f)
    ensures var h1 := WithTemps(h, H.Top(h).temps + [y], pc);
            Moved(w, s, h, f, [y], pc, w, s, h1) && Last(h1) == y
  {
    TempsInv(w, s, h, f, H.Top(h).temps + [y], pc);
    KeepsRefl(w, s, {f});
    hide Keeps;
    hide Inv;
  }

  lemma SimQuote(w: World, s: S.Store, h: H.State, f: nat, e: Expr, a: AExpr, t: C.Tables, fuel: nat)
    returns (n: nat, w1: World, h1: H.State)
    requires Ready(w, s, h, f, e, a, false, t) && e.Quote?
    ensures Goal(fuel, w, s, h, f, false, |C.Gen(w.scopes[f], a, false, t).value.code|,
                 S.Eval(e, f, s, fuel), n, w1, h1)
  {
    hide H.Step;
    hide H.Run;
    hide Moved;
    hide Inv;
    hide ValRel;
    hide WithTemps;
    QuoteStep(w, s, h, f, e.d, t);
    PushMoved(w, s, h, f, Inject(e.d), |t.code| + 1);
    InjectRel(w, e.d);
    n, w1, h1 := 1, w, WithTemps(h, H.Top(h).temps + [Inject(e.d)], |t.code| + 1);
    H.RunOne(h);
  }

  lemma SimVar(w: World, s: S.Store, h: H.State, f: nat, e: Expr, a: AExpr, t: C.Tables, fuel: nat)
    returns (n: nat, w1: World, h1: H.State)
    requires Ready(w, s, h, f, e, a, false, t) && e.Var?
    ensures Goal(fuel, w, s, h, f, false, |C.Gen(w.scopes[f], a, false, t).value.code|,
                 S.Eval(e, f, s, fuel), n, w1, h1)
  {
    hide H.Step;
    hide H.Run;
    hide Moved;
    hide Inv;
    hide ValRel;
    hide WithTemps;
    hide S.Lookup;
    hide C.GenRef;
    var y := RefStep(w, s, h, f, e.x, a.ref, t);
    PushMoved(w, s, h, f, y, |t.code| + 1);
    n, w1, h1 := 1, w, WithTemps(h, H.Top(h).temps + [y], |t.code| + 1);
    H.RunOne(h);
  }

  lemma SimLambda(w: World, s: S.Store, h: H.State, f: nat, e: Expr, a: AExpr, t: C.Tables, fuel: nat)
    returns (n: nat, w1: World, h1: H.State)
    requires Ready(w, s, h, f, e, a, false, t) && e.Lambda?
    ensures Goal(fuel, w, s, h, f, false, |C.Gen(w.scopes[f], a, false, t).value.code|,
                 S.Eval(e, f, s, fuel), n, w1, h1)
  {
    hide H.Step;
    hide H.Run;
    hide Keeps;
    hide ValRel;
    hide C.GenLambda;
    var t1 := C.Gen(w.scopes[f], a, false, t).value;
    var ir := C.GenLambda(w.scopes[f], a).value;
    Fetch(h, t, t1);
    assert H.Top(h).irep.ireps[|t.ireps|] == t1.ireps[|t.ireps|] == ir;
    assert CompiledAs(w.scopes[f], e, ir);
    var x;
    w1, h1, x := LambdaStep(w, s, h, f, e, |t.ireps|);
    n := 1;
    H.RunOne(h);
    hide Inv;
    hide CompiledAs;
    hide A.Addressed;
  }

  /** An assignment, once its value is on the stack. */
  lemma SetGoal(fuel: nat, w: World, s: S.Store, h: H.State, f: nat, x: Name, r: Ref, t: C.Tables, t1: C.Tables,
                o: S.Outcome, n: nat, w1: World, h1: H.State) returns (m: nat, h2: H.State)
    requires Inv(w, s, h, f) && AtCode(h, |t.code|) && A.AddressedRef(w.scopes[f], x, r)
    requires C.GenStore(w.scopes[f], r, t1).Some? && |t.code| <= |t1.code|
    requires CodeAt(H.Top(h).irep, |t.code|, C.GenStore(w.scopes[f], r, t1).value)
    requires Goal(fuel, w, s, h, f, false, |t1.code|, o, n, w1, h1)
    ensures var o1 := match o
                      case Ok(v, s1) =>
                        (match S.Update(s1, f, x, v)
                         case Some(s2) => S.Ok(Undef, s2)
                         case None => S.Error)
                      case _ => o;
            Goal(fuel, w, s, h, f, false, |C.GenStore(w.scopes[f], r, t1).value.code|, o1, m, w1, h2)
  {
    hide H.Step;
    hide H.Run;
    hide Moved;
    hide S.Update;
    hide C.GenStore;
    hide A.AddressedRef;
    m, h2 := n, h1;
    if o.Ok? {
      assert CodeAt(H.Top(h).irep, |t1.code|, C.GenStore(w.scopes[f], r, t1).value);
      h2 := SetStep(w, s, h, f, x, r, t1, o.v, w1, o.s, h1);
      H.RunTrans(h, n, h1, 1);
      H.RunOne(h1);
      m := n + 1;
      hide Inv;
      hide CodeAt;
    }
  }

  lemma SetStep(w: World, s: S.Store, h: H.State, f: nat, x: Name, r: Ref, t1: C.Tables, v: S.SVal,
                w1: World, s1: S.Store, h1: H.State) returns (h2: H.State)
    requires Inv(w, s, h, f) && AtCode(h, h.ip.pc) && A.AddressedRef(w.scopes[f], x, r)
    requires C.GenStore(w.scopes[f], r, t1).Some?
    requires CodeAt(H.Top(h).irep, |t1.code|, C.GenStore(w.scopes[f], r, t1).value)
    requires Moved(w, s, h, f, [Last(h1)], |t1.code|, w1, s1, h1) && ValRel(w1, v, Last(h1))
    ensures |C.GenStore(w.scopes[f], r, t1).value.code| == |t1.code| + 1
    ensures match S.Update(s1, f, x, v)
            case Some(s2) =>
              H.Step(h1) == H.Next(h2) && Moved(w, s, h, f, [Undef], |t1.code| + 1, w1, s2, h2) && Last(h2) == Undef
            case None => H.Step(h1) == H.Fault
  {
    hide H.Step;
    hide Inv;
    hide Moved;
    hide C.GenStore;
    hide A.AddressedRef;
    hide S.Update;
    MovedCode(w, s, h, f, [Last(h1)], |t1.code|, w1, s1, h1);
    h2 := StoreStep(w1, s1, h1, f, x, r, t1, v, Last(h1));
    var r2 := S.Update(s1, f, x, v);
    if r2.Some? {
      StoredMoved(w, s, h, f, Last(h1), |t1.code|, w1, s1, h1, r2.value, h2);
    }
  }

  lemma StoredMoved(w: World, s: S.Store, h: H.State, f: nat, y: H.VVal, pc: nat, w1: World, s1: S.Store, h1: H.State,
                    s2: S.Store, h2: H.State)
    requires Inv(w, s, h, f) && Moved(w, s, h, f, [y], pc, w1, s1, h1)
    requires H.Top(h1).temps != [] && Stored(w1, s1, h1, f, s2, h2)
    ensures Moved(w, s, h, f, [Undef], pc + 1, w1, s2, h2) && Last(h2) == Undef
  {
    KeepsTrans(w, s, w1, s1, w1, s2, {f});
    assert H.Top(h1).temps[..|H.Top(h1).temps| - 1] == H.Top(h).temps;
    hide Keeps;
    hide Inv;
  }

  // ---------- the simulation ----------

  lemma {:induction false} Sim(w: World, s: S.Store, h: H.State, f: nat, e: Expr, a: AExpr, tail: bool,
                               t: C.Tables, fuel: nat)
    returns (n: nat, w1: World, h1: H.State)
    requires Ready(w, s, h, f, e, a, tail, t)
    ensures Goal(fuel, w, s, h, f, tail, |C.Gen(w.scopes[f], a, tail, t).value.code|, S.Eval(e, f, s, fuel), n, w1, h1)
    decreases fuel, 1, e, 3
  {
    match e
    case If(_, _, _) => n, w1, h1 := SimIf(w, s, h, f, e, a, tail, t, fuel);
    case Begin(_, _) => n, w1, h1 := SimBegin(w, s, h, f, e, a, tail, t, fuel);
    case Call(_, _) => n, w1, h1 := SimCall(w, s, h, f, e, a, tail, t, fuel);
    case _ => n, w1, h1 := SimFinished(w, s, h, f, e, a, tail, t, fuel);
  }

  /** Is this an expression whose tail code is its ordinary code and a return? */
  predicate Finished(e: Expr, a: AExpr) {
    e.Quote? || e.Var? || e.Set? || e.Lambda? || (e.Call? && a.ACall? && C.Inlined(a.fn, |a.args|).Some?)
  }

  /** Tail code that ends in OP_RET. */
  lemma {:induction false} SimFinished(w: World, s: S.Store, h: H.State, f: nat, e: Expr, a: AExpr, tail: bool,
                                       t: C.Tables, fuel: nat)
    returns (n: nat, w1: World, h1: H.State)
    requires Ready(w, s, h, f, e, a, tail, t) && Finished(e, a)
    ensures Goal(fuel, w, s, h, f, tail, |C.Gen(w.scopes[f], a, tail, t).value.code|, S.Eval(e, f, s, fuel), n, w1, h1)
    decreases fuel, 1, e, 1
  {
    var sc, ir := w.scopes[f], H.Top(h).irep;
    var t1 := C.Gen(sc, a, false, t).value;
    var t2 := C.Gen(sc, a, tail, t).value;
    assert t2 == C.EmitRet(t1, tail) by { hide Ready; }
    assert CodeAt(ir, |t.code|, t1) && Ready(w, s, h, f, e, a, false, t);
    assert tail ==> |t1.code| < |ir.code| && ir.code[|t1.code|] == RetI;
    assert h.ip.code == ir.code && (tail ==> |h.frames| >= 2);
    var isInlined := e.Call?;
    hide *;
    if isInlined {
      n, w1, h1 := SimInlined(w, s, h, f, e, a, t, fuel);
    } else {
      n, w1, h1 := SimLeaf(w, s, h, f, e, a, t, fuel);
    }
    if tail {
      n, h1 := FinishGoal(fuel, w, s, h, f, |t1.code|, |t2.code|, S.Eval(e, f, s, fuel), n, w1, h1);
    }
  }

  lemma {:induction false} SimLeaf(w: World, s: S.Store, h: H.State, f: nat, e: Expr, a: AExpr, t: C.Tables, fuel: nat)
    returns (n: nat, w1: World, h1: H.State)
    requires Ready(w, s, h, f, e, a, false, t) && (e.Quote? || e.Var? || e.Set? || e.Lambda?)
    ensures Goal(fuel, w, s, h, f, false, |C.Gen(w.scopes[f], a, false, t).value.code|,
                 S.Eval(e, f, s, fuel), n, w1, h1)
    decreases fuel, 1, e, 0
  {
    hide Goal;
    match e
    case Quote(_) => n, w1, h1 := SimQuote(w, s, h, f, e, a, t, fuel);
    case Var(_) => n, w1, h1 := SimVar(w, s, h, f, e, a, t, fuel);
    case Lambda(_, _, _, _) => n, w1, h1 := SimLambda(w, s, h, f, e, a, t, fuel);
    case Set(x, e1) =>
      var t1 := C.Gen(w.scopes[f], a.e, false, t).value;
      var t2 := C.GenStore(w.scopes[f], a.ref, t1).value;
      C.GenExtends(w.scopes[f], a.e, false, t);
      ReadySub(w, s, h, f, e1, a.e, false, t, t1, t2);
      n, w1, h1 := Sim(w, s, h, f, e1, a.e, false, t, fuel);
      n, h1 := SetGoal(fuel, w, s, h, f, x, a.ref, t, t1, S.Eval(e1, f, s, fuel), n, w1, h1);
      hide Ready;
  }

  lemma {:induction false} SimBegin(w: World, s: S.Store, h: H.State, f: nat, e: Expr, a: AExpr, tail: bool,
                                    t: C.Tables, fuel: nat)
    returns (n: nat, w1: World, h1: H.State)
    requires Ready(w, s, h, f, e, a, tail, t) && e.Begin?
    ensures Goal(fuel, w, s, h, f, tail, |C.Gen(w.scopes[f], a, tail, t).value.code|, S.Eval(e, f, s, fuel), n, w1, h1)
    decreases fuel, 1, e, 2
  {
    hide C.Gen, CodeAt, H.Run, H.Step, Goal, Moved, Returned, TopOk, A.Addressed, Base;
    var sc := BeginShape(w, s, h, f, e, a, tail, t);
    var t1, t2 := BeginCode(sc, a, tail, t, H.Top(h).irep);
    ReadySub(w, s, h, f, e.e1, a.e1, false, t, t1, t2);
    var o1 := S.Eval(e.e1, f, s, fuel);
    n, w1, h1 := Sim(w, s, h, f, e.e1, a.e1, false, t, fuel);
    BeginFirst(fuel, w, s, h, f, tail, |t1.code|, |t2.code|, S.Eval(e, f, s, fuel), o1, n, w1, h1);
    if o1.Ok? {
      var h2;
      n, h2 := BeginPop(fuel, w, s, h, f, |t1.code|, o1, n, w1, h1);
      MovedCode(w, s, h, f, [], |t1.code| + 1, w1, o1.s, h2);
      ReadyAgain(w1, o1.s, h2, f, sc, e.e2, a.e2, tail, C.Emit(t1, Pop), t2);
      var m;
      var w2, h3;
      m, w2, h3 := Sim(w1, o1.s, h2, f, e.e2, a.e2, tail, C.Emit(t1, Pop), fuel);
      MovedGoal(fuel, w, s, h, f, n, |t1.code| + 1, w1, o1.s, h2, tail, |t2.code|,
                S.Eval(e.e2, f, o1.s, fuel), m, w2, h3);
      n, w1, h1 := n + m, w2, h3;
    }
  }

  lemma BeginShape(w: World, s: S.Store, h: H.State, f: nat, e: Expr, a: AExpr, tail: bool, t: C.Tables)
    returns (sc: Scope)
    requires Ready(w, s, h, f, e, a, tail, t) && e.Begin?
    ensures h.frames != [] && f < |w.scopes| && sc == w.scopes[f] && AtCode(h, h.ip.pc)
    ensures a.ABegin? && A.Addressed(sc, e.e1, a.e1) && A.Addressed(sc, e.e2, a.e2)
  {
    hide C.Gen, CodeAt;
    sc := w.scopes[f];
  }

  /** Where the two parts of a sequence end up. */
  lemma BeginCode(sc: Scope, a: AExpr, tail: bool, t: C.Tables, ir: Irep) returns (t1: C.Tables, t2: C.Tables)
    requires a.ABegin? && C.Gen(sc, a, tail, t).Some?
    requires CodeAt(ir, |t.code|, C.Gen(sc, a, tail, t).value)
    ensures C.Gen(sc, a.e1, false, t) == Some(t1) && C.Extends(t1, t2) && C.Gen(sc, a, tail, t) == Some(t2)
    ensures C.Gen(sc, a.e2, tail, C.Emit(t1, Pop)) == Some(t2) && |C.Emit(t1, Pop).code| == |t1.code| + 1
    ensures |t1.code| < |ir.code| && ir.code[|t1.code|] == Pop
    ensures CodeAt(ir, |t.code|, t2) && CodeAt(ir, |t1.code| + 1, t2)
  {
    t1 := C.Gen(sc, a.e1, false, t).value;
    t2 := C.Gen(sc, a, tail, t).value;
    C.GenExtends(sc, a.e1, false, t);
    C.GenExtends(sc, a.e2, tail, C.Emit(t1, Pop));
    hide C.Gen;
    C.ExtendsTrans(t1, C.Emit(t1, Pop), t2);
    CodeAtSuffix(ir, |t.code|, |t1.code| + 1, t2);
  }

  lemma BeginFirst(fuel: nat, w: World, s: S.Store, h: H.State, f: nat, tail: bool, pc: nat, pc2: nat, o: S.Outcome,
                   o1: S.Outcome, n: nat, w1: World, h1: H.State)
    requires Goal(fuel, w, s, h, f, false, pc, o1, n, w1, h1) && (!o1.Ok? ==> o == o1)
    ensures !o1.Ok? ==> Goal(fuel, w, s, h, f, tail, pc2, o, n, w1, h1)
  {
    hide H.Run;
  }

  /** The value of the first part is dropped. */
  lemma BeginPop(fuel: nat, w: World, s: S.Store, h: H.State, f: nat, pc: nat, o: S.Outcome,
                 n: nat, w1: World, h1: H.State)
    returns (m: nat, h2: H.State)
    requires o.Ok? && Goal(fuel, w, s, h, f, false, pc, o, n, w1, h1) && Inv(w, s, h, f) && AtCode(h, h.ip.pc)
    requires pc < |H.Top(h).irep.code| && H.Top(h).irep.code[pc] == Pop
    ensures H.Run(h, m) == H.Next(h2) && Moved(w, s, h, f, [], pc + 1, w1, o.s, h2)
  {
    hide Inv, Moved, H.Run, H.Step, AtCode;
    MovedCode(w, s, h, f, [Last(h1)], pc, w1, o.s, h1);
    PopStep(w, s, h, f, pc, w1, o.s, h1);
    DropLast(w, s, h, f, Last(h1), pc, w1, o.s, h1, pc + 1);
    h2 := WithTemps(h1, H.Top(h).temps, pc + 1);
    m := RunThen(h, n, h1, h2);
  }

  lemma RunThen(h: H.State, n: nat, h1: H.State, h2: H.State) returns (m: nat)
    requires H.Run(h, n) == H.Next(h1) && H.Step(h1) == H.Next(h2)
    ensures H.Run(h, m) == H.Next(h2)
  {
    m := n + 1;
    H.RunTrans(h, n, h1, 1);
    H.RunOne(h1);
    hide H.Step;
    hide H.Run;
  }

  lemma ReadyAgain(w: World, s: S.Store, h: H.State, f: nat, sc: Scope, e: Expr, a: AExpr, tail: bool, t: C.Tables,
                   t1: C.Tables)
    requires Inv(w, s, h, f) && w.scopes[f] == sc && A.Addressed(sc, e, a) && C.Gen(sc, a, tail, t) == Some(t1)
    requires CodeAt(H.Top(h).irep, |t.code|, t1) && AtCode(h, |t.code|) && (tail ==> |h.frames| >= 2)
    ensures Ready(w, s, h, f, e, a, tail, t) && C.Gen(w.scopes[f], a, tail, t).value == t1
  {
    hide Inv;
    hide C.Gen;
    hide A.Addressed;
  }

  /** The conditional jump pops the test value and goes to the branch it selects. */
  lemma TestStep(w: World, s: S.Store, h: H.State, f: nat, n: nat, pc: nat, w1: World, s1: S.Store,
                 h1: H.State, target: nat)
    returns (m: nat, h2: H.State)
    requires Inv(w, s, h, f) && AtCode(h, h.ip.pc) && H.Run(h, n) == H.Next(h1)
    requires Moved(w, s, h, f, [Last(h1)], pc, w1, s1, h1)
    requires pc < |H.Top(h).irep.code| && H.Top(h).irep.code[pc] == JmpIf(target - pc)
    ensures var pc1 := if Last(h1) == Bool(false) then pc + 1 else target;
            && H.Run(h, m) == H.Next(h2) && Moved(w, s, h, f, [], pc1, w1, s1, h2)
            && Inv(w1, s1, h2, f) && AtCode(h2, pc1) && H.Top(h2).irep == H.Top(h).irep && |h2.frames| == |h.frames|
            && f < |w.scopes| && w1.scopes[f] == w.scopes[f]
  {
    var pc1 := if Last(h1) == Bool(false) then pc + 1 else target;
    h2 := WithTemps(h1, H.Top(h).temps, pc1);
    MovedCode(w, s, h, f, [Last(h1)], pc, w1, s1, h1);
    PopStep(w, s, h, f, pc, w1, s1, h1);
    DropLast(w, s, h, f, Last(h1), pc, w1, s1, h1, pc1);
    MovedCode(w, s, h, f, [], pc1, w1, s1, h2);
    hide *;
    m := RunThen(h, n, h1, h2);
  }

  lemma {:induction false} SimIf(w: World, s: S.Store, h: H.State, f: nat, e: Expr, a: AExpr, tail: bool,
                                 t: C.Tables, fuel: nat)
    returns (n: nat, w1: World, h1: H.State)
    requires Ready(w, s, h, f, e, a, tail, t) && e.If?
    ensures Goal(fuel, w, s, h, f, tail, |C.Gen(w.scopes[f], a, tail, t).value.code|, S.Eval(e, f, s, fuel), n, w1, h1)
    decreases fuel, 1, e, 2
  {
    hide *;
    ReadyParts(w, s, h, f, e, a, tail, t);
    AddressedIf(w.scopes[f], e, a);
    var sc := w.scopes[f];
    var t1, t2, t3, t4 := IfCode(sc, a, tail, t, H.Top(h).irep);
    ReadyAgain(w, s, h, f, sc, e.c, a.c, false, t, t1);
    EvalIf(e, f, s, fuel);
    var o1 := S.Eval(e.c, f, s, fuel);
    n, w1, h1 := Sim(w, s, h, f, e.c, a.c, false, t, fuel);
    if o1.Ok? {
      GoalMoved(fuel, w, s, h, f, |t1.code|, o1, n, w1, h1);
      n, w1, h1 := SimBranch(w, s, h, f, e, a, tail, t1, t2, t3, t4, |C.Gen(sc, a, tail, t).value.code|, fuel,
                             n, o1.v == Bool(false), w1, o1.s, h1);
    } else {
      GoalFailed(fuel, w, s, h, f, false, |t1.code|, tail, |C.Gen(sc, a, tail, t).value.code|, o1, n, w1, h1);
    }
  }

  lemma ReadyParts(w: World, s: S.Store, h: H.State, f: nat, e: Expr, a: AExpr, tail: bool, t: C.Tables)
    requires Ready(w, s, h, f, e, a, tail, t)
    ensures f < |w.scopes| && h.frames != [] && Inv(w, s, h, f) && AtCode(h, |t.code|) && AtCode(h, h.ip.pc)
    ensures A.Addressed(w.scopes[f], e, a) && C.Gen(w.scopes[f], a, tail, t).Some? && (tail ==> |h.frames| >= 2)
    ensures CodeAt(H.Top(h).irep, |t.code|, C.Gen(w.scopes[f], a, tail, t).value)
  {
    hide C.Gen;
    hide A.Addressed;
  }

  lemma AddressedIf(sc: Scope, e: Expr, a: AExpr)
    requires e.If? && A.Addressed(sc, e, a)
    ensures a.AIf? && A.Addressed(sc, e.c, a.c) && A.Addressed(sc, e.t, a.t) && A.Addressed(sc, e.f, a.f)
  {
  }

  lemma EvalIf(e: Expr, f: nat, s: S.Store, fuel: nat)
    requires e.If?
    ensures var o1 := S.Eval(e.c, f, s, fuel);
            S.Eval(e, f, s, fuel) ==
            if o1.Ok? then S.Eval(if o1.v == Bool(false) then e.f else e.t, f, o1.s, fuel) else o1
  {
  }

  lemma GoalMoved(fuel: nat, w: World, s: S.Store, h: H.State, f: nat, pc: nat, o: S.Outcome,
                  n: nat, w1: World, h1: H.State)
    requires o.Ok? && Goal(fuel, w, s, h, f, false, pc, o, n, w1, h1)
    ensures H.Run(h, n) == H.Next(h1) && Moved(w, s, h, f, [Last(h1)], pc, w1, o.s, h1) && ValRel(w1, o.v, Last(h1))
    ensures o.v == Bool(false) <==> Last(h1) == Bool(false)
  {
    hide Moved;
    hide H.Run;
  }

  /** An evaluation that fails or runs out of fuel does so in every position. */
  lemma GoalFailed(fuel: nat, w: World, s: S.Store, h: H.State, f: nat, tail: bool, pc: nat, tail1: bool, pc1: nat,
                   o: S.Outcome, n: nat, w1: World, h1: H.State)
    requires !o.Ok? && Goal(fuel, w, s, h, f, tail, pc, o, n, w1, h1)
    ensures Goal(fuel, w, s, h, f, tail1, pc1, o, n, w1, h1)
  {
    hide H.Run;
  }

  lemma EmitLength(t: C.Tables, i: Insn)
    ensures |C.Emit(t, i).code| == |t.code| + 1
  {
  }

  lemma {:induction false} SimBranch(w: World, s: S.Store, h: H.State, f: nat, e: Expr, a: AExpr, tail: bool,
                                     t1: C.Tables, t2: C.Tables, t3: C.Tables, t4: C.Tables, k: nat, fuel: nat,
                                     n: nat, no: bool, w1: World, s1: S.Store, h1: H.State)
    returns (m: nat, w2: World, h2: H.State)
    requires f < |w.scopes| && Inv(w, s, h, f) && h.frames != [] && AtCode(h, h.ip.pc) && (tail ==> |h.frames| >= 2)
    requires e.If? && a.AIf? && A.Addressed(w.scopes[f], e.t, a.t) && A.Addressed(w.scopes[f], e.f, a.f)
    requires H.Run(h, n) == H.Next(h1) && Moved(w, s, h, f, [Last(h1)], |t1.code|, w1, s1, h1)
    requires Last(h1) == Bool(false) <==> no
    requires |t1.code| < |H.Top(h).irep.code| && H.Top(h).irep.code[|t1.code|] == JmpIf(|t3.code| - |t1.code|)
    requires C.Gen(w.scopes[f], a.f, tail, C.Emit(t1, JmpIf(0))) == Some(t2) && CodeAt(H.Top(h).irep, |t1.code| + 1, t2)
    requires |t2.code| < |H.Top(h).irep.code| && H.Top(h).irep.code[|t2.code|] == Jmp(k - |t2.code|)
    requires C.Gen(w.scopes[f], a.t, tail, t3) == Some(t4) && CodeAt(H.Top(h).irep, |t3.code|, t4) && k == |t4.code|
    ensures Goal(fuel, w, s, h, f, tail, k, S.Eval(if no then e.f else e.t, f, s1, fuel), m, w2, h2)
    decreases fuel, 1, e, 1
  {
    hide *;
    EmitLength(t1, JmpIf(0));
    var sc := w.scopes[f];
    var m1, h3 := TestStep(w, s, h, f, n, |t1.code|, w1, s1, h1, |t3.code|);
    if no {
      ReadyAgain(w1, s1, h3, f, sc, e.f, a.f, tail, C.Emit(t1, JmpIf(0)), t2);
      m, w2, h2 := Sim(w1, s1, h3, f, e.f, a.f, tail, C.Emit(t1, JmpIf(0)), fuel);
      m, h2 := JumpOver(fuel, w1, s1, h3, f, tail, |t1.code| + 1, |t2.code|, k, S.Eval(e.f, f, s1, fuel), m, w2, h2);
      MovedGoal(fuel, w, s, h, f, m1, |t1.code| + 1, w1, s1, h3, tail, k, S.Eval(e.f, f, s1, fuel), m, w2, h2);
    } else {
      ReadyAgain(w1, s1, h3, f, sc, e.t, a.t, tail, t3, t4);
      m, w2, h2 := Sim(w1, s1, h3, f, e.t, a.t, tail, t3, fuel);
      MovedGoal(fuel, w, s, h, f, m1, |t3.code|, w1, s1, h3, tail, k, S.Eval(e.t, f, s1, fuel), m, w2, h2);
    }
    m := m1 + m;
  }

  /** After the first branch a jump leads past the second; tail code never gets there. */
  lemma JumpOver(fuel: nat, w: World, s: S.Store, h: H.State, f: nat, tail: bool, start: int, from: nat, to: nat,
                 o: S.Outcome, n: nat, w1: World, h1: H.State) returns (m: nat, h2: H.State)
    requires Goal(fuel, w, s, h, f, tail, from, o, n, w1, h1) && AtCode(h, start)
    requires from < |H.Top(h).irep.code| && H.Top(h).irep.code[from] == Jmp(to - from)
    ensures Goal(fuel, w, s, h, f, tail, to, o, m, w1, h2)
  {
    hide H.Run;
    hide ValRel;
    m, h2 := n, h1;
    if o.Ok? && !tail {
      h2 := h1.(ip := h1.ip.(pc := to));
      assert H.Step(h1) == H.Next(h2);
      m := RunThen(h, n, h1, h2);
      JumpMoved(w, s, h, f, Last(h1), from, w1, o.s, h1, to);
      hide H.Step;
      hide Moved;
    }
  }

  lemma JumpMoved(w: World, s: S.Store, h: H.State, f: nat, y: H.VVal, from: nat, w1: World, s1: S.Store,
                  h1: H.State, to: nat)
    requires Moved(w, s, h, f, [y], from, w1, s1, h1)
    ensures Moved(w, s, h, f, [y], to, w1, s1, h1.(ip := h1.ip.(pc := to)))
      && Last(h1.(ip := h1.ip.(pc := to))) == Last(h1)
  {
    hide Keeps;
  }

  // ---------- calls, continued ----------

  /** Calling anything but a closure answers, or fails, at once. */
  lemma ApplyNative(w: World, s: S.Store, h: H.State, v: S.SVal, vs: seq<S.SVal>, x: H.VVal, xs: seq<H.VVal>, fuel: nat)
    returns (h1: H.State)
    requires Base(w, s, h) && h.frames != [] && ValRel(w, v, x) && ValsRel(w, vs, xs) && !v.Proc?
    ensures Applied(fuel, w, s, h, S.ApplyProc(v, vs, s, fuel), 0, H.EnterProc(h, [x] + xs), w, h1)
  {
    hide H.Run;
    hide Builtins.Apply;
    hide Keeps;
    h1 := h;
    assert ([x] + xs)[1..] == xs;
    KeepsRefl(w, s, {});
    if v.Builtin? {
      ApplyRel(w, v.p, vs, xs);
      var r := Builtins.Apply(v.p, xs);
      if r.Some? {
        h1 := H.Advance(H.WithTop(h, H.Top(h).(temps := H.Top(h).temps + [r.value])), 1);
        H.RunNone(h1);
      }
    }
  }

  lemma ApplyArity(w: World, s: S.Store, h: H.State, v: S.SVal, vs: seq<S.SVal>, x: H.VVal, xs: seq<H.VVal>, fuel: nat)
    requires h.frames != [] && ValRel(w, v, x) && ValsRel(w, vs, xs) && v.Proc?
    requires !S.ArityOk(|v.closure.lam.params|, v.closure.lam.rest.Some?, |vs|)
    ensures Applied(fuel, w, s, h, S.ApplyProc(v, vs, s, fuel), 0, H.EnterProc(h, [x] + xs), w, h)
  {
    var a := CompiledShape(w.scopes[v.closure.env], v.closure.lam, x.closure.irep);
  }

  lemma {:induction false} SimApply(w: World, s: S.Store, h: H.State, v: S.SVal, vs: seq<S.SVal>, x: H.VVal,
                                    xs: seq<H.VVal>, fuel: nat)
    returns (n: nat, w1: World, h1: H.State)
    requires Base(w, s, h) && h.frames != [] && ValRel(w, v, x) && ValsRel(w, vs, xs)
    ensures Applied(fuel, w, s, h, S.ApplyProc(v, vs, s, fuel), n, H.EnterProc(h, [x] + xs), w1, h1)
    decreases fuel, 0
  {
    hide *;
    n, w1, h1 := 0, w, h;
    if !v.Proc? {
      h1 := ApplyNative(w, s, h, v, vs, x, xs, fuel);
    } else {
      ProcShape(w, v, x);
      var lam := v.closure.lam;
      if !S.ArityOk(|lam.params|, lam.rest.Some?, |vs|) {
        ApplyArity(w, s, h, v, vs, x, xs, fuel);
      } else if fuel == 0 {
        ApplyTimeout(w, s, h, v, vs, x, xs);
      } else {
        var env := v.closure.env;
        var a, t0, w0, n0, h0 := EnterClosure(w, s, h, lam, env, vs, x, xs);
        var s0 := s.(frames := s.frames + [S.NewFrame(lam, env, vs)]);
        var n1;
        ReadyParts(w0, s0, h0, |s.frames|, lam.body, a, true, t0);
        n1, w1, h1 := Sim(w0, s0, h0, |s.frames|, lam.body, a, true, t0, fuel - 1);
        var o := S.Eval(lam.body, |s.frames|, s0, fuel - 1);
        ApplyUnfold(v, vs, s, fuel);
        FinishApply(fuel, w, s, h, w0, s0, h0, |s.frames|, |C.Gen(w0.scopes[|s.frames|], a, true, t0).value.code|, o,
                    H.EnterProc(h, [x] + xs), n0, n1, w1, h1);
        n := n0 + n1;
      }
    }
  }

  lemma ProcShape(w: World, v: S.SVal, x: H.VVal)
    requires v.Proc? && ValRel(w, v, x)
    ensures v.closure.lam.Lambda? && v == Proc(S.Closure(v.closure.lam, v.closure.env))
  {
  }

  lemma ApplyTimeout(w: World, s: S.Store, h: H.State, v: S.SVal, vs: seq<S.SVal>, x: H.VVal, xs: seq<H.VVal>)
    requires h.frames != [] && ValRel(w, v, x) && ValsRel(w, vs, xs)
    requires v.Proc? && v.closure.lam.Lambda? && S.ArityOk(|v.closure.lam.params|, v.closure.lam.rest.Some?, |vs|)
    ensures Applied(0, w, s, h, S.ApplyProc(v, vs, s, 0), 0, H.EnterProc(h, [x] + xs), w, h)
  {
    var a := CompiledShape(w.scopes[v.closure.env], v.closure.lam, x.closure.irep);
    var h0 := EnteredState(h, x, xs);
    H.RunNone(h0);
    hide H.EnterProc;
  }

  lemma ApplyUnfold(v: S.SVal, vs: seq<S.SVal>, s: S.Store, fuel: nat)
    requires v.Proc? && v.closure.lam.Lambda? && S.ArityOk(|v.closure.lam.params|, v.closure.lam.rest.Some?, |vs|)
    requires fuel > 0
    ensures S.ApplyProc(v, vs, s, fuel) ==
            S.Eval(v.closure.lam.body, |s.frames|,
                   s.(frames := s.frames + [S.NewFrame(v.closure.lam, v.closure.env, vs)]), fuel - 1)
  {
    hide S.Eval;
  }

  /** The body's return is the answer to the call. */
  lemma FinishApply(fuel: nat, w: World, s: S.Store, h: H.State, w0: World, s0: S.Store, h0: H.State, f: nat, k: nat,
                    o: S.Outcome, start: H.Outcome, n0: nat, n1: nat, w1: World, h1: H.State)
    requires Base(w, s, h) && h.frames != [] && Ext(w, w0) && Keeps(w, s, w0, s0, {}) && f == |s.frames|
    requires Inv(w0, s0, h0, f) && H.Continue(start, n0) == H.Next(h0)
    requires h0.frames[..|h0.frames| - 1] == h.frames && H.Top(h0).ret == h.ip
    requires fuel > 0 && Goal(fuel - 1, w0, s0, h0, f, true, k, o, n1, w1, h1)
    ensures Applied(fuel, w, s, h, o, n0 + n1, start, w1, h1)
  {
    hide H.Continue;
    hide H.Run;
    hide Keeps;
    hide FramesOk;
    hide ContextsOk;
    hide GlobalsRel;
    hide TopOk;
    hide ValRel;
    H.ContinueTrans(start, n0, h0, n1);
    if o.Ok? {
      KeepsCallee(w, s, w0, s0, w1, o.s, f);
    }
  }

  /** After `n` steps the arguments `xs` are on the stack, or their evaluation failed. */
  ghost predicate ArgsGoal(fuel: nat, w: World, s: S.Store, h: H.State, f: nat, pc: nat, o: S.ArgsOutcome,
                           n: nat, w1: World, h1: H.State, xs: seq<H.VVal>)
  {
    match o
    case ArgsTimeout => n >= fuel && H.Run(h, n).Next?
    case ArgsError => H.Run(h, n) == H.Fault
    case ArgsOk(vs, s1) => H.Run(h, n) == H.Next(h1) && Moved(w, s, h, f, xs, pc, w1, s1, h1) && ValsRel(w1, vs, xs)
  }

  lemma {:induction false} SimList(w: World, s: S.Store, h: H.State, f: nat, es: seq<Expr>, as': seq<AExpr>,
                                   t: C.Tables, fuel: nat)
    returns (n: nat, w1: World, h1: H.State, xs: seq<H.VVal>)
    requires f < |w.scopes| && h.frames != [] && Inv(w, s, h, f) && AtCode(h, |t.code|)
    requires A.AddressedList(w.scopes[f], es, as') && C.GenList(w.scopes[f], as', t).Some?
    requires CodeAt(H.Top(h).irep, |t.code|, C.GenList(w.scopes[f], as', t).value)
    ensures ArgsGoal(fuel, w, s, h, f, |C.GenList(w.scopes[f], as', t).value.code|,
                     S.EvalArgs(es, f, s, fuel), n, w1, h1, xs)
    decreases fuel, 1, es, 4
  {
    hide *;
    n, w1, h1, xs := 0, w, h, [];
    if es == [] {
      EmptyArgs(w, s, h, f, as', t, fuel);
    } else {
      var sc := w.scopes[f];
      ListParts(sc, es, as', t, H.Top(h).irep, f, s, fuel);
      var t1 := C.Gen(sc, as'[0], false, t).value;
      var t2 := C.GenList(sc, as', t).value;
      ReadyAgain(w, s, h, f, sc, es[0], as'[0], false, t, t1);
      n, w1, h1 := Sim(w, s, h, f, es[0], as'[0], false, t, fuel);
      var o1 := S.Eval(es[0], f, s, fuel);
      if o1.Ok? {
        GoalMoved(fuel, w, s, h, f, |t1.code|, o1, n, w1, h1);
        AtSomeCode(h, |t.code|);
        MovedCode(w, s, h, f, [Last(h1)], |t1.code|, w1, o1.s, h1);
        var m, w2, h2, ys := SimList(w1, o1.s, h1, f, es[1..], as'[1..], t1, fuel);
        ArgsCompose(fuel, w, s, h, f, |t1.code|, o1, n, w1, h1, |t2.code|,
                    S.EvalArgs(es[1..], f, o1.s, fuel), m, w2, h2, ys,
                    S.EvalArgs(es, f, s, fuel));
        n, w1, h1, xs := n + m, w2, h2, [Last(h1)] + ys;
      } else {
        ArgsFailed(fuel, w, s, h, f, |t1.code|, o1, n, w1, h1, |t2.code|, S.EvalArgs(es, f, s, fuel), xs);
      }
    }
  }

  lemma AtSomeCode(h: H.State, pc: int)
    requires AtCode(h, pc)
    ensures AtCode(h, h.ip.pc) && h.ip.pc == pc
  {
  }

  lemma EmptyArgs(w: World, s: S.Store, h: H.State, f: nat, as': seq<AExpr>, t: C.Tables, fuel: nat)
    requires Inv(w, s, h, f) && A.AddressedList(w.scopes[f], [], as') && AtCode(h, |t.code|)
    ensures C.GenList(w.scopes[f], as', t) == Some(t)
    ensures ArgsGoal(fuel, w, s, h, f, |t.code|, S.EvalArgs([], f, s, fuel), 0, w, h, [])
  {
    hide H.Run;
    hide Moved;
    hide Inv;
    MovedRefl(w, s, h, f, |t.code|);
    H.RunNone(h);
  }

  lemma ListParts(sc: Scope, es: seq<Expr>, as': seq<AExpr>, t: C.Tables, ir: Irep, f: nat, s: S.Store, fuel: nat)
    requires es != [] && A.AddressedList(sc, es, as') && C.GenList(sc, as', t).Some?
    requires CodeAt(ir, |t.code|, C.GenList(sc, as', t).value)
    ensures |as'| == |es| && A.Addressed(sc, es[0], as'[0]) && A.AddressedList(sc, es[1..], as'[1..])
    ensures C.Gen(sc, as'[0], false, t).Some? && CodeAt(ir, |t.code|, C.Gen(sc, as'[0], false, t).value)
    ensures var t1 := C.Gen(sc, as'[0], false, t).value;
            && C.GenList(sc, as'[1..], t1) == C.GenList(sc, as', t)
            && CodeAt(ir, |t1.code|, C.GenList(sc, as'[1..], t1).value)
    ensures S.EvalArgs(es, f, s, fuel) ==
            match S.Eval(es[0], f, s, fuel)
            case Ok(v, s1) =>
              (match S.EvalArgs(es[1..], f, s1, fuel)
               case ArgsOk(vs, s2) => S.ArgsOk([v] + vs, s2)
               case o => o)
            case Error => S.ArgsError
            case Timeout => S.ArgsTimeout
  {
    hide A.Addressed;
    hide C.Gen;
    hide S.Eval;
    C.GenListExtends(sc, as'[1..], C.Gen(sc, as'[0], false, t).value);
  }

  lemma ArgsFailed(fuel: nat, w: World, s: S.Store, h: H.State, f: nat, pc: nat, o: S.Outcome,
                   n: nat, w1: World, h1: H.State, pc2: nat, o2: S.ArgsOutcome, xs: seq<H.VVal>)
    requires !o.Ok? && Goal(fuel, w, s, h, f, false, pc, o, n, w1, h1)
    requires o2 == if o.Error? then S.ArgsError else S.ArgsTimeout
    ensures ArgsGoal(fuel, w, s, h, f, pc2, o2, n, w1, h1, xs)
  {
    hide H.Run;
  }

  lemma ArgsCompose(fuel: nat, w: World, s: S.Store, h: H.State, f: nat, pc: nat, o: S.Outcome,
                    n: nat, w1: World, h1: H.State,
                    pc2: nat, o2: S.ArgsOutcome, m: nat, w2: World, h2: H.State, ys: seq<H.VVal>, o3: S.ArgsOutcome)
    requires Inv(w, s, h, f) && o.Ok? && Goal(fuel, w, s, h, f, false, pc, o, n, w1, h1)
    requires ArgsGoal(fuel, w1, o.s, h1, f, pc2, o2, m, w2, h2, ys)
    requires o3 == if o2.ArgsOk? then S.ArgsOk([o.v] + o2.vs, o2.s) else o2
    ensures ArgsGoal(fuel, w, s, h, f, pc2, o3, n + m, w2, h2, [Last(h1)] + ys)
  {
    hide H.Run;
    hide Inv;
    hide ValRel;
    H.RunTrans(h, n, h1, m);
    if o2.ArgsOk? {
      MovedTrans(w, s, h, f, [Last(h1)], pc, w1, o.s, h1, ys, pc2, w2, o2.s, h2);
      ValRelExt(w1, w2, o.v, Last(h1)) by { assert Ext(w1, w2); }
    }
    hide Moved;
  }

  // ---------- inlined procedures ----------

  lemma {:induction false} SimInlined(w: World, s: S.Store, h: H.State, f: nat, e: Expr, a: AExpr,
                                      t: C.Tables, fuel: nat)
    returns (n: nat, w1: World, h1: H.State)
    requires Ready(w, s, h, f, e, a, false, t) && e.Call? && a.ACall? && C.Inlined(a.fn, |a.args|).Some?
    ensures Goal(fuel, w, s, h, f, false, |C.Gen(w.scopes[f], a, false, t).value.code|,
                 S.Eval(e, f, s, fuel), n, w1, h1)
    decreases fuel, 1, e, 0
  {
    hide *;
    ReadyParts(w, s, h, f, e, a, false, t);
    var p := C.Inlined(a.fn, |a.args|).value;
    InlinedParts(w, s, h, f, e, a, t, p, fuel);
    var t1 := C.GenList(w.scopes[f], a.args, t).value;
    var xs;
    n, w1, h1, xs := SimList(w, s, h, f, e.args, a.args, t, fuel);
    n, h1 := FinishInlined(w, s, h, f, p, |t1.code|, S.EvalArgs(e.args, f, s, fuel), n, w1, h1, xs, fuel);
  }

  /** An inlined call: its arguments, then one instruction; and what it means. */
  lemma InlinedParts(w: World, s: S.Store, h: H.State, f: nat, e: Expr, a: AExpr, t: C.Tables, p: Prim, fuel: nat)
    requires Inv(w, s, h, f) && A.Addressed(w.scopes[f], e, a) && C.Gen(w.scopes[f], a, false, t).Some?
    requires e.Call? && a.ACall? && C.Inlined(a.fn, |a.args|) == Some(p)
    requires CodeAt(H.Top(h).irep, |t.code|, C.Gen(w.scopes[f], a, false, t).value)
    ensures A.AddressedList(w.scopes[f], e.args, a.args) && C.GenList(w.scopes[f], a.args, t).Some?
    ensures var t1 := C.GenList(w.scopes[f], a.args, t).value;
            && CodeAt(H.Top(h).irep, |t.code|, t1) && |t1.code| < |H.Top(h).irep.code|
            && H.Top(h).irep.code[|t1.code|] == PrimI(p)
            && |C.Gen(w.scopes[f], a, false, t).value.code| == |t1.code| + 1
    ensures |e.args| == Builtins.InlineArity(p)
    ensures S.Eval(e, f, s, fuel) ==
            match S.EvalArgs(e.args, f, s, fuel)
            case ArgsOk(vs, s2) => S.ApplyProc(Builtin(p), vs, s2, fuel)
            case ArgsError => S.Error
            case ArgsTimeout => S.Timeout
  {
    hide C.GenList, S.EvalArgs, S.ApplyProc, A.AddressedList, Inv, ValRel;
    var x := a.fn.ref.x;
    assert e.fn == Var(x);
    InvParts(w, s, h, f, x);
    V.FindFrameDistance(w, s.frames, h.cxts, f, x);
    C.GenListExtends(w.scopes[f], a.args, t);
    AddressedLength(w.scopes[f], e.args, a.args);
    assert S.Lookup(s, f, x) == Some(Builtin(p));
    assert S.Eval(e.fn, f, s, fuel) == S.Ok(Builtin(p), s);
  }

  lemma {:induction false} AddressedLength(sc: Scope, es: seq<Expr>, as': seq<AExpr>)
    requires A.AddressedList(sc, es, as')
    ensures |es| == |as'|
  {
  }

  lemma PrimStep(w: World, s: S.Store, h: H.State, f: nat, p: Prim, xs: seq<H.VVal>, pc: nat, w1: World,
                 s1: S.Store, h1: H.State)
    requires Moved(w, s, h, f, xs, pc, w1, s1, h1) && AtCode(h, h.ip.pc) && |xs| == Builtins.InlineArity(p)
    requires pc < |H.Top(h).irep.code| && H.Top(h).irep.code[pc] == PrimI(p)
    ensures match Builtins.Execute(p, xs)
            case Some(r) => H.Step(h1) == H.Next(WithTemps(h1, H.Top(h).temps + [r], pc + 1))
            case None => H.Step(h1) == H.Fault
  {
    hide Keeps;
    hide Inv;
    hide Builtins.Execute;
    assert H.Step(h1) == H.DoPrim(h1, p);
    assert H.Operands(H.Top(h1), |xs|) == xs;
    assert H.Drop(H.Top(h1), |xs|).temps == H.Top(h).temps;
    hide H.Step;
  }

  lemma ReplaceMoved(w: World, s: S.Store, h: H.State, f: nat, xs: seq<H.VVal>, pc: nat, w1: World, s1: S.Store,
                     h1: H.State, y: H.VVal)
    requires Moved(w, s, h, f, xs, pc, w1, s1, h1)
    ensures var h2 := WithTemps(h1, H.Top(h).temps + [y], pc + 1);
            Moved(w, s, h, f, [y], pc + 1, w1, s1, h2) && Last(h2) == y
  {
    TempsInv(w1, s1, h1, f, H.Top(h).temps + [y], pc + 1);
    hide Keeps;
    hide Inv;
  }

  lemma FinishInlined(w: World, s: S.Store, h: H.State, f: nat, p: Prim, pc: nat, o: S.ArgsOutcome,
                      n: nat, w1: World, h1: H.State, xs: seq<H.VVal>, fuel: nat) returns (m: nat, h2: H.State)
    requires Inv(w, s, h, f) && AtCode(h, h.ip.pc) && ArgsGoal(fuel, w, s, h, f, pc, o, n, w1, h1, xs)
    requires o.ArgsOk? ==> |o.vs| == Builtins.InlineArity(p)
    requires pc < |H.Top(h).irep.code| && H.Top(h).irep.code[pc] == PrimI(p)
    ensures var o1 := match o
                      case ArgsOk(vs, s2) => S.ApplyProc(Builtin(p), vs, s2, fuel)
                      case ArgsError => S.Error
                      case ArgsTimeout => S.Timeout;
            Goal(fuel, w, s, h, f, false, pc + 1, o1, m, w1, h2)
  {
    hide *;
    m, h2 := n, h1;
    if o.ArgsOk? {
      ArgsMoved(fuel, w, s, h, f, pc, o, n, w1, h1, xs);
      h2 := InlinedStep(w, s, h, f, p, pc, o.vs, n, w1, o.s, h1, xs, fuel);
      m := n + 1;
      H.RunTrans(h, n, h1, 1);
      H.RunOne(h1);
      var o1 := S.ApplyProc(Builtin(p), o.vs, o.s, fuel);
      if o1.Ok? {
        GoalPlain(fuel, w, s, h, f, pc + 1, o1, m, w1, h2);
      } else {
        GoalNone(fuel, w, s, h, f, false, pc + 1, o1, m, w1, h2);
      }
    } else {
      ArgsNone(fuel, w, s, h, f, pc, o, n, w1, h1, xs, pc + 1);
    }
  }

  lemma ArgsMoved(fuel: nat, w: World, s: S.Store, h: H.State, f: nat, pc: nat, o: S.ArgsOutcome, n: nat, w1: World,
                  h1: H.State, xs: seq<H.VVal>)
    requires o.ArgsOk? && ArgsGoal(fuel, w, s, h, f, pc, o, n, w1, h1, xs)
    ensures H.Run(h, n) == H.Next(h1) && Moved(w, s, h, f, xs, pc, w1, o.s, h1) && ValsRel(w1, o.vs, xs)
      && |xs| == |o.vs|
    ensures h.frames != [] && h1.frames != []
  {
    hide H.Run;
    hide Keeps;
  }

  lemma ArgsNone(fuel: nat, w: World, s: S.Store, h: H.State, f: nat, pc: nat, o: S.ArgsOutcome, n: nat, w1: World,
                 h1: H.State, xs: seq<H.VVal>, k: nat)
    requires !o.ArgsOk? && ArgsGoal(fuel, w, s, h, f, pc, o, n, w1, h1, xs)
    ensures Goal(fuel, w, s, h, f, false, k, if o.ArgsError? then S.Error else S.Timeout, n, w1, h1)
  {
    hide H.Run;
  }

  lemma InlinedStep(w: World, s: S.Store, h: H.State, f: nat, p: Prim, pc: nat, vs: seq<S.SVal>,
                    n: nat, w1: World, s1: S.Store, h1: H.State, xs: seq<H.VVal>, fuel: nat) returns (h2: H.State)
    requires Inv(w, s, h, f) && AtCode(h, h.ip.pc) && Moved(w, s, h, f, xs, pc, w1, s1, h1) && ValsRel(w1, vs, xs)
    requires |xs| == Builtins.InlineArity(p) && h.frames != [] && h1.frames != []
    requires pc < |H.Top(h).irep.code| && H.Top(h).irep.code[pc] == PrimI(p)
    ensures var o := S.ApplyProc(Builtin(p), vs, s1, fuel);
            && (o.Ok? ==> o.s == s1 && H.Step(h1) == H.Next(h2) && Moved(w, s, h, f, [Last(h2)], pc + 1, w1, s1, h2)
                          && ValRel(w1, o.v, Last(h2)))
            && (!o.Ok? ==> o.Error? && H.Step(h1) == H.Fault)
  {
    hide *;
    h2 := h1;
    NativeRel(w1, p, vs, xs, s1, fuel);
    PrimStep(w, s, h, f, p, xs, pc, w1, s1, h1);
    var r := Builtins.Execute(p, xs);
    if r.Some? {
      h2 := WithTemps(h1, H.Top(h).temps + [r.value], pc + 1);
      ReplaceMoved(w, s, h, f, xs, pc, w1, s1, h1, r.value);
    }
  }

  /** The instruction computes what calling the native procedure means. */
  lemma NativeRel(w: World, p: Prim, vs: seq<S.SVal>, xs: seq<H.VVal>, s: S.Store, fuel: nat)
    requires ValsRel(w, vs, xs) && |xs| == Builtins.InlineArity(p)
    ensures var r, o := Builtins.Execute(p, xs), S.ApplyProc(Builtin(p), vs, s, fuel);
            && (r.Some? ==> o.Ok? && o.s == s && ValRel(w, o.v, r.value))
            && (r.None? ==> o.Error?)
  {
    ApplyRel(w, p, vs, xs);
    Builtins.ExecuteIsApply(p, xs);
    hide Builtins.Execute;
    hide Builtins.Apply;
    hide ValRel;
  }

  // ---------- ordinary and tail calls ----------

  lemma {:induction false} SimCall(w: World, s: S.Store, h: H.State, f: nat, e: Expr, a: AExpr, tail: bool,
                                   t: C.Tables, fuel: nat)
    returns (n: nat, w1: World, h1: H.State)
    requires Ready(w, s, h, f, e, a, tail, t) && e.Call?
    ensures Goal(fuel, w, s, h, f, tail, |C.Gen(w.scopes[f], a, tail, t).value.code|, S.Eval(e, f, s, fuel), n, w1, h1)
    decreases fuel, 1, e, 2
  {
    hide *;
    ReadyParts(w, s, h, f, e, a, tail, t);
    AddressedCall(w.scopes[f], e, a);
    if C.Inlined(a.fn, |a.args|).Some? {
      IsFinished(e, a);
      n, w1, h1 := SimFinished(w, s, h, f, e, a, tail, t, fuel);
    } else {
      var sc := w.scopes[f];
      var k := |C.Gen(sc, a, tail, t).value.code|;
      var t1, t2 := CallParts(sc, a, tail, t, H.Top(h).irep);
      EvalCall(e, f, s, fuel);
      ReadyAgain(w, s, h, f, sc, e.fn, a.fn, false, t, t1);
      n, w1, h1 := Sim(w, s, h, f, e.fn, a.fn, false, t, fuel);
      var o1 := S.Eval(e.fn, f, s, fuel);
      if !o1.Ok? {
        GoalFailed(fuel, w, s, h, f, false, |t1.code|, tail, k, o1, n, w1, h1);
      } else {
        GoalMoved(fuel, w, s, h, f, |t1.code|, o1, n, w1, h1);
        MovedCode(w, s, h, f, [Last(h1)], |t1.code|, w1, o1.s, h1);
        var m, w2, h2, xs := SimList(w1, o1.s, h1, f, e.args, a.args, t1, fuel);
        var o2 := S.EvalArgs(e.args, f, o1.s, fuel);
        if !o2.ArgsOk? {
          CallFailed(fuel, w, s, h, f, |t2.code|, tail, k, n, w1, o1.s, h1, o2, m, w2, h2, xs, S.Eval(e, f, s, fuel));
          n, w1, h1 := n + m, w2, h2;
        } else {
          var x := Last(h1);
          CallMoved(fuel, w, s, h, f, |t1.code|, n, w1, o1.s, h1, o1.v, |t2.code|, o2, m, w2, h2, xs);
          var h3 := if tail then CallerOf(h2) else WithTemps(h2, H.Top(h).temps, |t2.code|);
          CallStep(w, s, h, f, x, xs, |t2.code|, w2, o2.s, h2, tail);
          var k2, w3, h4 := SimApply(w2, o2.s, h3, o1.v, o2.vs, x, xs, fuel);
          FinishCall(fuel, w, s, h, f, x, xs, |t2.code|, n + m, w2, o2.s, h2, tail, k,
                     S.Eval(e, f, s, fuel), k2, w3, h4);
          n, w1, h1 := n + m + (k2 + 1), w3, h4;
        }
      }
    }
  }

  lemma AddressedCall(sc: Scope, e: Expr, a: AExpr)
    requires e.Call? && A.Addressed(sc, e, a)
    ensures a.ACall? && A.Addressed(sc, e.fn, a.fn) && A.AddressedList(sc, e.args, a.args) && |e.args| == |a.args|
  {
    AddressedLength(sc, e.args, a.args);
  }

  lemma IsFinished(e: Expr, a: AExpr)
    requires e.Call? && a.ACall? && C.Inlined(a.fn, |a.args|).Some?
    ensures Finished(e, a)
  {
  }

  lemma CallParts(sc: Scope, a: AExpr, tail: bool, t: C.Tables, ir: Irep) returns (t1: C.Tables, t2: C.Tables)
    requires a.ACall? && C.Inlined(a.fn, |a.args|).None? && C.Gen(sc, a, tail, t).Some?
    requires CodeAt(ir, |t.code|, C.Gen(sc, a, tail, t).value)
    ensures C.Gen(sc, a.fn, false, t) == Some(t1) && CodeAt(ir, |t.code|, t1)
    ensures C.GenList(sc, a.args, t1) == Some(t2) && CodeAt(ir, |t1.code|, t2) && |t2.code| < |ir.code|
    ensures ir.code[|t2.code|] == if tail then TailCallI(|a.args| + 1) else CallI(|a.args| + 1)
    ensures |C.Gen(sc, a, tail, t).value.code| == |t2.code| + 1
  {
    t1 := C.Gen(sc, a.fn, false, t).value;
    t2 := C.GenList(sc, a.args, t1).value;
    C.GenExtends(sc, a.fn, false, t);
    C.GenListExtends(sc, a.args, t1);
    hide C.GenList;
    hide C.Inlined;
  }

  lemma EvalCall(e: Expr, f: nat, s: S.Store, fuel: nat)
    requires e.Call?
    ensures S.Eval(e, f, s, fuel) ==
            match S.Eval(e.fn, f, s, fuel)
            case Ok(v, s1) =>
              (match S.EvalArgs(e.args, f, s1, fuel)
               case ArgsOk(vs, s2) => S.ApplyProc(v, vs, s2, fuel)
               case ArgsError => S.Error
               case ArgsTimeout => S.Timeout)
            case o => o
    ensures forall s1 :: S.EvalArgs(e.args, f, s1, fuel).ArgsOk? ==> |S.EvalArgs(e.args, f, s1, fuel).vs| == |e.args|
  {
    hide S.EvalArgs;
    hide S.ApplyProc;
  }

  lemma CallFailed(fuel: nat, w: World, s: S.Store, h: H.State, f: nat, pc: nat, tail: bool, k: nat, n: nat, w1: World,
                   s1: S.Store, h1: H.State,
                   o2: S.ArgsOutcome, m: nat, w2: World, h2: H.State, xs: seq<H.VVal>, o: S.Outcome)
    requires H.Run(h, n) == H.Next(h1) && !o2.ArgsOk? && ArgsGoal(fuel, w1, s1, h1, f, pc, o2, m, w2, h2, xs)
    requires o == if o2.ArgsError? then S.Error else S.Timeout
    ensures Goal(fuel, w, s, h, f, tail, k, o, n + m, w2, h2)
  {
    hide H.Run;
    H.RunTrans(h, n, h1, m);
  }

  /** The procedure and its arguments are on the stack. */
  lemma CallMoved(fuel: nat, w: World, s: S.Store, h: H.State, f: nat, pc: nat, n: nat, w1: World, s1: S.Store,
                  h1: H.State, v: S.SVal, pc2: nat, o2: S.ArgsOutcome, m: nat, w2: World, h2: H.State, xs: seq<H.VVal>)
    requires Inv(w, s, h, f) && Moved(w, s, h, f, [Last(h1)], pc, w1, s1, h1) && H.Run(h, n) == H.Next(h1)
    requires ValRel(w1, v, Last(h1)) && o2.ArgsOk? && ArgsGoal(fuel, w1, s1, h1, f, pc2, o2, m, w2, h2, xs)
    ensures H.Run(h, n + m) == H.Next(h2) && Moved(w, s, h, f, [Last(h1)] + xs, pc2, w2, o2.s, h2)
    ensures ValRel(w2, v, Last(h1)) && ValsRel(w2, o2.vs, xs) && Base(w2, o2.s, h2)
    ensures h2.frames != [] && |xs| == |o2.vs|
  {
    hide H.Run;
    hide ValRel;
    H.RunTrans(h, n, h1, m);
    MovedTrans(w, s, h, f, [Last(h1)], pc, w1, s1, h1, xs, pc2, w2, o2.s, h2);
    ValRelExt(w1, w2, v, Last(h1)) by { assert Ext(w1, w2); }
    hide Moved;
    hide Inv;
  }

  /** The state of the caller when the top frame is given up. */
  function CallerOf(h: H.State): H.State {
    if h.frames == [] then h else h.(frames := h.frames[..|h.frames| - 1], ip := H.Top(h).ret)
  }

  /** A call instruction enters the procedure on behalf of this frame, or of its caller. */
  lemma CallStep(w: World, s: S.Store, h: H.State, f: nat, x: H.VVal, xs: seq<H.VVal>, pc: nat,
                 w1: World, s1: S.Store, h1: H.State, tail: bool)
    requires Moved(w, s, h, f, [x] + xs, pc, w1, s1, h1) && AtCode(h, h.ip.pc)
    requires pc < |H.Top(h).irep.code| && (tail ==> |h.frames| >= 2)
    requires H.Top(h).irep.code[pc] == if tail then TailCallI(|xs| + 1) else CallI(|xs| + 1)
    ensures h1.frames != []
    ensures var h2 := if tail then CallerOf(h1) else WithTemps(h1, H.Top(h).temps, pc);
            h2.frames != [] && Base(w1, s1, h2) && H.Step(h1) == H.EnterProc(h2, [x] + xs)
  {
    hide H.EnterProc;
    hide Keeps;
    hide FramesOk;
    hide ContextsOk;
    hide GlobalsRel;
    hide TopOk;
    assert H.Operands(H.Top(h1), |xs| + 1) == [x] + xs;
    assert H.Drop(H.Top(h1), |xs| + 1).temps == H.Top(h).temps;
    assert H.Step(h1) == if tail then H.DoTailCall(h1, |xs| + 1) else H.DoCall(h1, |xs| + 1);
    hide H.Step;
  }

  lemma FinishCall(fuel: nat, w: World, s: S.Store, h: H.State, f: nat, x: H.VVal, xs: seq<H.VVal>, pc: nat, n: nat,
                   w1: World, s1: S.Store, h1: H.State, tail: bool, k: nat, o: S.Outcome,
                   m: nat, w2: World, h2: H.State)
    requires Inv(w, s, h, f) && H.Run(h, n) == H.Next(h1) && Moved(w, s, h, f, [x] + xs, pc, w1, s1, h1)
    requires (tail ==> |h.frames| >= 2) && (!tail ==> k == pc + 1)
    requires h1.frames != [] && h.frames != []
    requires var h3 := if tail then CallerOf(h1) else WithTemps(h1, H.Top(h).temps, pc);
             && H.Step(h1) == H.EnterProc(h3, [x] + xs)
             && Applied(fuel, w1, s1, h3, o, m, H.EnterProc(h3, [x] + xs), w2, h2)
    ensures Goal(fuel, w, s, h, f, tail, k, o, n + (m + 1), w2, h2)
  {
    hide *;
    H.RunTrans(h, n, h1, m + 1);
    H.RunContinue(h1, m);
    var h3 := if tail then CallerOf(h1) else WithTemps(h1, H.Top(h).temps, pc);
    AppliedGoal(fuel, w1, s1, h3, o, m, H.Step(h1), w2, h2, H.Run(h, n + (m + 1)));
    if o.Ok? {
      if tail {
        AppliedReturned(fuel, w, s, h, f, x, xs, pc, w1, s1, h1, o, m, w2, h2);
        GoalTail(fuel, w, s, h, f, k, o, n + (m + 1), w2, h2);
      } else {
        AppliedMoved(fuel, w, s, h, f, x, xs, pc, w1, s1, h1, o, m, w2, h2);
        GoalPlain(fuel, w, s, h, f, k, o, n + (m + 1), w2, h2);
      }
    } else {
      GoalNone(fuel, w, s, h, f, tail, k, o, n + (m + 1), w2, h2);
    }
  }

  lemma AppliedGoal(fuel: nat, w: World, s: S.Store, h: H.State, o: S.Outcome, n: nat, start: H.Outcome, w1: World,
                    h1: H.State, r: H.Outcome)
    requires Applied(fuel, w, s, h, o, n, start, w1, h1) && r == H.Continue(start, n)
    ensures o.Error? ==> r == H.Fault
    ensures o.Ok? ==> r == H.Next(h1)
    ensures o.Timeout? ==> n + 1 >= fuel && r.Next?
  {
    hide H.Continue;
  }

  lemma GoalTail(fuel: nat, w: World, s: S.Store, h: H.State, f: nat, k: nat, o: S.Outcome,
                 n: nat, w1: World, h1: H.State)
    requires o.Ok? && H.Run(h, n) == H.Next(h1) && Returned(w, s, h, f, o.v, w1, o.s, h1)
    ensures Goal(fuel, w, s, h, f, true, k, o, n, w1, h1)
  {
    hide H.Run;
  }

  lemma GoalPlain(fuel: nat, w: World, s: S.Store, h: H.State, f: nat, k: nat, o: S.Outcome,
                  n: nat, w1: World, h1: H.State)
    requires o.Ok? && H.Run(h, n) == H.Next(h1) && Moved(w, s, h, f, [Last(h1)], k, w1, o.s, h1)
      && ValRel(w1, o.v, Last(h1))
    ensures Goal(fuel, w, s, h, f, false, k, o, n, w1, h1)
  {
    hide H.Run;
  }

  lemma GoalNone(fuel: nat, w: World, s: S.Store, h: H.State, f: nat, tail: bool, k: nat, o: S.Outcome, n: nat,
                 w1: World, h1: H.State)
    requires !o.Ok? && (o.Error? ==> H.Run(h, n) == H.Fault) && (o.Timeout? ==> n >= fuel && H.Run(h, n).Next?)
    ensures Goal(fuel, w, s, h, f, tail, k, o, n, w1, h1)
  {
    hide H.Run;
  }

  /** What a call on behalf of the caller answers is what the frame returns. */
  lemma AppliedReturned(fuel: nat, w: World, s: S.Store, h: H.State, f: nat, x: H.VVal, xs: seq<H.VVal>, pc: nat,
                        w1: World, s1: S.Store, h1: H.State, o: S.Outcome, m: nat, w2: World, h2: H.State)
    requires Inv(w, s, h, f) && Moved(w, s, h, f, [x] + xs, pc, w1, s1, h1) && |h.frames| >= 2 && o.Ok?
    requires Applied(fuel, w1, s1, CallerOf(h1), o, m, H.EnterProc(CallerOf(h1), [x] + xs), w2, h2)
    ensures Returned(w, s, h, f, o.v, w2, o.s, h2)
  {
    hide H.Continue;
    hide Keeps;
    hide Inv;
    hide Base;
    hide ValRel;
    assert |h1.frames| == |h.frames|;
    assert Keeps(w1, s1, w2, o.s, {f}) by { WeakenKeeps(w1, s1, w2, o.s, f); }
    MovedReturned(w, s, h, f, [x] + xs, pc, w1, s1, h1, o.v, w2, o.s, h2);
  }

  lemma WeakenKeeps(w: World, s: S.Store, w1: World, s1: S.Store, f: nat)
    requires Keeps(w, s, w1, s1, {})
    ensures Keeps(w, s, w1, s1, {f})
  {
  }

  /** What a call answers is the new operand of the frame that made it. */
  lemma AppliedMoved(fuel: nat, w: World, s: S.Store, h: H.State, f: nat, x: H.VVal, xs: seq<H.VVal>, pc: nat,
                     w1: World, s1: S.Store, h1: H.State, o: S.Outcome, m: nat, w2: World, h2: H.State)
    requires Inv(w, s, h, f) && Moved(w, s, h, f, [x] + xs, pc, w1, s1, h1) && o.Ok?
    requires var h3 := WithTemps(h1, H.Top(h).temps, pc);
             Applied(fuel, w1, s1, h3, o, m, H.EnterProc(h3, [x] + xs), w2, h2)
    ensures Moved(w, s, h, f, [Last(h2)], pc + 1, w2, o.s, h2) && ValRel(w2, o.v, Last(h2))
  {
    hide H.EnterProc;
    hide H.Run;
    hide Keeps;
    hide H.Continue;
    hide Inv;
    hide Base;
    hide ValRel;
    var h3 := WithTemps(h1, H.Top(h).temps, pc);
    DropAll(w, s, h, f, [x] + xs, pc, w1, s1, h1);
    AnsweredMoved(w1, s1, h3, f, pc, o.v, w2, o.s, h2) by {
    }
    MovedTrans(w, s, h, f, [], pc, w1, s1, h3, [Last(h2)], pc + 1, w2, o.s, h2);
    assert [] + [Last(h2)] == [Last(h2)];
    hide Moved;
  }

  lemma DropAll(w: World, s: S.Store, h: H.State, f: nat, xs: seq<H.VVal>, pc: nat, w1: World, s1: S.Store, h1: H.State)
    requires Moved(w, s, h, f, xs, pc, w1, s1, h1)
    ensures var h2 := WithTemps(h1, H.Top(h).temps, pc);
            Moved(w, s, h, f, [], pc, w1, s1, h2) && Inv(w1, s1, h2, f) && h2.ip.pc == pc
  {
    TempsInv(w1, s1, h1, f, H.Top(h).temps, pc);
    hide Keeps;
    hide Inv;
  }

  lemma AnsweredMoved(w: World, s: S.Store, h: H.State, f: nat, pc: nat, v: S.SVal, w1: World, s1: S.Store, h1: H.State)
    requires Inv(w, s, h, f) && h.ip.pc == pc && Ext(w, w1) && Keeps(w, s, w1, s1, {}) && Base(w1, s1, h1)
    requires Answered(w1, h, v, h1)
    ensures Moved(w, s, h, f, [Last(h1)], pc + 1, w1, s1, h1) && ValRel(w1, v, Last(h1))
  {
    hide Keeps;
    hide FramesOk;
    hide ContextsOk;
    hide GlobalsRel;
    hide ValRel;
    hide SlotsRel;
    hide CapturesRel;
    TopKept(w, s, w1, s1, f, H.Top(h));
    WeakenKeeps(w, s, w1, s1, f);
  }
}
