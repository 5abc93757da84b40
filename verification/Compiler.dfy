/** The whole pipeline: analyze, generate code, run it on the machine with lazy contexts. */
module Compiler {
  import opened Util
  import opened Syntax
  import opened Relation
  import Builtins
  import S = Source
  import A = Analyzer
  import C = Codegen
  import H = HeapMachine
  import L = LazyMachine
  import I = Instructions
  import Act = Activation
  import Sim = Simulation
  import Ctx = Contexts
  import Lock = Lockstep
  import Lazy = Refinement

  /** `pic_compile` after normalization. */
  function Compile(e: Expr): Option<Irep> {
    C.GenProgram(A.AnalyzeProgram(e))
  }

  // ---------- when compilation succeeds ----------

  /** No assignment to a free variable that names an inlined procedure. */
  predicate Assignable(s: Scope, e: Expr)
    decreases e, 1
  {
    match e
    case Quote(_) => true
    case Var(_) => true
    case Set(x, e1) => Assignable(s, e1) && (A.Distance(s, x).Some? || Builtins.InlineName(x).None?)
    case If(c, t, f) => Assignable(s, c) && Assignable(s, t) && Assignable(s, f)
    case Begin(e1, e2) => Assignable(s, e1) && Assignable(s, e2)
    case Lambda(ps, r, ls, body) => Assignable(Scope(ps, r, ls, [], Some(s)), body)
    case Call(fn, args) => Assignable(s, fn) && AssignableList(s, args)
  }

  predicate AssignableList(s: Scope, es: seq<Expr>)
    decreases es, 0
  {
    es == [] || (Assignable(s, es[0]) && AssignableList(s, es[1..]))
  }

  /** A reference that is addressed correctly has an index: the code generator never misses. */
  lemma RefHasIndex(s: Scope, x: Name, r: Ref, t: C.Tables)
    requires A.AddressedRef(s, x, r)
    ensures C.GenRef(s, r, t).Some?
    ensures C.GenStore(s, r, t).Some? <==> A.Distance(s, x).Some? || Builtins.InlineName(x).None?
  {
    if A.Distance(s, x).Some? { OuterBinds(s, x); }
  }

  lemma {:induction false} OuterBinds(s: Scope, x: Name)
    requires A.Distance(s, x).Some?
    ensures A.Outer(s, A.Distance(s, x).value).Some? && x in Names(A.Outer(s, A.Distance(s, x).value).value)
  {
    if x !in Names(s) { OuterBinds(s.up.value, x); }
  }

  /** Code generation fails exactly on assignments to inlined procedures. */
  lemma {:induction false} GenSucceeds(s: Scope, plain: Scope, e: Expr, a: AExpr, tail: bool, t: C.Tables)
    requires A.Addressed(s, e, a) && A.Grows(plain, s)
    ensures C.Gen(s, a, tail, t).Some? <==> Assignable(plain, e)
    decreases e, 2
  {
    match e
    case Quote(_) =>
    case Var(x) => RefHasIndex(s, x, a.ref, t);
    case Set(x, e1) =>
      GenSucceeds(s, plain, e1, a.e, false, t);
      A.GrowsDistance(plain, s, x);
      if C.Gen(s, a.e, false, t).Some? { RefHasIndex(s, x, a.ref, C.Gen(s, a.e, false, t).value); }
    case If(_, _, _) => GenIfSucceeds(s, plain, e, a, tail, t);
    case Begin(e1, e2) =>
      GenSucceeds(s, plain, e1, a.e1, false, t);
      if C.Gen(s, a.e1, false, t).Some? {
        GenSucceeds(s, plain, e2, a.e2, tail, C.Emit(C.Gen(s, a.e1, false, t).value, Pop));
      }
    case Lambda(ps, r, ls, body) =>
      var inner := Scope(ps, r, ls, a.captures, Some(s));
      GenSucceeds(inner, Scope(ps, r, ls, [], Some(plain)), body, a.body, true,
                  C.NO_TABLES.(code := C.ActivationCode(inner)));
    case Call(fn, args) =>
      GenSucceeds(s, plain, fn, a.fn, false, t);
      if C.Inlined(a.fn, |a.args|).Some? {
        GenListSucceeds(s, plain, args, a.args, t);
      } else if C.Gen(s, a.fn, false, t).Some? {
        GenListSucceeds(s, plain, args, a.args, C.Gen(s, a.fn, false, t).value);
      }
  }

  lemma {:induction false} GenIfSucceeds(s: Scope, plain: Scope, e: Expr, a: AExpr, tail: bool, t: C.Tables)
    requires e.If? && A.Addressed(s, e, a) && A.Grows(plain, s)
    ensures C.Gen(s, a, tail, t).Some? <==> Assignable(plain, e)
    decreases e, 1
  {
    hide *;
    IfParts(s, plain, e, a);
    IfSucceeds(s, a, tail, t);
    GenSucceeds(s, plain, e.c, a.c, false, t);
    var r1 := C.Gen(s, a.c, false, t);
    if r1.Some? {
      GenSucceeds(s, plain, e.f, a.f, tail, C.Emit(r1.value, JmpIf(0)));
      var r2 := C.Gen(s, a.f, tail, C.Emit(r1.value, JmpIf(0)));
      if r2.Some? { GenSucceeds(s, plain, e.t, a.t, tail, Jumping(r1.value, r2.value)); }
    }
  }

  lemma IfParts(s: Scope, plain: Scope, e: Expr, a: AExpr)
    requires e.If? && A.Addressed(s, e, a)
    ensures a.AIf? && A.Addressed(s, e.c, a.c) && A.Addressed(s, e.t, a.t) && A.Addressed(s, e.f, a.f)
    ensures Assignable(plain, e) <==> Assignable(plain, e.c) && Assignable(plain, e.t) && Assignable(plain, e.f)
  {
    hide A.AddressedRef;
  }

  /** The code up to the first branch, with the jump over the second one. */
  function Jumping(t1: C.Tables, t2: C.Tables): C.Tables {
    var t3 := C.Emit(t2, Jmp(0));
    if |t1.code| < |t3.code| then C.Patch(t3, |t1.code|, JmpIf(|t3.code| - |t1.code|)) else t3
  }

  lemma IfSucceeds(s: Scope, a: AExpr, tail: bool, t: C.Tables)
    requires a.AIf?
    ensures var r1 := C.Gen(s, a.c, false, t);
            C.Gen(s, a, tail, t).Some? <==>
              r1.Some? && C.Gen(s, a.f, tail, C.Emit(r1.value, JmpIf(0))).Some? &&
              C.Gen(s, a.t, tail, Jumping(r1.value, C.Gen(s, a.f, tail, C.Emit(r1.value, JmpIf(0))).value)).Some?
  {
    hide C.GenQuote, C.GenRef, C.GenStore, C.GenList;
  }

  lemma {:induction false} GenListSucceeds(s: Scope, plain: Scope, es: seq<Expr>, as': seq<AExpr>, t: C.Tables)
    requires A.AddressedList(s, es, as') && A.Grows(plain, s)
    ensures C.GenList(s, as', t).Some? <==> AssignableList(plain, es)
    decreases es, 0
  {
    if es != [] {
      GenSucceeds(s, plain, es[0], as'[0], false, t);
      if C.Gen(s, as'[0], false, t).Some? {
        GenListSucceeds(s, plain, es[1..], as'[1..], C.Gen(s, as'[0], false, t).value);
      }
    }
  }

  /** Compilation succeeds on a program exactly when it assigns no inlined procedure. */
  lemma CompileSucceeds(e: Expr)
    ensures Compile(e).Some? <==> Assignable(A.TOP_SCOPE, e)
  {
    A.AnalyzeProgramAddressed(e);
    GenSucceeds(A.TOP_SCOPE, A.TOP_SCOPE, e, A.AnalyzeProgram(e), true, C.NO_TABLES);
    hide C.Gen;
    hide A.Addressed;
    hide Assignable;
  }

  // ---------- running a program ----------

  const BOOT_CODE: seq<Insn> := [CallI(1), Stop]
  const BOOT_IREP: Irep := Irep(0, 0, 0, false, BOOT_CODE, [], [], [], [])

  /** `pic_apply` of a compiled program, in a machine with this memory. */
  function Boot(ir: Irep, cxts: seq<L.Context>, globals: map<Name, Option<L.VVal>>): L.State {
    L.State([Proc(H.Closure(ir, None))],
            [L.CallInfo(0, BOOT_IREP, None, 0, 0, None, H.Ip(BOOT_CODE, 0))],
            H.Ip(BOOT_CODE, 0), cxts, globals)
  }

  /** The frame in which the body of a program is evaluated. */
  const TOP_FRAME: S.Frame := S.Frame([], [], None)

  function EvalProgram(e: Expr, s: S.Store, fuel: nat): S.Outcome {
    S.Eval(e, |s.frames|, s.(frames := s.frames + [TOP_FRAME]), fuel)
  }

  /** The contexts' contents when none of them points into the stack. */
  function Contents(cxts: seq<L.Context>): seq<H.Context> {
    seq(|cxts|, i requires 0 <= i < |cxts| => H.Context(cxts[i].up, cxts[i].storage))
  }

  /** Between programs: every context is torn off, and the memory represents the store. */
  ghost predicate Idle(w: World, s: S.Store, cxts: seq<L.Context>, globals: map<Name, Option<L.VVal>>) {
    && (forall c :: 0 <= c < |cxts| ==> cxts[c].regs.Torn? && |cxts[c].storage| == cxts[c].regc)
    && FramesOk(w, s.frames) && ContextsOk(w, s.frames, Contents(cxts)) && GlobalsRel(w, s.globals, globals)
  }

  /** A machine that has only its built-in procedures is idle. */
  lemma InitiallyIdle(s: S.Store, globals: map<Name, Option<L.VVal>>)
    requires s.frames == [] && GlobalsRel(World(map[], []), s.globals, globals)
    ensures Idle(World(map[], []), s, [], globals)
  {
  }

  lemma BootInv(ir: Irep, w: World, s: S.Store, cxts: seq<L.Context>, globals: map<Name, Option<L.VVal>>)
    requires Idle(w, s, cxts, globals)
    ensures var b := Boot(ir, cxts, globals);
            && Lock.StackInv(b) && Ctx.Reachable(b)
            && Lock.Abs(b) == AtBase([Proc(H.Closure(ir, None))], 0, Contents(cxts), globals)
  {
    hide Lock.Abs;
    var b := Boot(ir, cxts, globals);
    assert Lock.CiOk(b, 0);
    Lock.AbsParts(b);
    assert Lock.Abs(b).frames[0] == Lock.AbsFrame(b, 0);
    assert b.stack[0..1] == [Proc(H.Closure(ir, None))];
    assert b.stack[0..0] == [];
    forall c | 0 <= c < |cxts| ensures Lock.Abs(b).cxts[c] == Contents(cxts)[c] {
      assert Lock.Abs(b).cxts[c] == Lock.AbsContext(b, cxts[c]);
    }
    assert Lock.Abs(b).cxts == Contents(cxts);
    assert Ctx.BootCode(BOOT_CODE);
  }

  /** The frame of the program joins the world. */
  lemma TopEntered(w: World, s: S.Store, h: H.State)
    requires Base(w, s, h)
    ensures var w1, s1 := Act.Entered(w, A.TOP_SCOPE), s.(frames := s.frames + [TOP_FRAME]);
            Ext(w, w1) && Base(w1, s1, h) && |s.frames| !in w.beta
  {
    var w1, s1 := Act.Entered(w, A.TOP_SCOPE), s.(frames := s.frames + [TOP_FRAME]);
    forall g | 0 <= g < |s1.frames| ensures FrameOk(w1, s1.frames, g) {
      if g < |s.frames| { assert FrameOk(w, s.frames, g); }
    }
    forall g | g in w1.beta ensures ContextOk(w1, s1.frames, h.cxts, g) {
      assert ContextOk(w, s.frames, h.cxts, g);
      Act.CapturesExt(w, w1, s.frames, s1.frames, g, h.cxts[w.beta[g]].vals);
    }
    Act.GlobalsExt(w, w1, s.globals, h.globals);
  }

  /** The state after the boot call. */
  function Started(ir: Irep, cxts: seq<H.Context>, globals: map<Name, Option<H.VVal>>): H.State {
    H.State([H.Frame([], [], [], BOOT_IREP, None, None, H.Ip(BOOT_CODE, 0)),
             H.Frame([Proc(H.Closure(ir, None))], [], [], ir, None, None, H.Ip(BOOT_CODE, 0))],
            H.Ip(ir.code, 0), cxts, globals)
  }

  /** The base frame with these operands. */
  function AtBase(temps: seq<H.VVal>, pc: int, cxts: seq<H.Context>, globals: map<Name, Option<H.VVal>>): H.State {
    H.State([H.Frame([], [], temps, BOOT_IREP, None, None, H.Ip(BOOT_CODE, 0))], H.Ip(BOOT_CODE, pc), cxts, globals)
  }

  lemma BootCalls(proc: H.VVal, cxts: seq<H.Context>, globals: map<Name, Option<H.VVal>>)
    ensures H.Step(AtBase([proc], 0, cxts, globals)) == H.EnterProc(AtBase([], 0, cxts, globals), [proc])
  {
    hide H.EnterProc, H.Step;
    var h := AtBase([proc], 0, cxts, globals);
    H.StepIs(h, CallI(1));
    assert H.Operands(H.Top(h), 1) == [proc] && H.Drop(H.Top(h), 1).temps == [];
    assert H.WithTop(h, H.Drop(H.Top(h), 1)).frames == AtBase([], 0, cxts, globals).frames;
  }

  lemma BootEnters(ir: Irep, cxts: seq<H.Context>, globals: map<Name, Option<H.VVal>>)
    requires ir.argc == 1 && ir.localc == 0 && !ir.varg
    ensures H.EnterProc(AtBase([], 0, cxts, globals), [Proc(H.Closure(ir, None))]) == H.Next(Started(ir, cxts, globals))
  {
    hide H.Step;
    var proc: H.VVal := Proc(H.Closure(ir, None));
    assert [proc][1..] == [];
    assert [proc] + S.InitialSlots(0, false, 0, []) == [proc];
    assert AtBase([], 0, cxts, globals).frames + [H.Frame([proc], [], [], ir, None, None, H.Ip(BOOT_CODE, 0))] ==
           Started(ir, cxts, globals).frames;
  }

  lemma BootStep(ir: Irep, cxts: seq<H.Context>, globals: map<Name, Option<H.VVal>>)
    requires ir.argc == 1 && ir.localc == 0 && !ir.varg
    ensures H.Step(AtBase([Proc(H.Closure(ir, None))], 0, cxts, globals)) == H.Next(Started(ir, cxts, globals))
  {
    hide *;
    BootCalls(Proc(H.Closure(ir, None)), cxts, globals);
    BootEnters(ir, cxts, globals);
  }

  lemma StartReady(e: Expr, ir: Irep, w: World, s: S.Store, cxts: seq<H.Context>, globals: map<Name, Option<H.VVal>>)
    requires Compile(e) == Some(ir) && Base(w, s, Started(ir, cxts, globals))
    ensures ir.argc == 1 && ir.localc == 0 && !ir.varg
    ensures Ext(w, Act.Entered(w, A.TOP_SCOPE))
    ensures Sim.Ready(Act.Entered(w, A.TOP_SCOPE), s.(frames := s.frames + [TOP_FRAME]),
                      Started(ir, cxts, globals), |s.frames|,
                      e, A.AnalyzeProgram(e), true, C.NO_TABLES)
  {
    hide C.Gen;
    hide A.Addressed;
    hide A.AnalyzeProgram;
    TopEntered(w, s, Started(ir, cxts, globals));
    A.AnalyzeProgramAddressed(e);
  }

  /** What a terminated program leaves behind. */
  ghost predicate Finished(w: World, v: S.SVal, s1: S.Store, start: L.State, n: nat, w1: World, x: L.VVal,
                           last: L.State) {
    && L.Run(start, n) == L.Next(last) && L.Step(last) == L.Halt(x)
    && Ext(w, w1) && ValRel(w1, v, x) && Idle(w1, s1, last.cxts, last.globals)
  }

  lemma StopStep(h: H.State, x: H.VVal)
    requires h.frames != [] && H.Top(h).temps == [x] && h.ip == H.Ip(BOOT_CODE, 1)
    ensures H.Step(h) == H.Halt(x)
  {
  }

  /** A machine back at its base is idle. */
  lemma BaseIdle(w: World, s: S.Store, last: L.State)
    requires Lock.StackInv(last) && |last.cis| == 1 && Base(w, s, Lock.Abs(last))
    ensures Idle(w, s, last.cxts, last.globals)
  {
    forall c | 0 <= c < |last.cxts| ensures last.cxts[c].regs.Torn? {
      if last.cxts[c].regs.OnStack? {
        var k := Lock.OwnedRegs(last, c);
      }
    }
    Lock.AbsParts(last);
    forall c | 0 <= c < |last.cxts| ensures Lock.Abs(last).cxts[c] == Contents(last.cxts)[c] {
      assert Lock.Abs(last).cxts[c] == Lock.AbsContext(last, last.cxts[c]);
    }
    assert Lock.Abs(last).cxts == Contents(last.cxts);
    hide Lock.Abs;
    hide FramesOk;
    hide ContextsOk;
    hide GlobalsRel;
  }

  /** Compiler correctness. Running the compiled program on the machine with lazy contexts
      halts with the value that evaluation gives, in a memory that represents the resulting
      store (so that the next program can be run in it); it faults when evaluation does; and while
      evaluation runs out of fuel the machine goes on for at least as many steps. */
  lemma CompilerCorrect(e: Expr, ir: Irep, w: World, s: S.Store, cxts: seq<L.Context>,
                        globals: map<Name, Option<L.VVal>>, fuel: nat)
    returns (n: nat, w1: World, x: L.VVal, last: L.State)
    requires Compile(e) == Some(ir) && Idle(w, s, cxts, globals)
    ensures match EvalProgram(e, s, fuel)
            case Timeout => n >= fuel && L.Run(Boot(ir, cxts, globals), n).Next?
            case Error => L.Run(Boot(ir, cxts, globals), n) == L.Fault
            case Ok(v, s1) => Finished(w, v, s1, Boot(ir, cxts, globals), n, w1, x, last)
  {
    hide *;
    n, w1, x, last := BothMachines(e, ir, w, s, cxts, globals, fuel);
  }

  /** The same for both machines. */
  lemma BothMachines(e: Expr, ir: Irep, w: World, s: S.Store, cxts: seq<L.Context>,
                     globals: map<Name, Option<L.VVal>>, fuel: nat)
    returns (n: nat, w1: World, x: L.VVal, last: L.State)
    requires Compile(e) == Some(ir) && Idle(w, s, cxts, globals)
    ensures match EvalProgram(e, s, fuel)
            case Timeout => n >= fuel && L.Run(Boot(ir, cxts, globals), n).Next?
            case Error => L.Run(Boot(ir, cxts, globals), n) == L.Fault
            case Ok(v, s1) => Finished(w, v, s1, Boot(ir, cxts, globals), n, w1, x, last)
    ensures Lock.StackInv(Boot(ir, cxts, globals))
    ensures match EvalProgram(e, s, fuel)
            case Timeout => H.Run(Lock.Abs(Boot(ir, cxts, globals)), n).Next?
            case Error => H.Run(Lock.Abs(Boot(ir, cxts, globals)), n).Fault?
            case Ok(_, _) => H.Run(Lock.Abs(Boot(ir, cxts, globals)), n + 1).Halt?
  {
    hide *;
    var b := Boot(ir, cxts, globals);
    BootInv(ir, w, s, cxts, globals);
    var h0 := Started(ir, Contents(cxts), globals);
    IdleBase(w, s, ir, cxts, globals);
    StartReady(e, ir, w, s, Contents(cxts), globals);
    BootStep(ir, Contents(cxts), globals);
    var w0, s0 := Act.Entered(w, A.TOP_SCOPE), s.(frames := s.frames + [TOP_FRAME]);
    Sim.ReadyParts(w0, s0, h0, |s.frames|, e, A.AnalyzeProgram(e), true, C.NO_TABLES);
    var m, h1;
    m, w1, h1 := Sim.Sim(w0, s0, h0, |s.frames|, e, A.AnalyzeProgram(e), true, C.NO_TABLES, fuel);
    EvalProgramUnfold(e, s, fuel);
    var o := EvalProgram(e, s, fuel);
    H.RunFirst(Lock.Abs(b), h0, m);
    Lazy.RunRefines(b, m + 1);
    n, x, last := m + 1, Undef, b;
    ProgramGoal(fuel, w, w0, s0, ir, Contents(cxts), globals, |s.frames|,
                |C.Gen(w0.scopes[|s.frames|], A.AnalyzeProgram(e), true, C.NO_TABLES).value.code|,
                o, m, w1, h1);
    if o.Error? {
      FaultRefines(b, n);
    } else if o.Ok? {
      NextRefines(b, n, h1);
      last := L.Run(b, n).s;
      x := Sim.Last(h1);
      FinishProgram(b, n, last, h1, x, w, w1, o.v, o.s);
      StopStep(h1, x);
      H.RunTrans(Lock.Abs(b), n, h1, 1);
      H.RunOne(h1);
    } else {
      NextRefines(b, n, H.Run(Lock.Abs(b), n).s);
    }
  }

  // ---------- safety ----------

  /** A run that goes on for `n` steps goes on for fewer. */
  lemma {:induction false} RunShorter(h: H.State, k: nat, n: nat)
    requires k <= n && H.Run(h, n).Next?
    ensures H.Run(h, k).Next?
    decreases k
  {
    hide H.Step;
    if k > 0 { RunShorter(H.Step(h).s, k - 1, n - 1); }
  }

  /** A run that has ended does not change. */
  lemma {:induction false} RunEnded(h: H.State, k: nat, n: nat)
    requires !H.Run(h, n).Next?
    ensures k >= n ==> H.Run(h, k) == H.Run(h, n)
    ensures k <= n ==> H.Run(h, k).Next? || H.Run(h, k) == H.Run(h, n)
    decreases n
  {
    hide H.Step;
    if k > 0 && n > 0 && H.Step(h).Next? { RunEnded(H.Step(h).s, k - 1, n - 1); }
  }

  /** No compiled program ever gets the machine stuck, whether it ends or not: there is always an
      instruction to execute, its operands are on the stack, and its table entries exist. */
  lemma NeverStuck(e: Expr, ir: Irep, w: World, s: S.Store, cxts: seq<L.Context>,
                   globals: map<Name, Option<L.VVal>>, k: nat)
    requires Compile(e) == Some(ir) && Idle(w, s, cxts, globals)
    ensures !H.Run(Lock.Abs(Boot(ir, cxts, globals)), k).Stuck?
    ensures !L.Run(Boot(ir, cxts, globals), k).Wild?
    ensures Lock.StackInv(Boot(ir, cxts, globals)) && Ctx.Reachable(Boot(ir, cxts, globals))
  {
    hide *;
    var b := Boot(ir, cxts, globals);
    BootInv(ir, w, s, cxts, globals);
    var n, w1, x, last := BothMachines(e, ir, w, s, cxts, globals, k);
    var o := EvalProgram(e, s, k);
    var h := Lock.Abs(b);
    if o.Timeout? {
      RunShorter(h, k, n);
    } else if o.Error? {
      RunEnded(h, k, n);
    } else {
      RunEnded(h, k, n + 1);
    }
    Lazy.RunRefines(b, k);
    NotWild(H.Run(h, k), L.Run(b, k));
  }

  lemma NotWild(o: H.Outcome, r: L.Outcome)
    requires Lazy.Refines(o, r) && !o.Stuck?
    ensures !r.Wild?
  {
  }

  /** A program that never comes to an end keeps the machine running for ever. */
  lemma Diverges(e: Expr, ir: Irep, w: World, s: S.Store, cxts: seq<L.Context>,
                 globals: map<Name, Option<L.VVal>>, k: nat)
    requires Compile(e) == Some(ir) && Idle(w, s, cxts, globals)
    requires forall fuel: nat :: EvalProgram(e, s, fuel).Timeout?
    ensures L.Run(Boot(ir, cxts, globals), k).Next?
  {
    hide *;
    var b := Boot(ir, cxts, globals);
    BootInv(ir, w, s, cxts, globals);
    var n, w1, x, last := BothMachines(e, ir, w, s, cxts, globals, k);
    RunShorter(Lock.Abs(b), k, n);
    Lazy.RunRefines(b, k);
    NextRefines(b, k, H.Run(Lock.Abs(b), k).s);
  }

  lemma IdleBase(w: World, s: S.Store, ir: Irep, cxts: seq<L.Context>, globals: map<Name, Option<L.VVal>>)
    requires Idle(w, s, cxts, globals)
    ensures Base(w, s, Started(ir, Contents(cxts), globals))
  {
  }

  lemma EvalProgramUnfold(e: Expr, s: S.Store, fuel: nat)
    ensures EvalProgram(e, s, fuel) == S.Eval(e, |s.frames|, s.(frames := s.frames + [TOP_FRAME]), fuel)
  {
    hide S.Eval;
  }

  lemma ProgramGoal(fuel: nat, w: World, w0: World, s0: S.Store, ir: Irep, cxts: seq<H.Context>,
                    globals: map<Name, Option<H.VVal>>, f: nat, k: nat, o: S.Outcome, n: nat, w1: World, h1: H.State)
    requires Ext(w, w0) && Sim.Goal(fuel, w0, s0, Started(ir, cxts, globals), f, true, k, o, n, w1, h1)
    ensures o.Error? ==> H.Run(Started(ir, cxts, globals), n) == H.Fault
    ensures o.Timeout? ==> n >= fuel && H.Run(Started(ir, cxts, globals), n).Next?
    ensures o.Ok? ==>
              && H.Run(Started(ir, cxts, globals), n) == H.Next(h1)
              && Ext(w, w1) && Base(w1, o.s, h1) && ValRel(w1, o.v, Sim.Last(h1))
              && |h1.frames| == 1 && H.Top(h1).temps == [Sim.Last(h1)] && h1.ip == H.Ip(BOOT_CODE, 1)
  {
    hide H.Run;
    hide Base;
    hide ValRel;
    hide Keeps;
  }

  lemma FaultRefines(b: L.State, n: nat)
    requires Lock.StackInv(b) && H.Run(Lock.Abs(b), n) == H.Fault && Lazy.Refines(H.Run(Lock.Abs(b), n), L.Run(b, n))
    ensures L.Run(b, n) == L.Fault
  {
    hide H.Run;
    hide L.Run;
    hide Lock.StackInv;
  }

  lemma NextRefines(b: L.State, n: nat, h1: H.State)
    requires Lock.StackInv(b) && H.Run(Lock.Abs(b), n) == H.Next(h1) && Lazy.Refines(H.Run(Lock.Abs(b), n), L.Run(b, n))
    requires Ctx.Reachable(b)
    ensures L.Run(b, n).Next? && Lock.StackInv(L.Run(b, n).s) && Lock.Abs(L.Run(b, n).s) == h1
    ensures Ctx.Reachable(L.Run(b, n).s)
  {
    hide H.Run;
    hide L.Run;
    hide Lock.StackInv;
    hide Ctx.Reachable;
    Ctx.RunReachable(b, n);
  }

  lemma FinishProgram(b: L.State, n: nat, last: L.State, h1: H.State, x: H.VVal, w: World,
                      w1: World, v: S.SVal, s1: S.Store)
    requires L.Run(b, n) == L.Next(last) && Lock.StackInv(last) && Lock.Abs(last) == h1 && Ctx.Reachable(last)
    requires |h1.frames| == 1 && H.Top(h1).temps == [x] && h1.ip == H.Ip(BOOT_CODE, 1)
    requires Ext(w, w1) && Base(w1, s1, h1) && ValRel(w1, v, x)
    ensures Finished(w, v, s1, b, n, w1, x, last)
  {
    hide *;
    StopStep(h1, x);
    Lazy.StepRefines(last);
    Lock.AbsParts(last);
    BaseIdle(w1, s1, last);
    HaltRefines(last, x);
    FinishedParts(b, n, last, x, w, w1, v, s1);
  }

  lemma HaltRefines(last: L.State, x: H.VVal)
    requires Lock.StackInv(last) && H.Step(Lock.Abs(last)) == H.Halt(x)
      && Lazy.Refines(H.Step(Lock.Abs(last)), L.Step(last))
    ensures L.Step(last) == L.Halt(x)
  {
    hide H.Step;
    hide L.Step;
    hide Lock.StackInv;
  }

  lemma FinishedParts(b: L.State, n: nat, last: L.State, x: H.VVal, w: World, w1: World, v: S.SVal, s1: S.Store)
    requires L.Run(b, n) == L.Next(last) && L.Step(last) == L.Halt(x)
    requires Ext(w, w1) && ValRel(w1, v, x) && Idle(w1, s1, last.cxts, last.globals)
    ensures Finished(w, v, s1, b, n, w1, x, last)
  {
    hide L.Run;
    hide L.Step;
    hide Idle;
    hide ValRel;
  }

  /** Values without procedures are represented by themselves, and only by themselves. */
  lemma {:induction false} DataRel(w: World, d: Datum, x: H.VVal)
    ensures ValRel(w, Inject(d), x) <==> x == Inject(d)
    decreases d
  {
    match d
    case DPair(a, b) =>
      if x.Pair? {
        DataRel(w, a, x.car);
        DataRel(w, b, x.cdr);
      }
    case _ =>
  }
}
