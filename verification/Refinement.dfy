/** The lockstep theorem: instruction by instruction, then over whole runs. */
module Refinement {
  import opened Util
  import opened Syntax
  import opened Contexts
  import opened Lockstep
  import Builtins
  import Source
  import L = LazyMachine
  import H = HeapMachine

  /** The lazy machine did what the heap machine does, unless that is stuck. */
  ghost predicate Refines(o: H.Outcome, r: L.Outcome) {
    match o
    case Stuck => true
    case Fault => r == L.Fault
    case Halt(v) => r == L.Halt(v)
    case Next(h) => r.Next? && StackInv(r.s) && Abs(r.s) == h
  }

  lemma ConstRefines(s: L.State, insn: Insn)
    requires StackInv(s)
    ensures Refines(H.DoConst(Abs(s), insn), L.DoConst(s, insn))
  {
    hide Abs;
    hide StackInv;
    hide AbsFrame;
    hide H.Push;
    hide L.Push;
    AbsTop(s);
    var ir := L.Ci(s).irep;
    match insn
    case PushUndef => PushSync(s, Undef);
    case PushNil => PushSync(s, Nil);
    case PushTrue => PushSync(s, Bool(true));
    case PushFalse => PushSync(s, Bool(false));
    case PushEof => PushSync(s, Eof);
    case PushInt(k) => if k < |ir.ints| { PushSync(s, Int(ir.ints[k])); }
    case PushFloat(k) => if k < |ir.nums| { PushSync(s, Flo(ir.nums[k])); }
    case PushChar(k) => if k < |ir.ints| { PushSync(s, Char(ir.ints[k])); }
    case PushConst(k) => if k < |ir.pool| { PushSync(s, Inject(ir.pool[k])); }
    case _ =>
  }

  lemma VarRefines(s: L.State, insn: Insn)
    requires StackInv(s)
    ensures Refines(H.DoVar(Abs(s), insn), L.DoVar(s, insn))
  {
    hide Abs;
    hide StackInv;
    hide AbsFrame;
    hide H.Push;
    hide L.Push;
    AbsTop(s);
    AbsParts(s);
    match insn
    case GRefI(k) =>
      var x := H.PoolName(L.Ci(s).irep, k);
      if x.Some? && x.value in s.globals && s.globals[x.value].Some? { PushSync(s, s.globals[x.value].value); }
    case LRefI(n) =>
      var r := H.ReadSlot(Abs(s), H.Top(Abs(s)), n);
      if r.Some? {
        ReadLocalSync(s, n);
        PushSync(s, r.value);
      }
    case CRefI(d, i) =>
      ClimbSync(s, L.Ci(s).up, d);
      var c := L.Climb(s.cxts, L.Ci(s).up, d);
      if c.Some? && i < |Abs(s).cxts[c.value].vals| {
        ReadRegSync(s, c.value, i);
        PushSync(s, Abs(s).cxts[c.value].vals[i]);
      }
    case _ =>
  }

  lemma AssignRefines(s: L.State, insn: Insn)
    requires StackInv(s)
    ensures Refines(H.DoAssign(Abs(s), insn), L.DoAssign(s, insn))
  {
    hide Abs;
    hide StackInv;
    hide AbsFrame;
    hide H.Reduce;
    AbsTop(s);
    if H.Top(Abs(s)).temps != [] {
      ReduceSync(s, 1, Undef);
      assert H.Operands(H.Top(Abs(s)), 1)[0] == s.stack[|s.stack| - 1];
      AssignTo(s, insn, L.Advance(s.(stack := s.stack[..|s.stack| - 1] + [Undef]), 1), s.stack[|s.stack| - 1]);
    }
  }

  lemma AssignTo(s: L.State, insn: Insn, s1: L.State, v: L.VVal)
    requires StackInv(s) && StackInv(s1) && s.stack != [] && v == s.stack[|s.stack| - 1]
    requires s1 == L.Advance(s.(stack := s.stack[..|s.stack| - 1] + [Undef]), 1)
    requires H.Top(Abs(s)).temps != [] && H.Top(Abs(s)).temps[|H.Top(Abs(s)).temps| - 1] == v
    requires H.Reduce(Abs(s), 1, Undef) == Abs(s1)
    ensures Refines(H.DoAssign(Abs(s), insn), L.DoAssign(s, insn))
  {
    hide AbsFrame;
    hide H.Reduce;
    hide Abs;
    hide Abs;
    hide StackInv;
    hide H.WriteSlot;
    hide L.WriteLocal;
    hide Abs;
    hide StackInv;
    hide H.WriteContext;
    hide L.WriteReg;
    AbsTop(s);
    AbsParts(s);
    match insn
    case GSetI(k) =>
      var x := H.PoolName(L.Ci(s).irep, k);
      if x.Some? && x.value in s.globals { GlobalsSync(s1, s.globals[x.value := Some(v)]); }
    case LSetI(n) =>
      if H.WriteSlot(Abs(s1), n, v).Some? { WriteLocalSync(s1, n, v); }
    case CSetI(d, i) =>
      ClimbSync(s, L.Ci(s).up, d);
      var c := L.Climb(s.cxts, L.Ci(s).up, d);
      if c.Some? && H.WriteContext(Abs(s1), c.value, i, v).Some? { WriteRegSync(s1, c.value, i, v); }
    case _ =>
  }

  lemma GlobalsSync(s: L.State, g: map<Name, Option<L.VVal>>)
    requires StackInv(s)
    ensures StackInv(s.(globals := g)) && Abs(s.(globals := g)) == Abs(s).(globals := g)
  {
    hide Abs;
    hide ContextInv;
    var s1 := s.(globals := g);
    SameOwners(s, s1);
    forall k | 0 <= k < |s.cis| ensures CiOk(s1, k) && AbsFrame(s1, k) == AbsFrame(s, k) { assert CiOk(s, k); }
    AbsParts(s);
    AbsParts(s1);
    forall c | 0 <= c < |s.cxts| ensures Abs(s1).cxts[c] == Abs(s).cxts[c] {
      assert Abs(s1).cxts[c] == AbsContext(s1, s1.cxts[c]);
    }
    assert Abs(s1).frames == Abs(s).frames;
  }

  lemma IpSync(s: L.State, ip: L.Ip)
    requires StackInv(s)
    ensures StackInv(s.(ip := ip)) && Abs(s.(ip := ip)) == Abs(s).(ip := ip)
  {
    hide Abs;
    hide ContextInv;
    var s1 := s.(ip := ip);
    SameOwners(s, s1);
    forall k | 0 <= k < |s.cis| ensures CiOk(s1, k) && AbsFrame(s1, k) == AbsFrame(s, k) { assert CiOk(s, k); }
    AbsParts(s);
    AbsParts(s1);
    forall c | 0 <= c < |s.cxts| ensures Abs(s1).cxts[c] == Abs(s).cxts[c] {
      assert Abs(s1).cxts[c] == AbsContext(s1, s1.cxts[c]);
    }
    assert Abs(s1).frames == Abs(s).frames;
  }

  /** Without its last `n` operands. */
  lemma DropSync(s: L.State, n: nat, ip: L.Ip)
    requires StackInv(s) && 0 < n <= |H.Top(Abs(s)).temps|
    ensures n <= |s.stack|
    ensures var s1 := s.(stack := s.stack[..|s.stack| - n], ip := ip);
            && StackInv(s1) && Abs(s1) == H.WithTop(Abs(s), H.Drop(H.Top(Abs(s)), n)).(ip := ip)
            && s1.stack + H.Operands(H.Top(Abs(s)), n) == s.stack
            && H.Operands(H.Top(Abs(s)), n) == s.stack[|s.stack| - n..]
            && L.Ci(s1).regs + L.Ci(s1).regc <= |s1.stack|
  {
    hide Abs;
    hide StackInv;
    hide AbsFrame;
    OperandsSync(s, n, [], ip);
    AbsTop(s);
    assert s.stack[..|s.stack| - n] + [] == s.stack[..|s.stack| - n];
    assert H.Drop(H.Top(Abs(s)), n).temps + [] == H.Drop(H.Top(Abs(s)), n).temps;
  }

  /** With its last `n` operands replaced by `v`, one instruction further. */
  lemma ReduceSync(s: L.State, n: nat, v: L.VVal)
    requires StackInv(s) && 0 < n <= |H.Top(Abs(s)).temps|
    ensures n <= |s.stack| && H.Operands(H.Top(Abs(s)), n) == s.stack[|s.stack| - n..]
    ensures Abs(s).frames != []
    ensures var s1 := L.Advance(s.(stack := s.stack[..|s.stack| - n] + [v]), 1);
            StackInv(s1) && Abs(s1) == H.Reduce(Abs(s), n, v)
  {
    hide Abs;
    hide StackInv;
    hide AbsFrame;
    OperandsSync(s, n, [v], s.ip.(pc := s.ip.pc + 1));
    AbsTop(s);
    AbsParts(s);
  }

  lemma ControlRefines(s: L.State, insn: Insn)
    requires StackInv(s)
    ensures Refines(H.DoControl(Abs(s), insn), L.DoControl(s, insn))
  {
    hide Abs;
    hide StackInv;
    hide AbsFrame;
    AbsTop(s);
    AbsParts(s);
    if insn.Jmp? {
      IpSync(s, s.ip.(pc := s.ip.pc + insn.off));
    } else if H.Top(Abs(s)).temps != [] {
      PoppedRefines(s, insn);
    }
  }

  lemma PoppedRefines(s: L.State, insn: Insn)
    requires StackInv(s) && H.Top(Abs(s)).temps != [] && !insn.Jmp?
    ensures Refines(H.DoControl(Abs(s), insn), L.DoControl(s, insn))
  {
    hide Abs;
    hide StackInv;
    hide AbsFrame;
    var h := Abs(s);
    AbsTop(s);
    AbsParts(s);
    var v := s.stack[|s.stack| - 1];
    var off := if insn.JmpIf? && v != Bool(false) then insn.off else 1;
    DropSync(s, 1, s.ip.(pc := s.ip.pc + off));
    assert H.Operands(H.Top(h), 1)[0] == v;
  }

  lemma ArityPositive(p: Prim)
    ensures Builtins.InlineArity(p) > 0
  {
  }

  lemma PrimRefines(s: L.State, p: Prim)
    requires StackInv(s)
    ensures Refines(H.DoPrim(Abs(s), p), L.DoPrim(s, p))
  {
    hide Abs, StackInv, AbsFrame, H.Reduce, Builtins.Execute, Builtins.InlineArity, H.Operands, H.Top, CiOk;
    AbsTop(s);
    ArityPositive(p);
    var n := Builtins.InlineArity(p);
    if n <= |H.Top(Abs(s)).temps| {
      var r := Builtins.Execute(p, H.Operands(H.Top(Abs(s)), n));
      ReduceSync(s, n, if r.Some? then r.value else Undef);
    }
  }

  lemma LambdaRefines(s: L.State, k: nat)
    requires StackInv(s) && |s.cis| >= 2
    ensures Refines(H.DoLambda(Abs(s), k), L.DoLambda(s, k))
  {
    hide Abs;
    hide StackInv;
    hide AbsFrame;
    hide H.MakeContext;
    hide H.Push;
    var h := Abs(s);
    AbsTop(s);
    if k < |L.Ci(s).irep.ireps| && (H.Top(h).cxt.None? ==> |H.Top(h).file| == H.Top(h).irep.capturec) {
      ContextSync(s);
      var s1 := L.PushContext(s);
      AbsTop(s1);
      PushSync(s1, Proc(H.Closure(L.Ci(s).irep.ireps[k], L.Ci(s1).cxt)));
      PushFull(Abs(s1), Proc(H.Closure(L.Ci(s).irep.ireps[k], L.Ci(s1).cxt)));
    }
  }

  /** With the registers filled, a push adds an operand. */
  lemma PushFull(h: H.State, v: H.VVal)
    requires h.frames != [] && (H.Top(h).cxt.None? ==> |H.Top(h).file| >= H.Top(h).irep.capturec)
    ensures H.Push(h, v) == H.Next(H.Advance(H.WithTop(h, H.Top(h).(temps := H.Top(h).temps + [v])), 1))
  {
  }

  lemma TopFilled(s: L.State)
    requires StackInv(s) && L.Ci(s).regs + L.Ci(s).regc <= |s.stack|
    ensures H.Top(Abs(s)).cxt.None? ==> |H.Top(Abs(s)).file| >= H.Top(Abs(s)).irep.capturec
  {
    AbsTop(s);
  }

  /** Calling `vs` from the state `s`, which no longer holds them. */
  lemma EnterRefines(s: L.State, vs: seq<L.VVal>, full: L.State)
    requires StackInv(s) && L.Ci(s).regs + L.Ci(s).regc <= |s.stack| && vs != []
    requires full == s.(stack := s.stack + vs)
    ensures Refines(H.EnterProc(Abs(s), vs), L.EnterProc(full, |vs|))
  {
    hide Abs;
    hide StackInv;
    hide AbsFrame;
    AbsTop(s);
    assert full.stack[|s.stack|] == vs[0];
    match vs[0]
    case Builtin(p) => NativeRefines(s, p, vs, full);
    case Proc(c) => ClosureRefines(s, c, vs, full);
    case _ =>
  }

  lemma ClosureRefines(s: L.State, c: H.Closure, vs: seq<L.VVal>, full: L.State)
    requires StackInv(s) && L.Ci(s).regs + L.Ci(s).regc <= |s.stack| && vs != [] && vs[0] == Proc(c)
    requires full == s.(stack := s.stack + vs)
    ensures Refines(H.EnterProc(Abs(s), vs), L.EnterProc(full, |vs|))
  {
    hide Abs;
    hide StackInv;
    hide AbsFrame;
    AbsTop(s);
    AbsParts(s);
    var ir := c.irep;
    var fp := |s.stack|;
    assert full.stack[fp + 1..] == vs[1..] && full.stack[..fp] == s.stack;
    if ir.argc > 0 && ir.localc >= (if ir.varg then 1 else 0) && Source.ArityOk(ir.argc - 1, ir.varg, |vs| - 1) {
      var frame := [vs[0]] + Source.InitialSlots(ir.argc - 1, ir.varg, ir.localc - (if ir.varg then 1 else 0), vs[1..]);
      EnterSync(s, frame, L.CallInfo(fp, ir, c.cxt, ir.capturec, fp + ir.argc + ir.localc, None, s.ip),
                H.Ip(ir.code, 0));
    }
  }

  /** Operands above the registers do not matter to a tear-off. */
  lemma {:induction false} TearFull(s: L.State, full: L.State, n: nat)
    requires StackInv(s) && n <= |s.cis| && full == s.(stack := full.stack) && s.stack <= full.stack
    ensures L.TearOffAll(full, n) == L.TearOffAll(s, n).(stack := full.stack)
    decreases n
  {
    hide StackInv;
    hide Abs;
    if n > 1 {
      var c := s.cis[n - 1].cxt;
      if c.Some? && c.value < |s.cxts| && s.cxts[c.value].regs.OnStack? {
        var k := OwnedRegs(s, c.value);
        var b := s.cxts[c.value].regs.base;
        assert full.stack[b..b + s.cxts[c.value].regc] == s.stack[b..b + s.cxts[c.value].regc];
      }
      TearOneSync(s, n - 1);
      TearFull(L.TearOff(s, c), L.TearOff(full, c), n - 1);
    }
  }

  lemma NativeRefines(s: L.State, p: Prim, vs: seq<L.VVal>, full: L.State)
    requires StackInv(s) && L.Ci(s).regs + L.Ci(s).regc <= |s.stack| && vs != [] && vs[0] == Builtin(p)
    requires full == s.(stack := s.stack + vs)
    ensures Refines(H.EnterProc(Abs(s), vs), L.CallNative(full, p, |vs|))
  {
    hide Abs;
    hide StackInv;
    hide AbsFrame;
    hide L.TearOffAll;
    hide Builtins.Apply;
    hide H.Push;
    assert full.stack[|s.stack| + 1..] == vs[1..] && full.stack[..|s.stack|] == s.stack;
    var r := Builtins.Apply(p, vs[1..]);
    AbsTop(s);
    if r.Some? {
      var s1 := s;
      if p.EscapeWith? {
        TearFull(s, full, |s.cis|);
        s1 := L.TearOffAll(s, |s.cis|);
        TearAllSync(s, |s.cis|);
      }
      TopFilled(s);
      PushSync(s1, r.value);
      PushFull(Abs(s1), r.value);
    }
  }

  lemma CallRefines(s: L.State, n: nat)
    requires StackInv(s)
    ensures Refines(H.DoCall(Abs(s), n), L.EnterProc(s, n))
  {
    hide Abs;
    hide StackInv;
    hide AbsFrame;
    hide H.EnterProc;
    hide L.EnterProc;
    AbsTop(s);
    if 0 < n <= |H.Top(Abs(s)).temps| {
      DropSync(s, n, s.ip);
      AbsParts(s);
      EnterRefines(s.(stack := s.stack[..|s.stack| - n]), H.Operands(H.Top(Abs(s)), n), s);
    }
  }

  /** The stack machine's tail call is a call from the state that the frame was left for. */
  lemma TailCallUnfold(s: L.State, n: nat)
    requires |s.cis| >= 2 && n <= |s.stack| && L.Ci(s).fp <= |s.stack|
    ensures var s1 := L.TearOff(s, L.Ci(s).cxt).(stack := s.stack[..L.Ci(s).fp], cis := s.cis[..|s.cis| - 1],
                                                 ip := L.Ci(s).ip);
            L.DoTailCall(s, n) == L.EnterProc(s1.(stack := s1.stack + s.stack[|s.stack| - n..]), n)
  {
    hide L.EnterProc;
    hide L.TearOff;
  }

  lemma TailCallRefines(s: L.State, n: nat)
    requires StackInv(s)
    ensures Refines(H.DoTailCall(Abs(s), n), L.DoTailCall(s, n))
  {
    hide Abs;
    hide StackInv;
    hide AbsFrame;
    hide H.EnterProc;
    hide L.EnterProc;
    hide L.TearOff;
    hide L.DoTailCall;
    AbsTop(s);
    if |s.cis| >= 2 && 0 < n <= |H.Top(Abs(s)).temps| {
      DropSync(s, n, s.ip);
      var vs := H.Operands(H.Top(Abs(s)), n);
      LeaveSync(s);
      var s1 := L.TearOff(s, L.Ci(s).cxt).(stack := s.stack[..L.Ci(s).fp], cis := s.cis[..|s.cis| - 1],
                                           ip := L.Ci(s).ip);
      EnterRefines(s1, vs, s1.(stack := s1.stack + vs));
      TailCallUnfold(s, n);
    }
  }

  lemma RetRefines(s: L.State)
    requires StackInv(s)
    ensures Refines(H.DoRet(Abs(s)), L.DoRet(s))
  {
    hide Abs;
    hide StackInv;
    hide AbsFrame;
    hide L.TearOff;
    var h := Abs(s);
    AbsTop(s);
    if |s.cis| >= 2 && H.Top(h).temps != [] {
      OperandsSync(s, 1, [], s.ip);
      var v := s.stack[|s.stack| - 1];
      assert H.Operands(H.Top(h), 1)[0] == v;
      LeaveSync(s);
      var s1 := L.TearOff(s, L.Ci(s).cxt).(stack := s.stack[..L.Ci(s).fp], cis := s.cis[..|s.cis| - 1],
                                           ip := L.Ci(s).ip);
      TopFilled(s1);
      PushSync(s1, v);
      AbsTop(s1);
      PushFull(Abs(s1), v);
      assert L.DoRet(s) == L.Push(s1, v);
      assert H.DoRet(h) == H.Push(Abs(s1), v);
    }
  }

  /** Lockstep: one step of any code, in any state where contexts are owned as they should be. */
  lemma StepRefines(s: L.State)
    requires StackInv(s) && Reachable(s)
    ensures Refines(H.Step(Abs(s)), L.Step(s))
  {
    hide H.DoConst;
    hide H.DoVar;
    hide H.DoAssign;
    hide H.DoControl;
    hide H.DoPrim;
    hide H.DoLambda;
    hide H.DoRet;
    hide H.DoCall;
    hide H.DoTailCall;
    hide L.DoConst;
    hide L.DoVar;
    hide L.DoAssign;
    hide L.DoControl;
    hide L.DoPrim;
    hide L.DoLambda;
    hide L.DoRet;
    hide L.EnterProc;
    hide L.DoTailCall;
    hide Abs;
    hide StackInv;
    AbsParts(s);
    if 0 <= s.ip.pc < |s.ip.code| {
      var insn := s.ip.code[s.ip.pc];
      match insn
      case CallI(n) => CallRefines(s, n);
      case TailCallI(n) => TailCallRefines(s, n);
      case RetI => RetRefines(s);
      case LambdaI(k) => LambdaRefines(s, k);
      case PrimI(p) => PrimRefines(s, p);
      case GRefI(_) => VarRefines(s, insn);
      case LRefI(_) => VarRefines(s, insn);
      case CRefI(_, _) => VarRefines(s, insn);
      case GSetI(_) => AssignRefines(s, insn);
      case LSetI(_) => AssignRefines(s, insn);
      case CSetI(_, _) => AssignRefines(s, insn);
      case Jmp(_) => ControlRefines(s, insn);
      case JmpIf(_) => ControlRefines(s, insn);
      case Pop => ControlRefines(s, insn);
      case Stop => ControlRefines(s, insn);
      case _ => ConstRefines(s, insn);
    }
  }

  /** Lazy stack contexts refine heap contexts over whole runs. */
  lemma {:induction false} RunRefines(s: L.State, n: nat)
    requires StackInv(s) && Reachable(s)
    ensures Refines(H.Run(Abs(s), n), L.Run(s, n))
    decreases n
  {
    hide *;
    if n == 0 {
      RunZero(s);
    } else {
      StepRefines(s);
      RunUnfold(s, n);
      if H.Step(Abs(s)).Next? {
        RefinesNext(s);
        StepReachable(s);
        RunRefines(L.Step(s).s, n - 1);
      } else {
        RefinesEnd(s, n);
      }
    }
  }

  lemma RunZero(s: L.State)
    requires StackInv(s)
    ensures Refines(H.Run(Abs(s), 0), L.Run(s, 0))
  {
    hide H.Step;
    hide L.Step;
  }

  lemma RunUnfold(s: L.State, n: nat)
    requires StackInv(s) && n > 0
    ensures H.Run(Abs(s), n) == if H.Step(Abs(s)).Next? then H.Run(H.Step(Abs(s)).s, n - 1) else H.Step(Abs(s))
    ensures L.Run(s, n) == if L.Step(s).Next? then L.Run(L.Step(s).s, n - 1) else L.Step(s)
  {
    hide H.Step;
    hide L.Step;
    hide Abs;
  }

  lemma RefinesNext(s: L.State)
    requires StackInv(s) && Refines(H.Step(Abs(s)), L.Step(s)) && H.Step(Abs(s)).Next?
    ensures L.Step(s).Next? && StackInv(L.Step(s).s) && Abs(L.Step(s).s) == H.Step(Abs(s)).s
  {
    hide H.Step;
    hide L.Step;
    hide Abs;
    hide StackInv;
  }

  lemma RefinesEnd(s: L.State, n: nat)
    requires StackInv(s) && Refines(H.Step(Abs(s)), L.Step(s)) && !H.Step(Abs(s)).Next? && n > 0
    requires H.Run(Abs(s), n) == H.Step(Abs(s))
    requires L.Run(s, n) == if L.Step(s).Next? then L.Run(L.Step(s).s, n - 1) else L.Step(s)
    ensures Refines(H.Run(Abs(s), n), L.Run(s, n))
  {
    hide H.Step;
    hide L.Step;
    hide Abs;
    hide StackInv;
    hide H.Run;
    hide L.Run;
  }
}
