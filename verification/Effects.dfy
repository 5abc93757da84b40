/** The heights, targets and operand counts of `WellFormed` are those of the machine. */
module Effects {
  import opened Util
  import opened Syntax
  import opened WellFormed
  import Builtins
  import Source
  import A = Analyzer
  import C = Codegen
  import H = HeapMachine

  /** A frame whose registers are filled, or live in a context. */
  predicate Ready(fr: H.Frame) {
    fr.cxt.Some? || |fr.file| >= fr.irep.capturec
  }

  function Height(h: H.State): nat
    requires h.frames != []
  {
    |H.Top(h).temps|
  }

  /** Without the operands that an instruction needs the machine is stuck. */
  lemma TooFew(h: H.State)
    requires h.frames != [] && 0 <= h.ip.pc < |h.ip.code| && Height(h) < Needs(h.ip.code[h.ip.pc])
    ensures H.Step(h) == H.Stuck
  {
    hide H.EnterProc, Builtins.Execute, H.WriteSlot, H.WriteContext, H.Climb;
  }

  /** An instruction that is carried out in its frame leaves the height that it should, and goes on where it may. */
  lemma StepEffect(h: H.State)
    requires h.frames != [] && 0 <= h.ip.pc < |h.ip.code| && Ready(H.Top(h)) && H.Step(h).Next?
    requires Needs(h.ip.code[h.ip.pc]) <= Height(h) && !h.ip.code[h.ip.pc].TailCallI? && !h.ip.code[h.ip.pc].RetI?
    ensures var insn, h1 := h.ip.code[h.ip.pc], H.Step(h).s;
      (insn.CallI? ==> |h1.frames| == |h.frames|) ==> Effect(h, insn, h1)
  {
    var insn := h.ip.code[h.ip.pc];
    hide *;
    H.StepIs(h, insn);
    if insn.CallI? {
      CallEffect(h, insn.n);
    } else if insn.LambdaI? {
      LambdaEffect(h, insn.k);
    } else if insn.PrimI? {
      PrimEffect(h, insn.p);
    } else if insn.GRefI? || insn.LRefI? || insn.CRefI? {
      VarEffect(h, insn);
    } else if insn.GSetI? || insn.LSetI? || insn.CSetI? {
      AssignEffect(h, insn);
    } else if insn.Jmp? || insn.JmpIf? || insn.Pop? || insn.Stop? {
      ControlEffect(h, insn);
    } else {
      ConstEffect(h, insn);
    }
  }

  ghost predicate Effect(h: H.State, insn: Insn, h1: H.State)
    requires h.frames != []
  {
    && |h1.frames| == |h.frames| && Needs(insn) <= Height(h) && Height(h1) == After(insn, Height(h))
    && h1.ip.code == h.ip.code && h1.ip.pc in Targets(insn, h.ip.pc)
  }

  lemma CallEffect(h: H.State, n: nat)
    requires h.frames != [] && Needs(CallI(n)) <= Height(h) && H.DoCall(h, n).Next?
    ensures var h1 := H.DoCall(h, n).s; |h1.frames| == |h.frames| ==> Effect(h, CallI(n), h1)
  {
    hide Builtins.Apply, Source.InitialSlots;
  }

  lemma LambdaEffect(h: H.State, k: nat)
    requires h.frames != [] && Ready(H.Top(h)) && H.DoLambda(h, k).Next?
    ensures Effect(h, LambdaI(k), H.DoLambda(h, k).s)
  {
  }

  lemma PrimEffect(h: H.State, p: Prim)
    requires h.frames != [] && Needs(PrimI(p)) <= Height(h) && H.DoPrim(h, p).Next?
    ensures Effect(h, PrimI(p), H.DoPrim(h, p).s)
  {
    hide Builtins.Execute, Builtins.InlineArity;
  }

  lemma VarEffect(h: H.State, insn: Insn)
    requires h.frames != [] && Ready(H.Top(h)) && H.DoVar(h, insn).Next?
    ensures Effect(h, insn, H.DoVar(h, insn).s)
  {
    hide H.ReadSlot, H.Climb, H.PoolName;
  }

  lemma AssignEffect(h: H.State, insn: Insn)
    requires h.frames != [] && H.DoAssign(h, insn).Next?
    ensures Effect(h, insn, H.DoAssign(h, insn).s)
  {
    hide H.Climb, H.PoolName;
  }

  lemma ControlEffect(h: H.State, insn: Insn)
    requires h.frames != [] && (insn.Jmp? || insn.JmpIf? || insn.Pop? || insn.Stop?) && H.DoControl(h, insn).Next?
    ensures Effect(h, insn, H.DoControl(h, insn).s)
  {
  }

  lemma ConstEffect(h: H.State, insn: Insn)
    requires h.frames != [] && Ready(H.Top(h)) && H.DoConst(h, insn).Next?
    ensures Effect(h, insn, H.DoConst(h, insn).s)
  {
  }

  /** A return hands its one operand to the frame below, which takes it for the operands of the call that it made. */
  lemma ReturnEffect(h: H.State)
    requires |h.frames| >= 2 && Height(h) > 0
    ensures var h1 := H.DoRet(h); var below := h.frames[|h.frames| - 2];
      && h1.Next? && |h1.s.frames| == |h.frames| - 1
      && H.Top(h1.s).temps == below.temps + [H.Top(h).temps[Height(h) - 1]]
      && h1.s.ip == H.Ip(H.Top(h).ret.code, H.Top(h).ret.pc + 1)
  {
  }

  /** Operands that are in range are all that constants, globals and lambdas need. */
  lemma OperandsServe(h: H.State, sc: Scope, t: C.Tables, insn: Insn)
    requires h.frames != [] && Ready(H.Top(h)) && OperandOk(sc, t, insn)
    requires var ir := H.Top(h).irep; ir.ints == t.ints && ir.nums == t.nums && ir.pool == t.pool && ir.ireps == t.ireps
    requires H.Top(h).cxt.None? ==> |H.Top(h).file| == H.Top(h).irep.capturec
    ensures insn.PushInt? || insn.PushChar? || insn.PushFloat? || insn.PushConst? ==> H.DoConst(h, insn).Next?
    ensures insn.GRefI? ==> !H.DoVar(h, insn).Stuck?
    ensures insn.GSetI? && Height(h) > 0 ==> !H.DoAssign(h, insn).Stuck?
    ensures insn.LambdaI? ==> H.DoLambda(h, insn.k).Next?
  {
    hide A.Outer, Names, H.PushTo;
  }
}
