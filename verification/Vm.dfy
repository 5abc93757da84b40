/** The virtual machine in place: value stack, call infos and contexts are updated step by step,
    exactly as the step function of the lazy machine says. */
module Vm {
  import opened Util
  import opened Syntax
  import Builtins
  import Source
  import H = HeapMachine
  import L = LazyMachine
  import Ctx = Contexts
  import Compiler
  import Relation
  import Lock = Lockstep
  import Lazy = Refinement

  datatype Status = Running | Stopped(v: L.VVal) | Failed

  /** What running one step of `s` makes of a machine that is now in state `s1`. */
  ghost predicate Did(s: L.State, status: Status, s1: L.State) {
    match L.Step(s)
    case Next(n) => status == Running && s1 == n
    case Halt(v) => status == Stopped(v)
    case Fault => status == Failed
    case Wild => false
  }

  class Machine {
    var stack: seq<L.VVal>
    var cis: seq<L.CallInfo>
    var ip: L.Ip
    var cxts: seq<L.Context>
    var globals: map<Name, Option<L.VVal>>

    ghost function State(): L.State
      reads this
    {
      L.State(stack, cis, ip, cxts, globals)
    }

    constructor (boot: L.State)
      ensures State() == boot
    {
      stack, cis, ip, cxts, globals := boot.stack, boot.cis, boot.ip, boot.cxts, boot.globals;
    }

    method Push(v: L.VVal)
      modifies this`stack
      ensures stack == old(stack) + [v]
    {
      stack := stack + [v];
    }

    method Pop() returns (v: L.VVal)
      requires stack != []
      modifies this`stack
      ensures v == old(stack)[|old(stack)| - 1] && stack == old(stack)[..|old(stack)| - 1]
    {
      v := stack[|stack| - 1];
      stack := stack[..|stack| - 1];
    }

    /** `pic->ip += off`. */
    method Jump(off: int)
      modifies this`ip
      ensures State() == L.Advance(old(State()), off)
    {
      ip := ip.(pc := ip.pc + off);
    }

    /** `vm_tear_off`: the registers are copied one by one, then the context is switched over. */
    method TearOff(c: nat)
      requires c < |cxts| && (cxts[c].regs.OnStack? ==> cxts[c].regs.base + cxts[c].regc <= |stack|)
      modifies this`cxts
      ensures State() == L.TearOff(old(State()), Some(c))
    {
      if cxts[c].regs.Torn? {
        return;
      }
      var base, regc := cxts[c].regs.base, cxts[c].regc;
      var storage := [];
      for i := 0 to regc
        invariant storage == stack[base..base + i]
      {
        storage := storage + [stack[base + i]];
      }
      cxts := cxts[c := cxts[c].(storage := storage)];
      cxts := cxts[c := cxts[c].(regs := L.Torn)];
    }

    /** `pic_vm_tear_off`: from the top call info down to, but not including, the base. */
    method TearOffAll()
      requires OnStackBelow()
      modifies this`cxts
      ensures State() == L.TearOffAll(old(State()), |old(cis)|)
    {
      var k := |cis|;
      while k > 1
        invariant 0 <= k <= |cis| && cis == old(cis) && OnStackBelow()
        invariant L.TearOffAll(State(), k) == L.TearOffAll(old(State()), |cis|)
      {
        k := k - 1;
        if cis[k].cxt.Some? {
          TearOff(cis[k].cxt.value);
        }
      }
    }

    /** Every owned context has its registers below the top of the stack. */
    ghost predicate OnStackBelow()
      reads this
    {
      && (forall k :: 0 <= k < |cis| && cis[k].cxt.Some? ==> cis[k].cxt.value < |cxts|)
      && (forall c :: 0 <= c < |cxts| && cxts[c].regs.OnStack? ==> cxts[c].regs.base + cxts[c].regc <= |stack|)
    }

    /** The rest list is consed up while the extra arguments are popped. */
    method PopRest(n: nat) returns (rest: L.VVal)
      requires n <= |stack|
      modifies this`stack
      ensures stack == old(stack)[..|old(stack)| - n]
      ensures rest == Source.ListOf(old(stack)[|old(stack)| - n..])
    {
      rest := Nil;
      ghost var full := stack;
      for i := 0 to n
        invariant stack == full[..|full| - i]
        invariant rest == Source.ListOf(full[|full| - i..])
      {
        assert full[|full| - i - 1..] == [full[|full| - i - 1]] + full[|full| - i..];
        var v := Pop();
        rest := Pair(v, rest);
      }
    }

    method PushUndefs(n: nat)
      modifies this`stack
      ensures stack == old(stack) + Source.Undefs(n)
    {
      ghost var was := stack;
      for i := 0 to n
        invariant stack == was + Source.Undefs(i)
      {
        Push(Undef);
      }
    }

    /** The context `depth` levels out. */
    method Climb(up: Option<nat>, depth: nat) returns (c: Option<nat>)
      ensures c == L.Climb(cxts, up, depth)
    {
      c := up;
      var d := depth;
      while d > 1 && c.Some? && c.value < |cxts|
        invariant L.Climb(cxts, c, d) == L.Climb(cxts, up, depth)
      {
        c := cxts[c.value].up;
        d := d - 1;
      }
      if d == 0 || (c.Some? && c.value >= |cxts|) {
        c := None;
      }
    }

    /** A native procedure is invoked and its answer takes the place of the operands. */
    method CallNative(p: Prim, n: nat) returns (status: Status)
      requires 0 < n <= |stack| && OnStackBelow()
      modifies this
      ensures match L.CallNative(old(State()), p, n)
              case Next(s) => status == Running && State() == s
              case _ => status == Failed
    {
      ghost var was := State();
      var fp := |stack| - n;
      var r := Builtins.Apply(p, stack[fp + 1..]);
      if r.None? {
        return Failed;
      }
      if p.EscapeWith? {
        TearOffAll();
        TearOffAllFrame(was, |was.cis|);
      }
      stack := stack[..fp];
      Push(r.value);
      Jump(1);
      return Running;
    }

    lemma FrameParts(xs: seq<L.VVal>, fp: nat, top: nat)
      requires fp < top <= |xs|
      ensures xs[..top] == xs[..fp] + ([xs[fp]] + xs[fp + 1..top])
    {
      assert xs[..fp] + xs[fp..top] == xs[..top];
      assert [xs[fp]] + xs[fp + 1..top] == xs[fp..top];
    }

    /** The rest list and the locals complete the frame of a procedure with `ir`. */
    method PrepareFrame(fp: nat, ir: Irep)
      requires fp + ir.argc <= |stack| && ir.argc > 0 && ir.localc >= (if ir.varg then 1 else 0)
      requires Source.ArityOk(ir.argc - 1, ir.varg, |stack| - fp - 1)
      modifies this`stack
      ensures stack == old(stack)[..fp] + ([old(stack)[fp]] +
                Source.InitialSlots(ir.argc - 1, ir.varg, ir.localc - (if ir.varg then 1 else 0), old(stack)[fp + 1..]))
    {
      ghost var was := stack;
      var l := ir.localc;
      if ir.varg {
        var rest := PopRest(|stack| - fp - ir.argc);
        assert was[fp + 1..][ir.argc - 1..] == was[fp + ir.argc..];
        Push(rest);
        l := l - 1;
      }
      PushUndefs(l);
      assert was[fp + 1..][..ir.argc - 1] == was[fp + 1..fp + ir.argc];
      FrameParts(was, fp, fp + ir.argc);
    }

    /** L_CALL. */
    method EnterProc(n: nat) returns (status: Status)
      requires !L.EnterProc(State(), n).Wild? && OnStackBelow()
      modifies this
      ensures match L.EnterProc(old(State()), n)
              case Next(s) => status == Running && State() == s
              case _ => status == Failed
    {
      var fp := |stack| - n;
      var x := stack[fp];
      match x {
        case Builtin(p) =>
          status := CallNative(p, n);
        case Proc(c) =>
          var ir := c.irep;
          if n != ir.argc && !(ir.varg && n >= ir.argc) {
            return Failed;
          }
          PrepareFrame(fp, ir);
          cis := cis + [L.CallInfo(fp, ir, c.cxt, ir.capturec, fp + ir.argc + ir.localc, None, ip)];
          ip := H.Ip(ir.code, 0);
          return Running;
        case _ =>
          return Failed;
      }
    }

    /** A tear-off touches nothing but contexts. */
    static lemma {:induction false} TearOffAllFrame(s: L.State, n: nat)
      requires n <= |s.cis|
      ensures L.TearOffAll(s, n) == s.(cxts := L.TearOffAll(s, n).cxts)
      decreases n
    {
      if n > 1 { TearOffAllFrame(L.TearOff(s, s.cis[n - 1].cxt), n - 1); }
    }

    /** The operands are moved down to `fp`, from the first to the last. */
    method MoveDown(fp: nat, n: nat)
      requires fp + n <= |stack|
      modifies this`stack
      ensures stack == old(stack)[..fp] + old(stack)[|old(stack)| - n..]
    {
      ghost var was := stack;
      var argv := |stack| - n;
      for i := 0 to n
        invariant |stack| == |was|
        invariant forall j :: 0 <= j < fp ==> stack[j] == was[j]
        invariant forall j :: fp <= j < fp + i ==> stack[j] == was[j - fp + argv]
        invariant forall j :: argv + i <= j < |was| ==> stack[j] == was[j]
      {
        stack := stack[fp + i := stack[argv + i]];
      }
      stack := stack[..fp + n];
      JoinedAt(stack, was, fp, n);
    }

    /** OP_TAILCALL: tear off, copy the operands over the frame, give it up, call. */
    method TailCall(n: nat) returns (status: Status)
      requires !L.DoTailCall(State(), n).Wild? && OnStackBelow() && LowerBelow() && cis[|cis| - 1].fp + n <= |stack|
      modifies this
      ensures match L.DoTailCall(old(State()), n)
              case Next(s) => status == Running && State() == s
              case _ => status == Failed
    {
      hide L.EnterProc;
      var ci := cis[|cis| - 1];
      if ci.cxt.Some? {
        TearOff(ci.cxt.value);
      }
      MoveDown(ci.fp, n);
      cis := cis[..|cis| - 1];
      ip := ci.ip;
      status := EnterProc(n);
    }

    /** OP_RET. */
    method Return()
      requires !L.DoRet(State()).Wild? && OnStackBelow()
      modifies this
      ensures L.DoRet(old(State())) == L.Next(State())
    {
      var ci := cis[|cis| - 1];
      if ci.cxt.Some? {
        TearOff(ci.cxt.value);
      }
      var v := stack[|stack| - 1];
      stack := stack[..ci.fp] + [v];
      cis := cis[..|cis| - 1];
      ip := ci.ip;
      Jump(1);
    }

    /** The registers of the contexts that other frames own lie below the top frame. */
    ghost predicate LowerBelow()
      reads this
    {
      && cis != []
      && (forall j, k :: 0 <= j < k < |cis| && cis[j].cxt.Some? ==> cis[j].cxt != cis[k].cxt)
      && (forall c :: 0 <= c < |cxts| && cxts[c].regs.OnStack? && cis[|cis| - 1].cxt != Some(c) ==>
            cxts[c].regs.base + cxts[c].regc <= cis[|cis| - 1].fp)
    }

    /** `vm_push_cxt`, then the closure. */
    method MakeClosure(k: nat)
      requires !L.DoLambda(State(), k).Wild?
      modifies this
      ensures L.DoLambda(old(State()), k) == L.Next(State())
    {
      var ci := cis[|cis| - 1];
      var ir := ci.irep.ireps[k];
      if ci.cxt.None? {
        cxts := cxts + [L.Context(ci.up, ci.regc, L.OnStack(ci.regs), [])];
        ci := ci.(cxt := Some(|cxts| - 1));
        cis := cis[|cis| - 1 := ci];
      }
      Push(Proc(H.Closure(ir, ci.cxt)));
      Jump(1);
    }

    /** `cxt->regs[i] = v`. */
    method SetReg(c: nat, i: nat, v: L.VVal)
      requires L.WriteReg(State(), c, i, v).Some?
      modifies this`stack, this`cxts
      ensures L.WriteReg(old(State()), c, i, v) == Some(State())
    {
      match cxts[c].regs {
        case OnStack(b) => stack := stack[b + i := v];
        case Torn => cxts := cxts[c := cxts[c].(storage := cxts[c].storage[i := v])];
      }
    }

    /** OP_LSET, OP_CSET and OP_GSET. */
    method Assign(insn: Insn) returns (status: Status)
      requires !L.DoAssign(State(), insn).Wild? && (insn.LSetI? || insn.CSetI? || insn.GSetI?)
      modifies this
      ensures match L.DoAssign(old(State()), insn)
              case Next(s) => status == Running && State() == s
              case _ => status == Failed
    {
      ghost var was := State();
      var ci := cis[|cis| - 1];
      var v := Pop();
      Push(Undef);
      Jump(1);
      match insn {
        case LSetI(n) =>
          if ci.cxt.Some? && ci.cxt.value < |cxts| && cxts[ci.cxt.value].regs.Torn?
            && n >= ci.irep.argc + ci.irep.localc {
            SetReg(ci.cxt.value, n - (ci.regs - ci.fp), v);
          } else {
            stack := stack[ci.fp + n := v];
          }
        case CSetI(d, i) =>
          var c := Climb(ci.up, d);
          SetReg(c.value, i, v);
        case GSetI(k) =>
          var x := ci.irep.pool[k].s;
          if x !in globals {
            return Failed;
          }
          globals := globals[x := Some(v)];
      }
      return Running;
    }

    /** OP_LREF, OP_CREF and OP_GREF. */
    method Fetch(insn: Insn) returns (status: Status)
      requires !L.DoVar(State(), insn).Wild? && (insn.LRefI? || insn.CRefI? || insn.GRefI?)
      modifies this
      ensures match L.DoVar(old(State()), insn)
              case Next(s) => status == Running && State() == s
              case _ => status == Failed
    {
      var ci := cis[|cis| - 1];
      var v: L.VVal;
      match insn {
        case LRefI(n) =>
          if ci.cxt.Some? && ci.cxt.value < |cxts| && cxts[ci.cxt.value].regs.Torn?
            && n >= ci.irep.argc + ci.irep.localc {
            v := cxts[ci.cxt.value].storage[n - (ci.regs - ci.fp)];
          } else {
            v := stack[ci.fp + n];
          }
        case CRefI(d, i) =>
          var c := Climb(ci.up, d);
          v := match cxts[c.value].regs case OnStack(b) => stack[b + i] case Torn => cxts[c.value].storage[i];
        case GRefI(k) =>
          var x := ci.irep.pool[k].s;
          if x !in globals || globals[x].None? {
            return Failed;
          }
          v := globals[x].value;
      }
      Push(v);
      Jump(1);
      return Running;
    }

    /** The instructions on operands alone. */
    method Operate(insn: Insn) returns (status: Status)
      requires insn.Pop? || insn.Jmp? || insn.JmpIf? || insn.Stop? || insn.PrimI?
      requires insn.PrimI? ==> !L.DoPrim(State(), insn.p).Wild?
      requires !insn.PrimI? ==> !L.DoControl(State(), insn).Wild?
      modifies this
      ensures match (if insn.PrimI? then L.DoPrim(old(State()), insn.p) else L.DoControl(old(State()), insn))
              case Next(s) => status == Running && State() == s
              case Halt(v) => status == Stopped(v)
              case _ => status == Failed
    {
      status := Running;
      match insn {
        case Jmp(a) => Jump(a);
        case PrimI(p) =>
          var n := Builtins.InlineArity(p);
          var r := Builtins.Execute(p, stack[|stack| - n..]);
          if r.None? {
            return Failed;
          }
          stack := stack[..|stack| - n];
          Push(r.value);
          Jump(1);
        case Pop =>
          var _ := Pop();
          Jump(1);
        case JmpIf(a) =>
          var v := Pop();
          if v != Bool(false) { Jump(a); } else { Jump(1); }
        case Stop =>
          var v := Pop();
          status := Stopped(v);
      }
    }

    /** One turn of the interpreter loop. */
    method Step() returns (status: Status)
      requires !L.Step(State()).Wild? && OnStackBelow()
      requires ip.code[ip.pc].TailCallI? ==> LowerBelow() && cis[|cis| - 1].fp + ip.code[ip.pc].n <= |stack|
      modifies this
      ensures Did(old(State()), status, State())
    {
      var insn := ip.code[ip.pc];
      match insn {
        case CallI(n) => status := EnterProc(n);
        case TailCallI(n) => status := TailCall(n);
        case RetI => Return(); status := Running;
        case LambdaI(k) => MakeClosure(k); status := Running;
        case LRefI(_) => status := Fetch(insn);
        case CRefI(_, _) => status := Fetch(insn);
        case GRefI(_) => status := Fetch(insn);
        case LSetI(_) => status := Assign(insn);
        case CSetI(_, _) => status := Assign(insn);
        case GSetI(_) => status := Assign(insn);
        case PrimI(_) => status := Operate(insn);
        case Pop => status := Operate(insn);
        case Jmp(_) => status := Operate(insn);
        case JmpIf(_) => status := Operate(insn);
        case Stop => status := Operate(insn);
        case _ => PushConstant(insn); status := Running;
      }
    }

    method PushConstant(insn: Insn)
      requires L.DoConst(State(), insn).Next?
      modifies this
      ensures L.DoConst(old(State()), insn) == L.Next(State())
    {
      var ir := cis[|cis| - 1].irep;
      match insn {
        case PushUndef => Push(Undef);
        case PushNil => Push(Nil);
        case PushTrue => Push(Bool(true));
        case PushFalse => Push(Bool(false));
        case PushEof => Push(Eof);
        case PushInt(k) => Push(Int(ir.ints[k]));
        case PushFloat(k) => Push(Flo(ir.nums[k]));
        case PushChar(k) => Push(Char(ir.ints[k]));
        case PushConst(k) => Push(Inject(ir.pool[k]));
      }
      Jump(1);
    }

    /** The interpreter loop, for at most `limit` instructions, from any state in which the heap
        machine would not get stuck: it does what the run of the lazy machine does. */
    method Execute(limit: nat) returns (status: Status)
      requires Lock.StackInv(State()) && Ctx.Reachable(State())
      requires !H.Run(Lock.Abs(State()), limit).Stuck?
      modifies this
      ensures match L.Run(old(State()), limit)
              case Next(s) => status == Running && State() == s
              case Halt(v) => status == Stopped(v)
              case Fault => status == Failed
              case Wild => false
    {
      hide L.Step;
      hide L.Run;
      hide H.Step;
      hide H.Run;
      hide Lock.StackInv;
      hide Lock.Abs;
      hide Ctx.Reachable;
      status := Running;
      var left := limit;
      while left > 0
        invariant 0 <= left <= limit && Lock.StackInv(State()) && Ctx.Reachable(State())
        invariant !H.Run(Lock.Abs(State()), left).Stuck?
        invariant status == Running && L.Run(State(), left) == L.Run(old(State()), limit)
      {
        ghost var s := State();
        StepAllowed(s, left);
        status := Step();
        RunStep(s, left, State());
        left := left - 1;
        if status != Running {
          return;
        }
      }
      RunNone(State());
    }

    /** In a state that is not stuck, the step's demands on the stack layout are met. */
    ghost method StepAllowed(s: L.State, left: nat)
      requires s == State() && Lock.StackInv(s) && Ctx.Reachable(s) && left > 0 && !H.Run(Lock.Abs(s), left).Stuck?
      ensures !L.Step(s).Wild? && OnStackBelow()
      ensures ip.code[ip.pc].TailCallI? ==> LowerBelow() && cis[|cis| - 1].fp + ip.code[ip.pc].n <= |stack|
    {
      NotWild(s, left);
      Layout(s);
    }
  }

  /** `pic_apply` of a compiled program, for at most `limit` instructions: the interpreter loop needs
      nothing but that the program was compiled and that the memory is idle. */
  method RunProgram(ghost e: Expr, ir: Irep, ghost w: Relation.World, ghost store: Source.Store, cxts: seq<L.Context>,
                    globals: map<Name, Option<L.VVal>>, limit: nat)
    returns (machine: Machine, status: Status)
    requires Compiler.Compile(e) == Some(ir) && Compiler.Idle(w, store, cxts, globals)
    ensures match L.Run(Compiler.Boot(ir, cxts, globals), limit)
            case Next(s) => status == Running && machine.State() == s
            case Halt(v) => status == Stopped(v)
            case Fault => status == Failed
            case Wild => false
  {
    hide *;
    Compiler.NeverStuck(e, ir, w, store, cxts, globals, limit);
    machine := new Machine(Compiler.Boot(ir, cxts, globals));
    status := machine.Execute(limit);
  }

  lemma JoinedAt<T>(now: seq<T>, was: seq<T>, fp: nat, n: nat)
    requires |now| == fp + n <= |was|
    requires forall j :: 0 <= j < fp ==> now[j] == was[j]
    requires forall j :: fp <= j < fp + n ==> now[j] == was[j - fp + (|was| - n)]
    ensures now == was[..fp] + was[|was| - n..]
  {
  }

  lemma RunNone(s: L.State)
    ensures L.Run(s, 0) == L.Next(s)
  {
    hide L.Step;
  }

  lemma NotWild(s: L.State, left: nat)
    requires Lock.StackInv(s) && Ctx.Reachable(s) && left > 0 && !H.Run(Lock.Abs(s), left).Stuck?
    ensures !H.Step(Lock.Abs(s)).Stuck? && !L.Step(s).Wild? && 0 <= s.ip.pc < |s.ip.code|
    ensures s.ip.code[s.ip.pc].TailCallI? ==> s.cis != [] && L.Ci(s).fp + s.ip.code[s.ip.pc].n <= |s.stack|
  {
    hide Lock.StackInv;
    hide Lock.Abs;
    Lazy.StepRefines(s);
    H.RunContinue(Lock.Abs(s), left - 1);
    Lock.AbsParts(s);
    if s.ip.code[s.ip.pc].TailCallI? { TailOperands(s, s.ip.code[s.ip.pc].n); }
  }

  lemma TailOperands(s: L.State, n: nat)
    requires Lock.StackInv(s) && !H.DoTailCall(Lock.Abs(s), n).Stuck?
    ensures s.cis != [] && L.Ci(s).fp + n <= |s.stack|
  {
    Lock.AbsTop(s);
    hide Lock.Abs;
    hide H.EnterProc;
  }

  lemma Layout(s: L.State)
    requires Lock.StackInv(s)
    ensures s.cis != []
    ensures forall k :: 0 <= k < |s.cis| && s.cis[k].cxt.Some? ==> s.cis[k].cxt.value < |s.cxts|
    ensures forall j, k :: 0 <= j < k < |s.cis| && s.cis[j].cxt.Some? ==> s.cis[j].cxt != s.cis[k].cxt
    ensures forall c :: 0 <= c < |s.cxts| && s.cxts[c].regs.OnStack? ==>
      s.cxts[c].regs.base + s.cxts[c].regc <= |s.stack|
    ensures forall c :: 0 <= c < |s.cxts| && s.cxts[c].regs.OnStack? && L.Ci(s).cxt != Some(c) ==>
              s.cxts[c].regs.base + s.cxts[c].regc <= L.Ci(s).fp
  {
    forall c | 0 <= c < |s.cxts| && s.cxts[c].regs.OnStack?
      ensures s.cxts[c].regs.base + s.cxts[c].regc <= |s.stack|
      ensures L.Ci(s).cxt != Some(c) ==> s.cxts[c].regs.base + s.cxts[c].regc <= L.Ci(s).fp
    {
      var k := Lock.OwnedRegs(s, c);
    }
  }

  lemma RunStep(s: L.State, left: nat, s1: L.State)
    requires Lock.StackInv(s) && Ctx.Reachable(s) && left > 0 && !H.Run(Lock.Abs(s), left).Stuck?
    ensures L.Run(s, left) == if L.Step(s).Next? then L.Run(L.Step(s).s, left - 1) else L.Step(s)
    ensures L.Step(s).Next? ==>
              && Lock.StackInv(L.Step(s).s) && Ctx.Reachable(L.Step(s).s)
              && !H.Run(Lock.Abs(L.Step(s).s), left - 1).Stuck?
  {
    hide *;
    Lazy.StepRefines(s);
    Lazy.RunUnfold(s, left);
    if L.Step(s).Next? {
      Ctx.StepReachable(s);
      NextOnly(s, left);
    }
  }

  lemma NextOnly(s: L.State, left: nat)
    requires Lock.StackInv(s) && left > 0 && L.Step(s).Next? && Lazy.Refines(H.Step(Lock.Abs(s)), L.Step(s))
    requires H.Run(Lock.Abs(s), left) == if H.Step(Lock.Abs(s)).Next? then H.Run(H.Step(Lock.Abs(s)).s, left - 1)
      else H.Step(Lock.Abs(s))
    requires !H.Run(Lock.Abs(s), left).Stuck?
    ensures Lock.StackInv(L.Step(s).s) && !H.Run(Lock.Abs(L.Step(s).s), left - 1).Stuck?
  {
    hide H.Step;
    hide L.Step;
    hide H.Run;
    hide Lock.StackInv;
    hide Lock.Abs;
  }
}
