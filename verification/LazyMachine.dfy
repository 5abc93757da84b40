/** The virtual machine as the C code runs it: one value stack, a stack of call infos, and
    contexts that point into the value stack until they are torn off. */
module LazyMachine {
  import opened Util
  import opened Syntax
  import Builtins
  import Source
  import H = HeapMachine

  type VVal = H.VVal
  type Ip = H.Ip

  /** `regs`: the register area of a live frame on the stack, or the context's own storage. */
  datatype Regs = OnStack(base: nat) | Torn

  datatype Context = Context(up: Option<nat>, regc: nat, regs: Regs, storage: seq<VVal>)

  datatype CallInfo = CallInfo(
    fp: nat, irep: Irep, up: Option<nat>, regc: nat, regs: nat, cxt: Option<nat>, ip: Ip)

  datatype State = State(
    stack: seq<VVal>, cis: seq<CallInfo>, ip: Ip, cxts: seq<Context>, globals: map<Name, Option<VVal>>)

  /** `Wild` is any access outside the stack, the tables or a context. */
  datatype Outcome = Next(s: State) | Halt(v: VVal) | Fault | Wild

  function Ci(s: State): CallInfo
    requires s.cis != []
  {
    s.cis[|s.cis| - 1]
  }

  function Advance(s: State, off: int): State {
    s.(ip := s.ip.(pc := s.ip.pc + off))
  }

  function Push(s: State, v: VVal): Outcome {
    Next(Advance(s.(stack := s.stack + [v]), 1))
  }

  /** `cxt->regs[i]`. */
  function ReadReg(s: State, c: nat, i: nat): Option<VVal> {
    if c >= |s.cxts| then None
    else match s.cxts[c].regs
      case OnStack(b) => if b + i < |s.stack| then Some(s.stack[b + i]) else None
      case Torn => if i < |s.cxts[c].storage| then Some(s.cxts[c].storage[i]) else None
  }

  function WriteReg(s: State, c: nat, i: nat, v: VVal): Option<State> {
    if c >= |s.cxts| then None
    else match s.cxts[c].regs
      case OnStack(b) => if b + i < |s.stack| then Some(s.(stack := s.stack[b + i := v])) else None
      case Torn =>
        if i < |s.cxts[c].storage|
        then Some(s.(cxts := s.cxts[c := s.cxts[c].(storage := s.cxts[c].storage[i := v])]))
        else None
  }

  /** Does slot `n` of the current frame live in torn-off storage? */
  predicate InStorage(s: State, n: nat)
    requires s.cis != []
  {
    var ci := Ci(s);
    && ci.cxt.Some? && ci.cxt.value < |s.cxts| && s.cxts[ci.cxt.value].regs.Torn?
    && n >= ci.irep.argc + ci.irep.localc
  }

  /** The register number of slot `n`. */
  function RegOf(ci: CallInfo, n: nat): int {
    n - (ci.regs - ci.fp)
  }

  function ReadLocal(s: State, n: nat): Option<VVal> {
    if s.cis == [] then None
    else if InStorage(s, n) then
      if RegOf(Ci(s), n) >= 0 then ReadReg(s, Ci(s).cxt.value, RegOf(Ci(s), n)) else None
    else if Ci(s).fp + n < |s.stack| then Some(s.stack[Ci(s).fp + n])
    else None
  }

  function WriteLocal(s: State, n: nat, v: VVal): Option<State> {
    if s.cis == [] then None
    else if InStorage(s, n) then
      if RegOf(Ci(s), n) >= 0 then WriteReg(s, Ci(s).cxt.value, RegOf(Ci(s), n), v) else None
    else if Ci(s).fp + n < |s.stack| then Some(s.(stack := s.stack[Ci(s).fp + n := v]))
    else None
  }

  function Climb(cxts: seq<Context>, c: Option<nat>, d: nat): (r: Option<nat>)
    ensures r.Some? ==> r.value < |cxts|
    decreases d
  {
    match c
    case None => None
    case Some(k) =>
      if d == 0 || k >= |cxts| then None
      else if d == 1 then c
      else Climb(cxts, cxts[k].up, d - 1)
  }

  /** `vm_tear_off`: copy the registers to the context's own storage. (Registers above the top
      of the stack would have no defined value; no reachable context has any.) */
  function TearOffContext(stack: seq<VVal>, x: Context): Context {
    match x.regs
    case Torn => x
    case OnStack(b) =>
      x.(regs := Torn, storage := if b + x.regc <= |stack| then stack[b..b + x.regc] else Source.Undefs(x.regc))
  }

  function TearOff(s: State, c: Option<nat>): State {
    match c
    case None => s
    case Some(k) =>
      if k < |s.cxts| then s.(cxts := s.cxts[k := TearOffContext(s.stack, s.cxts[k])]) else s
  }

  /** `pic_vm_tear_off`: every context of the call infos above the base. */
  function TearOffAll(s: State, n: nat): State
    requires n <= |s.cis|
    decreases n
  {
    if n <= 1 then s else TearOffAll(TearOff(s, s.cis[n - 1].cxt), n - 1)
  }

  /** A native procedure answers at once; one that was left by an escape has torn off every
      live context. */
  function CallNative(s: State, p: Prim, n: nat): Outcome
    requires 0 < n <= |s.stack|
  {
    match Builtins.Apply(p, s.stack[|s.stack| - n + 1..])
    case None => Fault
    case Some(v) =>
      var s1 := if p.EscapeWith? then TearOffAll(s, |s.cis|) else s;
      Next(Advance(s1.(stack := s.stack[..|s.stack| - n] + [v]), 1))
  }

  /** L_CALL: the procedure and its arguments are the last `n` values. */
  function EnterProc(s: State, n: nat): Outcome {
    if n == 0 || n > |s.stack| then Wild
    else
      var fp := |s.stack| - n;
      match s.stack[fp]
      case Builtin(p) => CallNative(s, p, n)
      case Proc(Closure(ir, c)) =>
        if ir.argc == 0 || ir.localc < (if ir.varg then 1 else 0) then Wild
        else if !Source.ArityOk(ir.argc - 1, ir.varg, n - 1) then Fault
        else
          var frame := [s.stack[fp]] +
            Source.InitialSlots(ir.argc - 1, ir.varg, ir.localc - (if ir.varg then 1 else 0), s.stack[fp + 1..]);
          Next(State(
            s.stack[..fp] + frame,
            s.cis + [CallInfo(fp, ir, c, ir.capturec, fp + ir.argc + ir.localc, None, s.ip)],
            H.Ip(ir.code, 0), s.cxts, s.globals))
      case _ => Fault
  }

  function DoTailCall(s: State, n: nat): Outcome {
    if |s.cis| < 2 || n > |s.stack| || Ci(s).fp > |s.stack| then Wild
    else
      var s1 := TearOff(s, Ci(s).cxt);
      var s2 := s1.(stack := s.stack[..Ci(s).fp] + s.stack[|s.stack| - n..],
                    cis := s.cis[..|s.cis| - 1], ip := Ci(s).ip);
      EnterProc(s2, n)
  }

  function DoRet(s: State): Outcome {
    if |s.cis| < 2 || s.stack == [] || Ci(s).fp > |s.stack| then Wild
    else
      var s1 := TearOff(s, Ci(s).cxt);
      Next(Advance(s1.(stack := s.stack[..Ci(s).fp] + [s.stack[|s.stack| - 1]],
                       cis := s.cis[..|s.cis| - 1], ip := Ci(s).ip), 1))
  }

  /** `vm_push_cxt`, unless the frame has its context already. */
  function PushContext(s: State): State
    requires s.cis != []
  {
    var ci := Ci(s);
    if ci.cxt.Some? then s
    else s.(cis := s.cis[|s.cis| - 1 := ci.(cxt := Some(|s.cxts|))],
            cxts := s.cxts + [Context(ci.up, ci.regc, OnStack(ci.regs), [])])
  }

  function DoLambda(s: State, k: nat): Outcome {
    if s.cis == [] || k >= |Ci(s).irep.ireps| then Wild
    else
      var s1 := PushContext(s);
      Push(s1, Proc(H.Closure(Ci(s).irep.ireps[k], Ci(s1).cxt)))
  }

  function DoConst(s: State, insn: Insn): Outcome {
    if s.cis == [] then Wild
    else
      var ir := Ci(s).irep;
      match insn
      case PushUndef => Push(s, Undef)
      case PushNil => Push(s, Nil)
      case PushTrue => Push(s, Bool(true))
      case PushFalse => Push(s, Bool(false))
      case PushEof => Push(s, Eof)
      case PushInt(k) => if k < |ir.ints| then Push(s, Int(ir.ints[k])) else Wild
      case PushFloat(k) => if k < |ir.nums| then Push(s, Flo(ir.nums[k])) else Wild
      case PushChar(k) => if k < |ir.ints| then Push(s, Char(ir.ints[k])) else Wild
      case PushConst(k) => if k < |ir.pool| then Push(s, Inject(ir.pool[k])) else Wild
      case _ => Wild
  }

  function DoVar(s: State, insn: Insn): Outcome {
    if s.cis == [] then Wild
    else match insn
      case GRefI(k) =>
        (match H.PoolName(Ci(s).irep, k)
         case None => Wild
         case Some(x) => if x in s.globals && s.globals[x].Some? then Push(s, s.globals[x].value) else Fault)
      case LRefI(n) =>
        (match ReadLocal(s, n)
         case Some(v) => Push(s, v)
         case None => Wild)
      case CRefI(d, i) =>
        (match Climb(s.cxts, Ci(s).up, d)
         case None => Wild
         case Some(c) =>
           match ReadReg(s, c, i)
           case Some(v) => Push(s, v)
           case None => Wild)
      case _ => Wild
  }

  /** The value is popped, stored, and an undefined value pushed. */
  function DoAssign(s: State, insn: Insn): Outcome {
    if s.cis == [] || s.stack == [] then Wild
    else
      var v := s.stack[|s.stack| - 1];
      var s1 := Advance(s.(stack := s.stack[..|s.stack| - 1] + [Undef]), 1);
      match insn
      case GSetI(k) =>
        (match H.PoolName(Ci(s).irep, k)
         case None => Wild
         case Some(x) => if x in s.globals then Next(s1.(globals := s.globals[x := Some(v)])) else Fault)
      case LSetI(n) =>
        (match WriteLocal(s1, n, v)
         case Some(s2) => Next(s2)
         case None => Wild)
      case CSetI(d, i) =>
        (match Climb(s.cxts, Ci(s).up, d)
         case None => Wild
         case Some(c) =>
           match WriteReg(s1, c, i, v)
           case Some(s2) => Next(s2)
           case None => Wild)
      case _ => Wild
  }

  function DoControl(s: State, insn: Insn): Outcome {
    match insn
    case Jmp(a) => Next(Advance(s, a))
    case _ =>
      if s.stack == [] then Wild
      else
        var v := s.stack[|s.stack| - 1];
        var s1 := s.(stack := s.stack[..|s.stack| - 1]);
        match insn
        case Pop => Next(Advance(s1, 1))
        case JmpIf(a) => Next(Advance(s1, if v == Bool(false) then 1 else a))
        case Stop => Halt(v)
        case _ => Wild
  }

  function DoPrim(s: State, p: Prim): Outcome {
    var n := Builtins.InlineArity(p);
    if n > |s.stack| then Wild
    else match Builtins.Execute(p, s.stack[|s.stack| - n..])
      case Some(r) => Next(Advance(s.(stack := s.stack[..|s.stack| - n] + [r]), 1))
      case None => Fault
  }

  function Step(s: State): Outcome {
    if !(0 <= s.ip.pc < |s.ip.code|) then Wild
    else
      var insn := s.ip.code[s.ip.pc];
      match insn
      case CallI(n) => EnterProc(s, n)
      case TailCallI(n) => DoTailCall(s, n)
      case RetI => DoRet(s)
      case LambdaI(k) => DoLambda(s, k)
      case PrimI(p) => DoPrim(s, p)
      case GRefI(_) | LRefI(_) | CRefI(_, _) => DoVar(s, insn)
      case GSetI(_) | LSetI(_) | CSetI(_, _) => DoAssign(s, insn)
      case Jmp(_) | JmpIf(_) | Pop | Stop => DoControl(s, insn)
      case _ => DoConst(s, insn)
  }

  function Run(s: State, n: nat): Outcome
    decreases n
  {
    if n == 0 then Next(s)
    else match Step(s)
      case Next(s1) => Run(s1, n - 1)
      case o => o
  }
}
