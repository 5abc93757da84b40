/** The virtual machine as a programmer understands it: every frame has slots and operands of
    its own, and the captured variables of a frame live in one context as soon as a closure
    has been made there. The machine is `Stuck` where the C code would leave its frame. */
module HeapMachine {
  import opened Util
  import opened Syntax
  import Builtins
  import Source

  datatype Closure = Closure(irep: Irep, cxt: Option<nat>)
  type VVal = Value<Closure>

  datatype Ip = Ip(code: seq<Insn>, pc: int)

  /** `slots` hold the procedure, its arguments, the rest list and the locals; `file` holds the
      captured variables until a context takes them over; `temps` are the operands. */
  datatype Frame = Frame(
    slots: seq<VVal>, file: seq<VVal>, temps: seq<VVal>,
    irep: Irep, up: Option<nat>, cxt: Option<nat>, ret: Ip)

  datatype Context = Context(up: Option<nat>, vals: seq<VVal>)

  datatype State = State(
    frames: seq<Frame>, ip: Ip, cxts: seq<Context>, globals: map<Name, Option<VVal>>)

  datatype Outcome = Next(s: State) | Halt(v: VVal) | Fault | Stuck

  function Top(h: State): Frame
    requires h.frames != []
  {
    h.frames[|h.frames| - 1]
  }

  function WithTop(h: State, fr: Frame): State
    requires h.frames != []
  {
    h.(frames := h.frames[|h.frames| - 1 := fr])
  }

  function Advance(h: State, off: int): State {
    h.(ip := h.ip.(pc := h.ip.pc + off))
  }

  /** Operands go to the capture area until it is full. */
  function PushTo(fr: Frame, v: VVal): Frame {
    if fr.cxt.None? && |fr.file| < fr.irep.capturec then fr.(file := fr.file + [v])
    else fr.(temps := fr.temps + [v])
  }

  function Push(h: State, v: VVal): Outcome {
    if h.frames == [] then Stuck
    else Next(Advance(WithTop(h, PushTo(Top(h), v)), 1))
  }

  /** The last `n` operands. */
  function Operands(fr: Frame, n: nat): seq<VVal>
    requires n <= |fr.temps|
  {
    fr.temps[|fr.temps| - n..]
  }

  function Drop(fr: Frame, n: nat): Frame
    requires n <= |fr.temps|
  {
    fr.(temps := fr.temps[..|fr.temps| - n])
  }

  /** Replace the last `n` operands by `v`. */
  function Reduce(h: State, n: nat, v: VVal): State
    requires h.frames != [] && n <= |Top(h).temps|
  {
    var fr := Drop(Top(h), n);
    Advance(WithTop(h, fr.(temps := fr.temps + [v])), 1)
  }

  /** The value in slot `n` of a frame; captured variables follow the ordinary slots. */
  function ReadSlot(h: State, fr: Frame, n: nat): Option<VVal> {
    if n < |fr.slots| then Some(fr.slots[n])
    else
      var i := n - |fr.slots|;
      match fr.cxt
      case None => if i < |fr.file| then Some(fr.file[i]) else None
      case Some(c) => if c < |h.cxts| && i < |h.cxts[c].vals| then Some(h.cxts[c].vals[i]) else None
  }

  function WriteSlot(h: State, n: nat, v: VVal): Option<State> {
    if h.frames == [] then None
    else
      var fr := Top(h);
      if n < |fr.slots| then Some(WithTop(h, fr.(slots := fr.slots[n := v])))
      else
        var i := n - |fr.slots|;
        match fr.cxt
        case None => if i < |fr.file| then Some(WithTop(h, fr.(file := fr.file[i := v]))) else None
        case Some(c) => WriteContext(h, c, i, v)
  }

  function WriteContext(h: State, c: nat, i: nat, v: VVal): Option<State> {
    if c < |h.cxts| && i < |h.cxts[c].vals| then
      Some(h.(cxts := h.cxts[c := h.cxts[c].(vals := h.cxts[c].vals[i := v])]))
    else None
  }

  /** The context `d` levels out, counting the one at `c` as level 1. */
  function Climb(cxts: seq<Context>, c: Option<nat>, d: nat): (r: Option<nat>)
    ensures r.Some? ==> r.value < |cxts|
    decreases d
  {
    match c
    case None => None
    case Some(k) =>
      if d == 0 || k >= |cxts| then None
      else if d == 1 then c
      else Climb(cxts, cxts[k].up, d - 1)
  }

  /** The operands `vs` (procedure first) are called; `h` no longer holds them. */
  function EnterProc(h: State, vs: seq<VVal>): Outcome
    requires vs != [] && h.frames != []
  {
    match vs[0]
    case Builtin(p) =>
      (match Builtins.Apply(p, vs[1..])
       case Some(r) => Next(Advance(WithTop(h, Top(h).(temps := Top(h).temps + [r])), 1))
       case None => Fault)
    case Proc(Closure(ir, c)) =>
      if ir.argc == 0 || ir.localc < (if ir.varg then 1 else 0) then Stuck
      else if !Source.ArityOk(ir.argc - 1, ir.varg, |vs| - 1) then Fault
      else
        var slots := [vs[0]] + Source.InitialSlots(ir.argc - 1, ir.varg,
                                                   ir.localc - (if ir.varg then 1 else 0), vs[1..]);
        Next(State(h.frames + [Frame(slots, [], [], ir, c, None, h.ip)], Ip(ir.code, 0), h.cxts, h.globals))
    case _ => Fault
  }

  function DoCall(h: State, n: nat): Outcome {
    if h.frames == [] || n == 0 || n > |Top(h).temps| then Stuck
    else EnterProc(WithTop(h, Drop(Top(h), n)), Operands(Top(h), n))
  }

  /** The frame is given up first, then the call is made on behalf of the caller. */
  function DoTailCall(h: State, n: nat): Outcome {
    if |h.frames| < 2 || n == 0 || n > |Top(h).temps| then Stuck
    else EnterProc(h.(frames := h.frames[..|h.frames| - 1], ip := Top(h).ret), Operands(Top(h), n))
  }

  function DoRet(h: State): Outcome {
    if |h.frames| < 2 || Top(h).temps == [] then Stuck
    else
      var v := Top(h).temps[|Top(h).temps| - 1];
      var h1 := h.(frames := h.frames[..|h.frames| - 1], ip := Top(h).ret);
      Next(Advance(WithTop(h1, Top(h1).(temps := Top(h1).temps + [v])), 1))
  }

  /** A full capture area moves into a context of its own. */
  function MakeContext(h: State): State
    requires h.frames != []
  {
    var fr := Top(h);
    if fr.cxt.Some? then h
    else WithTop(h, fr.(cxt := Some(|h.cxts|), file := [])).(cxts := h.cxts + [Context(fr.up, fr.file)])
  }

  function DoLambda(h: State, k: nat): Outcome {
    if h.frames == [] || k >= |Top(h).irep.ireps| || (Top(h).cxt.None? && |Top(h).file| != Top(h).irep.capturec)
    then Stuck
    else
      var h1 := MakeContext(h);
      var v := Proc(Closure(Top(h).irep.ireps[k], Top(h1).cxt));
      Next(Advance(WithTop(h1, Top(h1).(temps := Top(h1).temps + [v])), 1))
  }

  function DoConst(h: State, insn: Insn): Outcome {
    if h.frames == [] then Stuck
    else
      var ir := Top(h).irep;
      match insn
      case PushUndef => Push(h, Undef)
      case PushNil => Push(h, Nil)
      case PushTrue => Push(h, Bool(true))
      case PushFalse => Push(h, Bool(false))
      case PushEof => Push(h, Eof)
      case PushInt(k) => if k < |ir.ints| then Push(h, Int(ir.ints[k])) else Stuck
      case PushFloat(k) => if k < |ir.nums| then Push(h, Flo(ir.nums[k])) else Stuck
      case PushChar(k) =>
        if k < |ir.ints| then Push(h, Char(ir.ints[k])) else Stuck
      case PushConst(k) => if k < |ir.pool| then Push(h, Inject(ir.pool[k])) else Stuck
      case _ => Stuck
  }

  /** The global named by pool entry `k`. */
  function PoolName(ir: Irep, k: nat): Option<Name> {
    if k < |ir.pool| && ir.pool[k].DSym? then Some(ir.pool[k].s) else None
  }

  function DoVar(h: State, insn: Insn): Outcome {
    if h.frames == [] then Stuck
    else match insn
      case GRefI(k) =>
        (match PoolName(Top(h).irep, k)
         case None => Stuck
         case Some(x) => if x in h.globals && h.globals[x].Some? then Push(h, h.globals[x].value) else Fault)
      case LRefI(n) =>
        (match ReadSlot(h, Top(h), n)
         case Some(v) => Push(h, v)
         case None => Stuck)
      case CRefI(d, i) =>
        (match Climb(h.cxts, Top(h).up, d)
         case Some(c) => if i < |h.cxts[c].vals| then Push(h, h.cxts[c].vals[i]) else Stuck
         case None => Stuck)
      case _ => Stuck
  }

  /** An assignment pops its value and leaves an undefined value. */
  function DoAssign(h: State, insn: Insn): Outcome {
    if h.frames == [] || Top(h).temps == [] then Stuck
    else
      var v := Top(h).temps[|Top(h).temps| - 1];
      var h1 := Reduce(h, 1, Undef);
      match insn
      case GSetI(k) =>
        (match PoolName(Top(h).irep, k)
         case None => Stuck
         case Some(x) => if x in h.globals then Next(h1.(globals := h.globals[x := Some(v)])) else Fault)
      case LSetI(n) =>
        (match WriteSlot(h1, n, v)
         case Some(h2) => Next(h2)
         case None => Stuck)
      case CSetI(d, i) =>
        (match Climb(h.cxts, Top(h).up, d)
         case None => Stuck
         case Some(c) =>
           match WriteContext(h1, c, i, v)
           case Some(h2) => Next(h2)
           case None => Stuck)
      case _ => Stuck
  }

  function DoControl(h: State, insn: Insn): Outcome {
    match insn
    case Jmp(a) => Next(Advance(h, a))
    case _ =>
      if h.frames == [] || Top(h).temps == [] then Stuck
      else
        var v := Top(h).temps[|Top(h).temps| - 1];
        var h1 := WithTop(h, Drop(Top(h), 1));
        match insn
        case Pop => Next(Advance(h1, 1))
        case JmpIf(a) => Next(Advance(h1, if v == Bool(false) then 1 else a))
        case Stop => Halt(v)
        case _ => Stuck
  }

  function DoPrim(h: State, p: Prim): Outcome {
    var n := Builtins.InlineArity(p);
    if h.frames == [] || n > |Top(h).temps| then Stuck
    else match Builtins.Execute(p, Operands(Top(h), n))
      case Some(r) => Next(Reduce(h, n, r))
      case None => Fault
  }

  function Step(h: State): Outcome {
    if !(0 <= h.ip.pc < |h.ip.code|) then Stuck
    else
      var insn := h.ip.code[h.ip.pc];
      match insn
      case CallI(n) => DoCall(h, n)
      case TailCallI(n) => DoTailCall(h, n)
      case RetI => DoRet(h)
      case LambdaI(k) => DoLambda(h, k)
      case PrimI(p) => DoPrim(h, p)
      case GRefI(_) | LRefI(_) | CRefI(_, _) => DoVar(h, insn)
      case GSetI(_) | LSetI(_) | CSetI(_, _) => DoAssign(h, insn)
      case Jmp(_) | JmpIf(_) | Pop | Stop => DoControl(h, insn)
      case _ => DoConst(h, insn)
  }

  /** Which part of the machine runs an instruction. */
  lemma StepIs(h: State, insn: Insn)
    requires 0 <= h.ip.pc < |h.ip.code| && h.ip.code[h.ip.pc] == insn
    ensures insn.CallI? ==> Step(h) == DoCall(h, insn.n)
    ensures insn.TailCallI? ==> Step(h) == DoTailCall(h, insn.n)
    ensures insn.RetI? ==> Step(h) == DoRet(h)
    ensures insn.LambdaI? ==> Step(h) == DoLambda(h, insn.k)
    ensures insn.PrimI? ==> Step(h) == DoPrim(h, insn.p)
    ensures insn.GRefI? || insn.LRefI? || insn.CRefI? ==> Step(h) == DoVar(h, insn)
    ensures insn.GSetI? || insn.LSetI? || insn.CSetI? ==> Step(h) == DoAssign(h, insn)
    ensures insn.Jmp? || insn.JmpIf? || insn.Pop? || insn.Stop? ==> Step(h) == DoControl(h, insn)
    ensures insn.PushUndef? || insn.PushNil? || insn.PushTrue? || insn.PushFalse? || insn.PushEof? ==>
      Step(h) == DoConst(h, insn)
    ensures insn.PushInt? || insn.PushFloat? || insn.PushChar? || insn.PushConst? ==> Step(h) == DoConst(h, insn)
  {
    hide DoCall, DoTailCall, DoRet, DoLambda, DoPrim, DoVar, DoAssign, DoControl, DoConst;
  }

  function Run(h: State, n: nat): Outcome
    decreases n
  {
    if n == 0 then Next(h)
    else match Step(h)
      case Next(h1) => Run(h1, n - 1)
      case o => o
  }

  /** What is left to do after a step. */
  function Continue(o: Outcome, n: nat): Outcome {
    match o
    case Next(h) => Run(h, n)
    case _ => o
  }

  lemma RunContinue(h: State, n: nat)
    ensures Run(h, n + 1) == Continue(Step(h), n)
  {
    hide Step;
  }

  lemma ContinueTrans(o: Outcome, m: nat, h1: State, n: nat)
    requires Continue(o, m) == Next(h1)
    ensures Continue(o, m + n) == Run(h1, n)
  {
    if o.Next? { RunTrans(o.s, m, h1, n); }
    hide Step;
    hide Run;
  }

  lemma RunOne(h: State)
    ensures Run(h, 1) == Step(h)
  {
    RunContinue(h, 0);
    hide Step;
  }

  lemma TopLast(h: State)
    requires h.frames != []
    ensures h.frames[|h.frames| - 1] == Top(h)
  {
  }

  lemma RunNone(h: State)
    ensures Run(h, 0) == Next(h)
  {
    hide Step;
  }

  /** A run begins with a step. */
  lemma RunFirst(h: State, h1: State, n: nat)
    requires Step(h) == Next(h1)
    ensures Run(h, n + 1) == Run(h1, n)
  {
    hide Step;
  }

  /** Runs compose. */
  lemma {:induction false} RunTrans(h: State, m: nat, h1: State, n: nat)
    requires Run(h, m) == Next(h1)
    ensures Run(h, m + n) == Run(h1, n)
    decreases m
  {
    hide Step;
    if m > 0 {
      RunTrans(Step(h).s, m - 1, h1, n);
    }
  }
}
