/** Code generation: what `codegen` appends to the code array and to the constant tables. */
module Codegen {
  import opened Util
  import opened Syntax
  import Builtins
  import Analyzer

  /** The growing tables of a `codegen_context`. */
  datatype Tables = Tables(
    code: seq<Insn>, ireps: seq<Irep>, ints: seq<int>, nums: seq<real>, pool: seq<Datum>)

  const NO_TABLES := Tables([], [], [], [], [])

  function Emit(t: Tables, i: Insn): Tables {
    t.(code := t.code + [i])
  }

  function EmitRet(t: Tables, tail: bool): Tables {
    if tail then Emit(t, RetI) else t
  }

  /** Overwrite the instruction at `i`, once a jump distance is known. */
  function Patch(t: Tables, i: nat, insn: Insn): Tables
    requires i < |t.code|
  {
    t.(code := t.code[i := insn])
  }

  /** `index_local`: slot 0 holds the procedure itself. */
  function IndexLocal(s: Scope, x: Name): Option<nat> {
    var i := IndexOf(Names(s), x);
    if i < |Names(s)| then Some(i + 1) else None
  }

  function IndexCapture(s: Scope, x: Name, depth: nat): Option<nat> {
    match Analyzer.Outer(s, depth)
    case None => None
    case Some(o) =>
      var i := IndexOf(o.captures, x);
      if i < |o.captures| then Some(i) else None
  }

  /** The slot of a variable of the current frame: captured variables live behind the locals. */
  function IndexOwn(s: Scope, x: Name): Option<nat> {
    match IndexCapture(s, x, 0)
    case Some(i) => Some(i + |Names(s)| + 1)
    case None => IndexLocal(s, x)
  }

  /** `create_activation`: copy captured arguments to the capture area, extend it for locals. */
  function Activation(s: Scope, k: nat): Insn
    requires k < |s.captures|
  {
    var x := s.captures[k];
    match IndexLocal(s, x)
    case Some(n) => if n <= |s.params| || s.rest == Some(x) then LRefI(n) else PushUndef
    case None => PushUndef
  }

  function ActivationCode(s: Scope): (c: seq<Insn>)
    ensures |c| == |s.captures|
  {
    seq(|s.captures|, k requires 0 <= k < |s.captures| => Activation(s, k))
  }

  function GenQuote(d: Datum, t: Tables): Tables {
    match d
    case DUndef => Emit(t, PushUndef)
    case DBool(true) => Emit(t, PushTrue)
    case DBool(false) => Emit(t, PushFalse)
    case DInt(i) => Emit(t.(ints := t.ints + [i]), PushInt(|t.ints|))
    case DFlo(r) => Emit(t.(nums := t.nums + [r]), PushFloat(|t.nums|))
    case DNil => Emit(t, PushNil)
    case DEof => Emit(t, PushEof)
    case DChar(c) => Emit(t.(ints := t.ints + [c]), PushChar(|t.ints|))
    case _ => Emit(t.(pool := t.pool + [d]), PushConst(|t.pool|))
  }

  function GenRef(s: Scope, r: Ref, t: Tables): Option<Tables> {
    match r
    case GRef(x) => Some(Emit(t.(pool := t.pool + [DSym(x)]), GRefI(|t.pool|)))
    case CRef(d, x) =>
      (match IndexCapture(s, x, d)
       case Some(i) => Some(Emit(t, CRefI(d, i)))
       case None => None)
    case LRef(x) =>
      (match IndexOwn(s, x)
       case Some(n) => Some(Emit(t, LRefI(n)))
       case None => None)
  }

  /** Assignments to the names of inlined procedures are compile-time errors. */
  function GenStore(s: Scope, r: Ref, t: Tables): Option<Tables> {
    match r
    case GRef(x) =>
      if Builtins.InlineName(x).Some? then None
      else Some(Emit(t.(pool := t.pool + [DSym(x)]), GSetI(|t.pool|)))
    case CRef(d, x) =>
      (match IndexCapture(s, x, d)
       case Some(i) => Some(Emit(t, CSetI(d, i)))
       case None => None)
    case LRef(x) =>
      (match IndexOwn(s, x)
       case Some(n) => Some(Emit(t, LSetI(n)))
       case None => None)
  }

  function Inlined(fn: AExpr, argc: nat): Option<Prim> {
    if fn.AVar? && fn.ref.GRef? then
      match Builtins.InlineName(fn.ref.x)
      case Some(p) => if argc == Builtins.InlineArity(p) then Some(p) else None
      case None => None
    else None
  }

  function Finish(s: Scope, t: Tables): Irep {
    Irep(|s.params| + 1, (if s.rest.Some? then 1 else 0) + |s.locals|, |s.captures|, s.rest.Some?,
         t.code, t.ireps, t.ints, t.nums, t.pool)
  }

  /** `codegen`; `None` is a compile-time error. */
  function Gen(s: Scope, a: AExpr, tail: bool, t: Tables): (r: Option<Tables>)
    ensures r.Some? ==> |t.code| < |r.value.code|
    decreases a, 1
  {
    match a
    case AQuote(d) => Some(EmitRet(GenQuote(d, t), tail))
    case AVar(ref) =>
      (match GenRef(s, ref, t)
       case Some(t1) => Some(EmitRet(t1, tail))
       case None => None)
    case ASet(ref, e) =>
      (match Gen(s, e, false, t)
       case Some(t1) =>
         (match GenStore(s, ref, t1)
          case Some(t2) => Some(EmitRet(t2, tail))
          case None => None)
       case None => None)
    case AIf(c, th, el) =>
      (match Gen(s, c, false, t)
       case None => None
       case Some(t1) =>
         var from := |t1.code|;
         match Gen(s, el, tail, Emit(t1, JmpIf(0)))
         case None => None
         case Some(t2) =>
           var over := |t2.code|;
           var t3 := Emit(t2, Jmp(0));
           match Gen(s, th, tail, Patch(t3, from, JmpIf(|t3.code| - from)))
           case None => None
           case Some(t4) =>
             Some(Patch(t4, over, Jmp(|t4.code| - over))))
    case ABegin(e1, e2) =>
      (match Gen(s, e1, false, t)
       case Some(t1) => Gen(s, e2, tail, Emit(t1, Pop))
       case None => None)
    case ALambda(_, _, _, _, _) =>
      (match GenLambda(s, a)
       case Some(ir) =>
         Some(EmitRet(Emit(t.(ireps := t.ireps + [ir]), LambdaI(|t.ireps|)), tail))
       case None => None)
    case ACall(fn, args) =>
      match Inlined(fn, |args|)
      case Some(p) =>
        (match GenList(s, args, t)
         case Some(t1) => Some(EmitRet(Emit(t1, PrimI(p)), tail))
         case None => None)
      case None =>
        match Gen(s, fn, false, t)
        case None => None
        case Some(t1) =>
          match GenList(s, args, t1)
          case Some(t2) => Some(Emit(t2, if tail then TailCallI(|args| + 1) else CallI(|args| + 1)))
          case None => None
  }

  function GenList(s: Scope, as': seq<AExpr>, t: Tables): (r: Option<Tables>)
    ensures r.Some? ==> |t.code| <= |r.value.code|
    decreases as', 0
  {
    if as' == [] then Some(t)
    else match Gen(s, as'[0], false, t)
      case Some(t1) => GenList(s, as'[1..], t1)
      case None => None
  }

  /** The child code object of a lambda, made in a context inside `s`. */
  function GenLambda(s: Scope, a: AExpr): Option<Irep>
    requires a.ALambda?
    decreases a, 0
  {
    var inner := Scope(a.params, a.rest, a.locals, a.captures, Some(s));
    match Gen(inner, a.body, true, NO_TABLES.(code := ActivationCode(inner)))
    case Some(t) => Some(Finish(inner, t))
    case None => None
  }

  /** `pic_codegen`: the whole program becomes the body of a procedure of no arguments. */
  function GenProgram(a: AExpr): Option<Irep> {
    match Gen(Analyzer.TOP_SCOPE, a, true, NO_TABLES)
    case Some(t) => Some(Finish(Analyzer.TOP_SCOPE, t))
    case None => None
  }

  // ---------- what earlier emissions keep ----------

  ghost predicate Extends(t: Tables, u: Tables) {
    t.code <= u.code && t.ireps <= u.ireps && t.ints <= u.ints && t.nums <= u.nums && t.pool <= u.pool
  }

  lemma ExtendsTrans(t: Tables, u: Tables, w: Tables)
    requires Extends(t, u) && Extends(u, w)
    ensures Extends(t, w)
  {
  }

  lemma EmitExtends(t: Tables, u: Tables, insn: Insn)
    requires Extends(t, u)
    ensures Extends(t, Emit(u, insn))
  {
  }

  lemma RetExtends(t: Tables, u: Tables, tail: bool)
    requires Extends(t, u)
    ensures Extends(t, EmitRet(u, tail))
  {
  }

  lemma QuoteExtends(d: Datum, t: Tables)
    ensures Extends(t, GenQuote(d, t))
  {
  }

  lemma RefExtends(s: Scope, r: Ref, t: Tables)
    requires GenRef(s, r, t).Some?
    ensures Extends(t, GenRef(s, r, t).value)
  {
  }

  lemma StoreExtends(s: Scope, r: Ref, t: Tables, u: Tables)
    requires Extends(t, u) && GenStore(s, r, u).Some?
    ensures Extends(t, GenStore(s, r, u).value)
  {
  }

  lemma LambdaExtends(t: Tables, ir: Irep)
    ensures Extends(t, t.(ireps := t.ireps + [ir]))
  {
  }

  lemma PatchExtends(t: Tables, u: Tables, i: nat, insn: Insn)
    requires Extends(t, u) && |t.code| <= i < |u.code|
    ensures Extends(t, Patch(u, i, insn))
  {
  }

  /** Code generation only appends: nothing emitted earlier changes, jump patching included. */
  lemma {:induction false} GenExtends(s: Scope, a: AExpr, tail: bool, t: Tables)
    requires Gen(s, a, tail, t).Some?
    ensures Extends(t, Gen(s, a, tail, t).value)
    decreases a, 1
  {
    hide Extends, GenQuote, GenRef, GenStore, Emit, EmitRet, Patch, Finish, ActivationCode;
    match a
    case AQuote(d) =>
      QuoteExtends(d, t);
      RetExtends(t, GenQuote(d, t), tail);
    case AVar(r) =>
      RefExtends(s, r, t);
      RetExtends(t, GenRef(s, r, t).value, tail);
    case ASet(r, e) =>
      GenExtends(s, e, false, t);
      var t1 := Gen(s, e, false, t).value;
      StoreExtends(s, r, t, t1);
      RetExtends(t, GenStore(s, r, t1).value, tail);
    case AIf(_, _, _) => GenIfExtends(s, a, tail, t);
    case ABegin(e1, e2) =>
      GenExtends(s, e1, false, t);
      var t1 := Gen(s, e1, false, t).value;
      EmitExtends(t, t1, Pop);
      GenExtends(s, e2, tail, Emit(t1, Pop));
      ExtendsTrans(t, Emit(t1, Pop), Gen(s, a, tail, t).value);
    case ALambda(_, _, _, _, _) =>
      var t1 := t.(ireps := t.ireps + [GenLambda(s, a).value]);
      LambdaExtends(t, GenLambda(s, a).value);
      EmitExtends(t, t1, LambdaI(|t.ireps|));
      RetExtends(t, Emit(t1, LambdaI(|t.ireps|)), tail);
    case ACall(fn, args) => GenCallExtends(s, a, tail, t);
  }

  lemma {:induction false} GenCallExtends(s: Scope, a: AExpr, tail: bool, t: Tables)
    requires a.ACall? && Gen(s, a, tail, t).Some?
    ensures Extends(t, Gen(s, a, tail, t).value)
    decreases a, 0
  {
    hide Extends, Emit, EmitRet;
    match Inlined(a.fn, |a.args|)
    case Some(p) =>
      GenListExtends(s, a.args, t);
      var t1 := GenList(s, a.args, t).value;
      EmitExtends(t, t1, PrimI(p));
      RetExtends(t, Emit(t1, PrimI(p)), tail);
    case None =>
      GenExtends(s, a.fn, false, t);
      var t1 := Gen(s, a.fn, false, t).value;
      GenListExtends(s, a.args, t1);
      var t2 := GenList(s, a.args, t1).value;
      ExtendsTrans(t, t1, t2);
      EmitExtends(t, t2, if tail then TailCallI(|a.args| + 1) else CallI(|a.args| + 1));
  }

  lemma {:induction false} GenIfExtends(s: Scope, a: AExpr, tail: bool, t: Tables)
    requires a.AIf? && Gen(s, a, tail, t).Some?
    ensures Extends(t, Gen(s, a, tail, t).value)
    decreases a, 0
  {
    GenExtends(s, a.c, false, t);
    var t1 := Gen(s, a.c, false, t).value;
    GenExtends(s, a.f, tail, Emit(t1, JmpIf(0)));
    var t2 := Gen(s, a.f, tail, Emit(t1, JmpIf(0))).value;
    ExtendsTrans(t, Emit(t1, JmpIf(0)), t2);
    var t3 := Emit(t2, Jmp(0));
    ExtendsTrans(t, t2, t3);
    var t3' := Patch(t3, |t1.code|, JmpIf(|t3.code| - |t1.code|));
    PatchExtends(t, t3, |t1.code|, JmpIf(|t3.code| - |t1.code|));
    GenExtends(s, a.t, tail, t3');
    var t4 := Gen(s, a.t, tail, t3').value;
    ExtendsTrans(t, t3', t4);
    PatchExtends(t, t4, |t2.code|, Jmp(|t4.code| - |t2.code|));
  }

  lemma {:induction false} GenListExtends(s: Scope, as': seq<AExpr>, t: Tables)
    requires GenList(s, as', t).Some?
    ensures Extends(t, GenList(s, as', t).value)
    decreases as', 0
  {
    if as' != [] {
      GenExtends(s, as'[0], false, t);
      var t1 := Gen(s, as'[0], false, t).value;
      GenListExtends(s, as'[1..], t1);
      ExtendsTrans(t, t1, GenList(s, as'[1..], t1).value);
    }
  }
}
