/** Which instructions calls become: instructions of their own, tail calls, and other calls. */
module CallKinds {
  import opened Util
  import opened Syntax
  import Builtins
  import Source
  import Arguments
  import C = Codegen
  import H = HeapMachine
  import L = LazyMachine

  datatype Kind = Inline | Tail | Plain

  predicate Is(i: Insn, k: Kind) {
    match k
    case Inline => i.PrimI?
    case Tail => i.TailCallI?
    case Plain => i.CallI?
  }

  function Emitted(code: seq<Insn>, k: Kind): nat {
    if code == [] then 0 else Emitted(code[..|code| - 1], k) + if Is(code[|code| - 1], k) then 1 else 0
  }

  /** A call of a global procedure that has an instruction, with the arguments that the instruction takes. */
  predicate HasInsn(fn: AExpr, argc: nat) {
    && fn.AVar? && fn.ref.GRef? && Builtins.InlineName(fn.ref.x).Some?
    && argc == Builtins.InlineArity(Builtins.InlineName(fn.ref.x).value)
  }

  function One(b: bool): nat {
    if b then 1 else 0
  }

  /** The calls of each kind in a form, inner lambdas left out. A call is in tail position when nothing remains to be
      done after it. */
  function Written(a: AExpr, tail: bool, k: Kind): nat
    decreases a, 1
  {
    match a
    case AQuote(_) | AVar(_) | ALambda(_, _, _, _, _) => 0
    case ASet(_, e) => Written(e, false, k)
    case AIf(c, t, f) => Written(c, false, k) + Written(t, tail, k) + Written(f, tail, k)
    case ABegin(e1, e2) => Written(e1, false, k) + Written(e2, tail, k)
    case ACall(fn, args) =>
      WrittenAll(args, k) +
      if HasInsn(fn, |args|) then One(k == Inline)
      else Written(fn, false, k) + One(k == if tail then Tail else Plain)
  }

  function WrittenAll(as': seq<AExpr>, k: Kind): nat
    decreases as', 0
  {
    if as' == [] then 0 else Written(as'[0], false, k) + WrittenAll(as'[1..], k)
  }

  lemma EmittedOne(code: seq<Insn>, i: Insn, k: Kind)
    ensures Emitted(code + [i], k) == Emitted(code, k) + One(Is(i, k))
  {
    assert (code + [i])[..|code|] == code;
  }

  lemma {:induction false} EmittedSame(code: seq<Insn>, j: nat, i: Insn, k: Kind)
    requires j < |code| && Is(code[j], k) == Is(i, k)
    ensures Emitted(code[j := i], k) == Emitted(code, k)
    decreases |code|
  {
    var n := |code| - 1;
    if j < n {
      EmittedSame(code[..n], j, i, k);
      assert code[j := i][..n] == code[..n][j := i];
    } else {
      assert code[j := i][..n] == code[..n];
    }
  }

  lemma EmitCount(t: C.Tables, i: Insn, k: Kind)
    ensures Emitted(C.Emit(t, i).code, k) == Emitted(t.code, k) + One(Is(i, k))
  {
    EmittedOne(t.code, i, k);
  }

  lemma RetCount(t: C.Tables, tail: bool, k: Kind)
    ensures Emitted(C.EmitRet(t, tail).code, k) == Emitted(t.code, k)
  {
    EmitCount(t, RetI, k);
  }

  lemma QuoteCount(d: Datum, t: C.Tables, k: Kind)
    ensures Emitted(C.GenQuote(d, t).code, k) == Emitted(t.code, k)
  {
    var t1 := C.GenQuote(d, t);
    assert t1.code == t.code + [t1.code[|t.code|]];
    EmittedOne(t.code, t1.code[|t.code|], k);
  }

  lemma RefCount(s: Scope, r: Ref, t: C.Tables, k: Kind)
    ensures C.GenRef(s, r, t).Some? ==> Emitted(C.GenRef(s, r, t).value.code, k) == Emitted(t.code, k)
    ensures C.GenStore(s, r, t).Some? ==> Emitted(C.GenStore(s, r, t).value.code, k) == Emitted(t.code, k)
  {
    if C.GenRef(s, r, t).Some? {
      var t1 := C.GenRef(s, r, t).value;
      assert t1.code == t.code + [t1.code[|t.code|]];
      EmittedOne(t.code, t1.code[|t.code|], k);
    }
    if C.GenStore(s, r, t).Some? {
      var t1 := C.GenStore(s, r, t).value;
      assert t1.code == t.code + [t1.code[|t.code|]];
      EmittedOne(t.code, t1.code[|t.code|], k);
    }
  }

  /** Every call becomes one instruction of its kind, and there are no others: what has an instruction is not called,
      and what is called in tail position is a tail call. */
  lemma {:induction false} GenCounts(s: Scope, a: AExpr, tail: bool, t: C.Tables, k: Kind)
    requires C.Gen(s, a, tail, t).Some?
    ensures Emitted(C.Gen(s, a, tail, t).value.code, k) == Emitted(t.code, k) + Written(a, tail, k)
    decreases a, 1
  {
    hide C.GenQuote, C.GenRef, C.GenStore, Emitted, C.Emit, C.EmitRet;
    match a
    case AQuote(d) =>
      QuoteCount(d, t, k);
      RetCount(C.GenQuote(d, t), tail, k);
    case AVar(ref) =>
      RefCount(s, ref, t, k);
      RetCount(C.GenRef(s, ref, t).value, tail, k);
    case ASet(ref, e) =>
      GenCounts(s, e, false, t, k);
      var t1 := C.Gen(s, e, false, t).value;
      RefCount(s, ref, t1, k);
      RetCount(C.GenStore(s, ref, t1).value, tail, k);
    case AIf(_, _, _) => IfCounts(s, a, tail, t, k);
    case ABegin(e1, e2) =>
      GenCounts(s, e1, false, t, k);
      var t1 := C.Gen(s, e1, false, t).value;
      EmitCount(t1, Pop, k);
      GenCounts(s, e2, tail, C.Emit(t1, Pop), k);
    case ALambda(_, _, _, _, _) =>
      var t1 := t.(ireps := t.ireps + [C.GenLambda(s, a).value]);
      EmitCount(t1, LambdaI(|t.ireps|), k);
      RetCount(C.Emit(t1, LambdaI(|t.ireps|)), tail, k);
    case ACall(_, _) => CallCounts(s, a, tail, t, k);
  }

  lemma {:induction false} IfCounts(s: Scope, a: AExpr, tail: bool, t: C.Tables, k: Kind)
    requires a.AIf? && C.Gen(s, a, tail, t).Some?
    ensures Emitted(C.Gen(s, a, tail, t).value.code, k) == Emitted(t.code, k) + Written(a, tail, k)
    decreases a, 0
  {
    hide *;
    IfFirst(s, a, tail, t);
    IfWritten(a, tail, k);
    GenCounts(s, a.c, false, t, k);
    var t1 := C.Gen(s, a.c, false, t).value;
    EmitCount(t1, JmpIf(0), k);
    GenCounts(s, a.f, tail, C.Emit(t1, JmpIf(0)), k);
    var t2 := C.Gen(s, a.f, tail, C.Emit(t1, JmpIf(0))).value;
    var t3 := C.Emit(t2, Jmp(0));
    EmitCount(t2, Jmp(0), k);
    JumpKept(s, a, tail, t, t1, t2, t3);
    JumpsAre(k);
    var t3' := C.Patch(t3, |t1.code|, JmpIf(|t3.code| - |t1.code|));
    PatchCount(t3, |t1.code|, JmpIf(|t3.code| - |t1.code|), k);
    GenCounts(s, a.t, tail, t3', k);
    var t4 := C.Gen(s, a.t, tail, t3').value;
    PatchCount(t4, |t2.code|, Jmp(|t4.code| - |t2.code|), k);
  }

  lemma PatchCount(t: C.Tables, j: nat, i: Insn, k: Kind)
    requires j < |t.code| && Is(t.code[j], k) == Is(i, k)
    ensures Emitted(C.Patch(t, j, i).code, k) == Emitted(t.code, k)
  {
    EmittedSame(t.code, j, i, k);
  }

  lemma JumpsAre(k: Kind)
    ensures forall n :: !Is(Jmp(n), k) && !Is(JmpIf(n), k)
    ensures One(false) == 0
  {
  }

  lemma IfWritten(a: AExpr, tail: bool, k: Kind)
    requires a.AIf?
    ensures Written(a, tail, k) == Written(a.c, false, k) + Written(a.t, tail, k) + Written(a.f, tail, k)
  {
  }

  lemma IfFirst(s: Scope, a: AExpr, tail: bool, t: C.Tables)
    requires a.AIf? && C.Gen(s, a, tail, t).Some?
    ensures C.Gen(s, a.c, false, t).Some?
    ensures C.Gen(s, a.f, tail, C.Emit(C.Gen(s, a.c, false, t).value, JmpIf(0))).Some?
  {
    hide C.GenQuote, C.GenRef, C.GenStore, C.GenList;
  }

  /** The places that are patched hold jumps. */
  lemma JumpKept(s: Scope, a: AExpr, tail: bool, t: C.Tables, t1: C.Tables, t2: C.Tables, t3: C.Tables)
    requires a.AIf? && C.Gen(s, a, tail, t).Some? && C.Gen(s, a.c, false, t) == Some(t1)
    requires C.Gen(s, a.f, tail, C.Emit(t1, JmpIf(0))) == Some(t2) && t3 == C.Emit(t2, Jmp(0))
    ensures |t1.code| < |t3.code| && t3.code[|t1.code|] == JmpIf(0)
    ensures var t3' := C.Patch(t3, |t1.code|, JmpIf(|t3.code| - |t1.code|));
      C.Gen(s, a.t, tail, t3').Some? &&
      var t4 := C.Gen(s, a.t, tail, t3').value;
      && |t2.code| < |t4.code| && t4.code[|t2.code|] == Jmp(0)
      && C.Gen(s, a, tail, t) == Some(C.Patch(t4, |t2.code|, Jmp(|t4.code| - |t2.code|)))
  {
    hide C.GenQuote, C.GenRef, C.GenStore, C.GenList;
    C.GenExtends(s, a.f, tail, C.Emit(t1, JmpIf(0)));
    assert t2.code[|t1.code|] == C.Emit(t1, JmpIf(0)).code[|t1.code|];
    var t3' := C.Patch(t3, |t1.code|, JmpIf(|t3.code| - |t1.code|));
    C.GenExtends(s, a.t, tail, t3');
    assert t3'.code[|t2.code|] == Jmp(0);
  }

  lemma {:induction false} CallCounts(s: Scope, a: AExpr, tail: bool, t: C.Tables, k: Kind)
    requires a.ACall? && C.Gen(s, a, tail, t).Some?
    ensures Emitted(C.Gen(s, a, tail, t).value.code, k) == Emitted(t.code, k) + Written(a, tail, k)
    decreases a, 0
  {
    hide Emitted, C.Emit, C.EmitRet, Builtins.InlineName, Builtins.InlineArity;
    if HasInsn(a.fn, |a.args|) {
      var p := C.Inlined(a.fn, |a.args|).value;
      ListCounts(s, a.args, t, k);
      var t1 := C.GenList(s, a.args, t).value;
      EmitCount(t1, PrimI(p), k);
      RetCount(C.Emit(t1, PrimI(p)), tail, k);
    } else {
      GenCounts(s, a.fn, false, t, k);
      var t1 := C.Gen(s, a.fn, false, t).value;
      ListCounts(s, a.args, t1, k);
      var t2 := C.GenList(s, a.args, t1).value;
      EmitCount(t2, if tail then TailCallI(|a.args| + 1) else CallI(|a.args| + 1), k);
    }
  }

  lemma {:induction false} ListCounts(s: Scope, as': seq<AExpr>, t: C.Tables, k: Kind)
    requires C.GenList(s, as', t).Some?
    ensures Emitted(C.GenList(s, as', t).value.code, k) == Emitted(t.code, k) + WrittenAll(as', k)
    decreases as', 0
  {
    if as' != [] {
      GenCounts(s, as'[0], false, t, k);
      ListCounts(s, as'[1..], C.Gen(s, as'[0], false, t).value, k);
    }
  }

  /** A tail call takes the place of its caller: however often it happens, there are no more call infos, and the stack
      holds what lies below the caller and the frame of the callee. */
  lemma TailSpace(s: L.State, n: nat, ir: Irep, cxt: Option<nat>) returns (s1: L.State)
    requires |s.cis| >= 2 && 0 < n && L.Ci(s).fp + n <= |s.stack|
    requires s.stack[|s.stack| - n] == Proc(H.Closure(ir, cxt))
    requires ir.argc > 0 && ir.localc >= if ir.varg then 1 else 0
    ensures if n == ir.argc || (n > ir.argc && ir.varg) then
        && L.DoTailCall(s, n) == L.Next(s1) && |s1.cis| == |s.cis|
        && |s1.stack| == L.Ci(s).fp + ir.argc + ir.localc && s1.stack[..L.Ci(s).fp] == s.stack[..L.Ci(s).fp]
      else L.DoTailCall(s, n) == L.Fault
  {
    var fp := L.Ci(s).fp;
    var s2 := L.TearOff(s, L.Ci(s).cxt).(stack := s.stack[..fp] + s.stack[|s.stack| - n..],
                                         cis := s.cis[..|s.cis| - 1], ip := L.Ci(s).ip);
    assert s2.stack[|s2.stack| - n] == s.stack[|s.stack| - n];
    s1 := Arguments.MachineCall(s2, n, ir, cxt);
    if n == ir.argc || (n > ir.argc && ir.varg) {
      assert s1.stack[..fp] == s1.stack[..fp + 1][..fp] == s2.stack[..fp + 1][..fp] == s.stack[..fp];
    }
    hide L.EnterProc;
  }
}
