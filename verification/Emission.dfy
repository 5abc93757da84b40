/** `codegen` as it runs: a context per lambda, whose code and constant tables grow by doubling, and whose
    jumps are patched once their targets are known. */
module Emission {
  import opened Util
  import opened Syntax
  import Builtins
  import A = Analyzer
  import C = Codegen
  import ScopeMarking

  const PIC_ISEQ_SIZE: nat := 1024
  const PIC_IREP_SIZE: nat := 8
  const PIC_POOL_SIZE: nat := 8

  /** `pic_vm_proc`. */
  const VM_PROCS: seq<(Name, Prim)> := [
    ("cons", Prim.Cons), ("car", Prim.Car), ("cdr", Prim.Cdr), ("null?", Prim.NullP), ("symbol?", Prim.SymbolP),
    ("pair?", Prim.PairP), ("not", Prim.Not), ("=", Prim.NumEq), ("<", Prim.NumLt), ("<=", Prim.NumLe),
      (">", Prim.NumGt),
    (">=", Prim.NumGe), ("+", Prim.Add), ("-", Prim.Sub), ("*", Prim.Mul)]

  lemma VmProcsAre(x: Name)
    ensures forall i :: 0 <= i < |VM_PROCS| ==> Builtins.InlineName(VM_PROCS[i].0) == Some(VM_PROCS[i].1)
    ensures Builtins.InlineName(x).Some? ==> exists i :: 0 <= i < |VM_PROCS| && VM_PROCS[i].0 == x
  {
    if Builtins.InlineName(x).Some? {
      if x == "cons" { assert VM_PROCS[0].0 == x; }
      else if x == "car" { assert VM_PROCS[1].0 == x; }
      else if x == "cdr" { assert VM_PROCS[2].0 == x; }
      else if x == "null?" { assert VM_PROCS[3].0 == x; }
      else if x == "symbol?" { assert VM_PROCS[4].0 == x; }
      else if x == "pair?" { assert VM_PROCS[5].0 == x; }
      else if x == "not" { assert VM_PROCS[6].0 == x; }
      else if x == "=" { assert VM_PROCS[7].0 == x; }
      else if x == "<" { assert VM_PROCS[8].0 == x; }
      else if x == "<=" { assert VM_PROCS[9].0 == x; }
      else if x == ">" { assert VM_PROCS[10].0 == x; }
      else if x == ">=" { assert VM_PROCS[11].0 == x; }
      else if x == "+" { assert VM_PROCS[12].0 == x; }
      else if x == "-" { assert VM_PROCS[13].0 == x; }
      else { assert VM_PROCS[14].0 == x; }
    }
  }

  /** The loop over `pic_vm_proc`: the instruction of that name. */
  method FindProc(x: Name) returns (p: Option<Prim>)
    ensures p == Builtins.InlineName(x)
  {
    VmProcsAre(x);
    for i := 0 to |VM_PROCS|
      invariant forall j :: 0 <= j < i ==> VM_PROCS[j].0 != x
    {
      if VM_PROCS[i].0 == x { return Some(VM_PROCS[i].1); }
    }
    p := None;
  }

  /** `check_size`: an array that is full is replaced by one of twice the size. */
  method CheckSize<T(0)>(a: array<T>, len: nat) returns (b: array<T>)
    requires len <= a.Length && 0 < a.Length
    ensures len < b.Length && b[..len] == a[..len] && (b == a || fresh(b))
  {
    b := a;
    if len >= a.Length {
      b := new T[a.Length * 2];
      for i := 0 to len
        invariant b[..i] == a[..i]
        invariant fresh(b) && b.Length == a.Length * 2
      {
        b[i] := a[i];
      }
    }
  }

  class CodegenContext {
    const params: seq<Name>
    const rest: Option<Name>
    /** The rest list is counted as a local. */
    const locals: seq<Name>
    const captures: seq<Name>
    const up: CodegenContext?
    ghost const scope: Scope

    var code: array<Insn>
    var clen: nat
    var irep: array<Irep>
    var ilen: nat
    var ints: array<int>
    var klen: nat
    var nums: array<real>
    var flen: nat
    var pool: array<Datum>
    var plen: nat

    /** The contexts around this one are those of the scopes around its scope. */
    ghost predicate Linked()
      decreases scope
    {
      && scope == Scope(params, rest, scope.locals, captures, if up == null then None else Some(up.scope))
      && locals == (if rest.Some? then [rest.value] else []) + scope.locals
      && (up != null ==> up.Linked())
    }

    ghost function Arrays(): set<object>
      reads this
    {
      {code as object, irep as object, ints as object, nums as object, pool as object}
    }

    ghost predicate Valid()
      reads this
    {
      && clen <= code.Length && ilen <= irep.Length && klen <= ints.Length && flen <= nums.Length && plen <= pool.Length
      && 0 < code.Length && 0 < irep.Length && 0 < ints.Length && 0 < nums.Length && 0 < pool.Length
      && Linked()
    }

    lemma ValidLinked()
      requires Valid()
      ensures Linked()
    {
    }

    /** What has been emitted so far. */
    ghost function Emitted(): C.Tables
      requires Valid()
      reads this, Arrays()
    {
      C.Tables(code[..clen], irep[..ilen], ints[..klen], nums[..flen], pool[..plen])
    }

    lemma CodeLength()
      requires Valid()
      ensures clen == |Emitted().code|
    {
    }

    /** `codegen_context_init` up to the activation. */
    constructor (params: seq<Name>, rest: Option<Name>, locals: seq<Name>, captures: seq<Name>, up: CodegenContext?)
      requires up != null ==> up.Linked()
      ensures Valid() && fresh(Arrays()) && Emitted() == C.NO_TABLES
      ensures scope == Scope(params, rest, locals, captures, if up == null then None else Some(up.scope))
    {
      this.params := params;
      this.rest := rest;
      this.locals := (if rest.Some? then [rest.value] else []) + locals;
      this.captures := captures;
      this.up := up;
      this.scope := Scope(params, rest, locals, captures, if up == null then None else Some(up.scope));
      this.code, this.clen := new Insn[PIC_ISEQ_SIZE], 0;
      this.irep, this.ilen := new Irep[PIC_IREP_SIZE], 0;
      this.ints, this.klen := new int[PIC_POOL_SIZE], 0;
      this.nums, this.flen := new real[PIC_POOL_SIZE], 0;
      this.pool, this.plen := new Datum[PIC_POOL_SIZE], 0;
    }

    // ---------- appending ----------

    method Emit(insn: Insn)
      requires Valid()
      modifies this, Arrays()
      ensures Valid() && Emitted() == C.Emit(old(Emitted()), insn)
      ensures forall o :: o in Arrays() ==> o in old(Arrays()) || fresh(o)
    {
      code := CheckSize(code, clen);
      code[clen] := insn;
      clen := clen + 1;
    }

    method EmitRet(tail: bool)
      requires Valid()
      modifies this, Arrays()
      ensures Valid() && Emitted() == C.EmitRet(old(Emitted()), tail)
      ensures forall o :: o in Arrays() ==> o in old(Arrays()) || fresh(o)
    {
      if tail { Emit(RetI); }
    }

    /** A jump distance is filled in. */
    method Patch(i: nat, insn: Insn)
      requires Valid() && i < |Emitted().code|
      modifies this, Arrays()
      ensures Valid() && Emitted() == C.Patch(old(Emitted()), i, insn)
      ensures forall o :: o in Arrays() ==> o in old(Arrays()) || fresh(o)
    {
      code[i] := insn;
    }

    method AddInt(x: int) returns (i: nat)
      requires Valid()
      modifies this, Arrays()
      ensures Valid() && Emitted() == old(Emitted()).(ints := old(Emitted()).ints + [x]) && i == |old(Emitted()).ints|
      ensures forall o :: o in Arrays() ==> o in old(Arrays()) || fresh(o)
    {
      ints := CheckSize(ints, klen);
      i := klen;
      klen := klen + 1;
      ints[i] := x;
    }

    method AddNum(x: real) returns (i: nat)
      requires Valid()
      modifies this, Arrays()
      ensures Valid() && Emitted() == old(Emitted()).(nums := old(Emitted()).nums + [x]) && i == |old(Emitted()).nums|
      ensures forall o :: o in Arrays() ==> o in old(Arrays()) || fresh(o)
    {
      nums := CheckSize(nums, flen);
      i := flen;
      flen := flen + 1;
      nums[i] := x;
    }

    method AddConst(x: Datum) returns (i: nat)
      requires Valid()
      modifies this, Arrays()
      ensures Valid() && Emitted() == old(Emitted()).(pool := old(Emitted()).pool + [x]) && i == |old(Emitted()).pool|
      ensures forall o :: o in Arrays() ==> o in old(Arrays()) || fresh(o)
    {
      pool := CheckSize(pool, plen);
      i := plen;
      plen := plen + 1;
      pool[i] := x;
    }

    // ---------- finding variables ----------

    /** `index_capture` */
    method IndexCapture(sym: Name, depth: nat) returns (i: int)
      requires Linked() && A.Outer(scope, depth).Some?
      ensures if i == -1 then C.IndexCapture(scope, sym, depth) == None
        else i >= 0 && C.IndexCapture(scope, sym, depth) == Some(i)
    {
      var cxt: CodegenContext := this;
      var d := depth;
      while d > 0
        invariant cxt.Linked() && A.Outer(cxt.scope, d) == A.Outer(scope, depth)
      {
        cxt := cxt.up;
        d := d - 1;
      }
      i := 0;
      while i < |cxt.captures|
        invariant 0 <= i <= |cxt.captures| && sym !in cxt.captures[..i]
      {
        if cxt.captures[i] == sym {
          FirstIndex(cxt.captures, sym, i);
          return;
        }
        i := i + 1;
      }
      assert cxt.captures[..|cxt.captures|] == cxt.captures;
      i := -1;
    }

    lemma OwnNames()
      requires Linked()
      ensures Names(scope) == params + locals && scope.params == params && scope.captures == captures
        && scope.rest == rest
      ensures |locals| == (if rest.Some? then 1 else 0) + |scope.locals|
    {
    }

    /** `index_local` */
    method IndexLocal(sym: Name) returns (i: int)
      requires Linked()
      ensures if i == -1 then C.IndexLocal(scope, sym) == None else i >= 0 && C.IndexLocal(scope, sym) == Some(i)
    {
      hide Linked;
      OwnNames();
      i := 0;
      while i < |params|
        invariant 0 <= i <= |params| && sym !in params[..i]
      {
        if params[i] == sym {
          PlaceIn(params, locals, sym, i);
          return i + 1;
        }
        i := i + 1;
      }
      assert params[..|params|] == params;
      i := 0;
      while i < |locals|
        invariant 0 <= i <= |locals| && sym !in locals[..i]
      {
        if locals[i] == sym {
          PlaceAfter(params, locals, sym, i);
          return |params| + i + 1;
        }
        i := i + 1;
      }
      assert locals[..|locals|] == locals;
      i := -1;
    }

    /** The slot of a variable of the frame itself. */
    method IndexOwn(sym: Name) returns (n: int)
      requires Linked()
      ensures if n == -1 then C.IndexOwn(scope, sym) == None else n >= 0 && C.IndexOwn(scope, sym) == Some(n)
    {
      var i := IndexCapture(sym, 0);
      if i != -1 {
        assert |Names(scope)| == |params| + |locals|;
        n := i + |params| + |locals| + 1;
      } else {
        n := IndexLocal(sym);
      }
    }

    /** `create_activation` */
    method CreateActivation()
      requires Valid() && A.CapturesOk(scope)
      modifies this, Arrays()
      ensures Valid() && Emitted() == old(Emitted()).(code := old(Emitted()).code + C.ActivationCode(scope))
      ensures forall o :: o in Arrays() ==> o in old(Arrays()) || fresh(o)
    {
      hide Emitted, Valid, Linked, C.ActivationCode, C.Activation, C.IndexLocal, A.CapturesOk;
      ValidLinked();
      ghost var t := Emitted();
      OwnNames();
      NoActivation(scope);
      var i := 0;
      while i < |captures|
        invariant 0 <= i <= |captures| && Valid()
        invariant forall o :: o in Arrays() ==> o in old(Arrays()) || fresh(o)
        invariant Emitted() == t.(code := t.code + C.ActivationCode(scope)[..i])
      {
        var sym := captures[i];
        var n := IndexLocal(sym);
        NextActivation(scope, i, n);
        ghost var insn := if n <= |params| || rest == Some(sym) then LRefI(n) else PushUndef;
        assert t.code + (C.ActivationCode(scope)[..i] + [insn]) == t.code + C.ActivationCode(scope)[..i] + [insn];
        if n <= |params| || rest == Some(sym) {
          Emit(LRefI(n));
        } else {
          Emit(PushUndef);
        }
        i := i + 1;
      }
      assert C.ActivationCode(scope)[..|captures|] == C.ActivationCode(scope);
    }

    /** `codegen_context_destroy`: the tables, cut to their lengths. */
    method Destroy() returns (ir: Irep)
      requires Valid()
      ensures ir == C.Finish(scope, old(Emitted()))
    {
      ir := Irep(|params| + 1, |locals|, |captures|, rest.Some?, code[..clen], irep[..ilen], ints[..klen], nums[..flen],
                 pool[..plen]);
    }

    // ---------- forms ----------

    /** `codegen_quote` */
    method CodegenQuote(d: Datum, tail: bool)
      requires Valid()
      modifies this, Arrays()
      ensures Valid() && Emitted() == C.EmitRet(C.GenQuote(d, old(Emitted())), tail)
      ensures forall o :: o in Arrays() ==> o in old(Arrays()) || fresh(o)
    {
      hide Emitted, Valid, Linked, Arrays, C.EmitRet;
      ValidLinked();
      match d {
        case DUndef => Emit(PushUndef);
        case DBool(b) => Emit(if b then PushTrue else PushFalse);
        case DInt(x) =>
          var i := AddInt(x);
          Emit(PushInt(i));
        case DFlo(x) =>
          var i := AddNum(x);
          Emit(PushFloat(i));
        case DNil => Emit(PushNil);
        case DEof => Emit(PushEof);
        case DChar(x) =>
          var i := AddInt(x);
          Emit(PushChar(i));
        case DSym(_) | DPair(_, _) =>
          var i := AddConst(d);
          Emit(PushConst(i));
      }
      EmitRet(tail);
    }

    /** `codegen_ref` */
    method CodegenRef(r: Ref, tail: bool, ghost x: Name)
      requires Valid() && A.AddressedRef(scope, x, r)
      modifies this, Arrays()
      ensures Valid() && forall o :: o in Arrays() ==> o in old(Arrays()) || fresh(o)
      ensures C.GenRef(scope, r, old(Emitted())).Some?
        && Emitted() == C.EmitRet(C.GenRef(scope, r, old(Emitted())).value, tail)
    {
      hide Emitted, Valid, Linked, C.EmitRet, A.AddressedRef, C.IndexCapture, C.IndexOwn, A.Outer;
      ValidLinked();
      HasIndex(scope, x, r);
      match r {
        case GRef(name) =>
          var i := AddConst(DSym(name));
          Emit(GRefI(i));
        case CRef(depth, name) =>
          var i := IndexCapture(name, depth);
          Emit(CRefI(depth, i));
        case LRef(name) =>
          var n := IndexOwn(name);
          Emit(LRefI(n));
      }
      EmitRet(tail);
    }

    /** `codegen`: emits what `Gen` says, or reports an assignment to an inlined procedure. */
    method Codegen(a: AExpr, tail: bool, ghost e: Expr) returns (ok: bool)
      requires Valid() && A.Addressed(scope, e, a)
      modifies this, Arrays()
      ensures Valid() && forall o :: o in Arrays() ==> o in old(Arrays()) || fresh(o)
      ensures ok <==> C.Gen(scope, a, tail, old(Emitted())).Some?
      ensures ok ==> Emitted() == C.Gen(scope, a, tail, old(Emitted())).value
      decreases a, 1
    {
      hide Emitted, Valid, Linked, C.EmitRet, C.GenRef, C.GenStore, C.GenQuote, C.Emit, A.AddressedRef, C.Finish;
      match a {
        case AQuote(d) =>
          CodegenQuote(d, tail);
          ok := true;
        case AVar(r) =>
          CodegenRef(r, tail, e.x);
          ok := true;
        case ASet(r, v) => ok := CodegenSet(a, tail, e);
        case AIf(_, _, _) => ok := CodegenIf(a, tail, e);
        case ABegin(e1, e2) =>
          ok := Codegen(e1, false, e.e1);
          if ok {
            Emit(Pop);
            ok := Codegen(e2, tail, e.e2);
          }
        case ALambda(_, _, _, _, _) => ok := CodegenLambda(a, tail, e);
        case ACall(_, _) => ok := CodegenCall(a, tail, e);
      }
    }

    /** `codegen_set` */
    method CodegenSet(a: AExpr, tail: bool, ghost e: Expr) returns (ok: bool)
      requires Valid() && A.Addressed(scope, e, a) && a.ASet?
      modifies this, Arrays()
      ensures Valid() && forall o :: o in Arrays() ==> o in old(Arrays()) || fresh(o)
      ensures ok <==> C.Gen(scope, a, tail, old(Emitted())).Some?
      ensures ok ==> Emitted() == C.Gen(scope, a, tail, old(Emitted())).value
      decreases a, 0
    {
      hide Emitted, Valid, Linked, C.EmitRet, C.Emit, A.AddressedRef, C.Gen;
      SetUnfold(scope, e, a, tail, Emitted());
      ok := Codegen(a.e, false, e.e);
      if ok {
        ok := CodegenStore(a.ref, e.x);
        if ok { EmitRet(tail); }
      }
    }

    /** The store of an assignment. */
    method CodegenStore(r: Ref, ghost x: Name) returns (ok: bool)
      requires Valid() && A.AddressedRef(scope, x, r)
      modifies this, Arrays()
      ensures Valid() && forall o :: o in Arrays() ==> o in old(Arrays()) || fresh(o)
      ensures ok <==> C.GenStore(scope, r, old(Emitted())).Some?
      ensures ok ==> Emitted() == C.GenStore(scope, r, old(Emitted())).value
    {
      hide Emitted, Valid, Linked, C.EmitRet, A.AddressedRef, C.IndexCapture, C.IndexOwn, A.Outer, Builtins.InlineName;
      ValidLinked();
      HasIndex(scope, x, r);
      ok := true;
      match r {
        case GRef(name) =>
          var p := FindProc(name);
          if p.Some? { return false; }
          var i := AddConst(DSym(name));
          Emit(GSetI(i));
        case CRef(depth, name) =>
          var i := IndexCapture(name, depth);
          Emit(CSetI(depth, i));
        case LRef(name) =>
          var n := IndexOwn(name);
          Emit(LSetI(n));
      }
    }

    /** `codegen_if` */
    method CodegenIf(a: AExpr, tail: bool, ghost e: Expr) returns (ok: bool)
      requires Valid() && A.Addressed(scope, e, a) && a.AIf?
      modifies this, Arrays()
      ensures Valid() && forall o :: o in Arrays() ==> o in old(Arrays()) || fresh(o)
      ensures ok <==> C.Gen(scope, a, tail, old(Emitted())).Some?
      ensures ok ==> Emitted() == C.Gen(scope, a, tail, old(Emitted())).value
      decreases a, 0, 1
    {
      hide Emitted, Valid, Linked, Arrays, C.Gen, C.Patch, BeforeThen, A.Addressed;
      IfUnfold(scope, e, a, tail, Emitted());
      var over;
      ok, over := CodegenElse(a, tail, e);
      if !ok { return; }
      ok := Codegen(a.t, tail, e.t);
      if !ok { return; }
      CodeLength();
      Patch(over, Jmp(clen - over));
    }

    /** Everything before the branch for true values. */
    method CodegenElse(a: AExpr, tail: bool, ghost e: Expr) returns (ok: bool, over: nat)
      requires Valid() && A.Addressed(scope, e, a) && a.AIf?
      modifies this, Arrays()
      ensures Valid() && forall o :: o in Arrays() ==> o in old(Arrays()) || fresh(o)
      ensures ok <==> BeforeThen(scope, a, tail, old(Emitted())).Some?
      ensures ok ==> (Emitted(), over) == BeforeThen(scope, a, tail, old(Emitted())).value
      decreases a, 0, 0
    {
      hide Emitted, Valid, Linked, Arrays, C.Gen, C.Patch, C.Emit, BeforeThen, A.Addressed;
      IfUnfold(scope, e, a, tail, Emitted());
      ElseUnfold(scope, a, tail, Emitted());
      over := 0;
      ok := Codegen(a.c, false, e.c);
      if !ok { return; }
      CodeLength();
      var from := clen;
      Emit(JmpIf(0));
      ok := Codegen(a.f, tail, e.f);
      if !ok { return; }
      CodeLength();
      over := clen;
      Emit(Jmp(0));
      CodeLength();
      Patch(from, JmpIf(clen - from));
    }

    /** `codegen_lambda` */
    method CodegenLambda(a: AExpr, tail: bool, ghost e: Expr) returns (ok: bool)
      requires Valid() && A.Addressed(scope, e, a) && a.ALambda?
      modifies this, Arrays()
      ensures Valid() && forall o :: o in Arrays() ==> o in old(Arrays()) || fresh(o)
      ensures ok <==> C.Gen(scope, a, tail, old(Emitted())).Some?
      ensures ok ==> Emitted() == C.Gen(scope, a, tail, old(Emitted())).value
      decreases a, 0, 1
    {
      hide Emitted, Valid, Linked, C.EmitRet, C.Emit, C.Gen, C.GenLambda, A.Addressed;
      ValidLinked();
      LambdaUnfold(scope, a, tail, Emitted());
      var child;
      ok, child := CodegenChild(a, e);
      if ok {
        var i := AddIrep(child);
        Emit(LambdaI(i));
        EmitRet(tail);
      }
    }

    /** The code object of a lambda, made in a context of its own inside this one. */
    method CodegenChild(a: AExpr, ghost e: Expr) returns (ok: bool, child: Irep)
      requires Linked() && A.Addressed(scope, e, a) && a.ALambda?
      ensures ok <==> C.GenLambda(scope, a).Some?
      ensures ok ==> child == C.GenLambda(scope, a).value
      decreases a, 0, 0
    {
      hide Emitted, Valid, Linked, C.Finish, C.Gen, C.ActivationCode, A.CapturesOk, A.Addressed;
      ChildUnfold(scope, e, a);
      var inner := new CodegenContext(a.params, a.rest, a.locals, a.captures, this);
      inner.CreateActivation();
      ok := inner.Codegen(a.body, true, e.body);
      if ok {
        child := inner.Destroy();
      } else {
        child := Irep(0, 0, 0, false, [], [], [], [], []);
      }
    }

    method AddIrep(ir: Irep) returns (i: nat)
      requires Valid()
      modifies this, Arrays()
      ensures Valid() && Emitted() == old(Emitted()).(ireps := old(Emitted()).ireps + [ir])
        && i == |old(Emitted()).ireps|
      ensures forall o :: o in Arrays() ==> o in old(Arrays()) || fresh(o)
    {
      irep := CheckSize(irep, ilen);
      i := ilen;
      ilen := ilen + 1;
      irep[i] := ir;
    }

    /** `codegen_call` */
    method CodegenCall(a: AExpr, tail: bool, ghost e: Expr) returns (ok: bool)
      requires Valid() && A.Addressed(scope, e, a) && a.ACall?
      modifies this, Arrays()
      ensures Valid() && forall o :: o in Arrays() ==> o in old(Arrays()) || fresh(o)
      ensures ok <==> C.Gen(scope, a, tail, old(Emitted())).Some?
      ensures ok ==> Emitted() == C.Gen(scope, a, tail, old(Emitted())).value
      decreases a, 0
    {
      hide Emitted, Valid, Linked, C.EmitRet, C.Emit, C.Gen, C.GenList, A.Addressed, Builtins.InlineName,
        Builtins.InlineArity;
      CallUnfold(scope, e, a, tail, Emitted());
      if a.fn.AVar? && a.fn.ref.GRef? {
        var p := FindProc(a.fn.ref.x);
        if p.Some? && |a.args| == Builtins.InlineArity(p.value) {
          ok := CodegenArgs(a, e);
          if ok {
            Emit(PrimI(p.value));
            EmitRet(tail);
          }
          return;
        }
      }
      ok := Codegen(a.fn, false, e.fn);
      if !ok { return; }
      ok := CodegenArgs(a, e);
      if ok { Emit(if tail then TailCallI(|a.args| + 1) else CallI(|a.args| + 1)); }
    }

    /** The arguments, from left to right. */
    method CodegenArgs(a: AExpr, ghost e: Expr) returns (ok: bool)
      requires Valid() && a.ACall? && e.Call? && A.AddressedList(scope, e.args, a.args)
      modifies this, Arrays()
      ensures Valid() && forall o :: o in Arrays() ==> o in old(Arrays()) || fresh(o)
      ensures ok <==> C.GenList(scope, a.args, old(Emitted())).Some?
      ensures ok ==> Emitted() == C.GenList(scope, a.args, old(Emitted())).value
      decreases a, 0, 0
    {
      hide Emitted, Valid, Linked, C.Gen, A.Addressed, A.AddressedList, C.GenList;
      ghost var t := Emitted();
      ListLength(scope, e.args, a.args);
      var i := 0;
      while i < |a.args|
        invariant 0 <= i <= |a.args| == |e.args| && Valid() && A.AddressedList(scope, e.args[i..], a.args[i..])
        invariant forall o :: o in Arrays() ==> o in old(Arrays()) || fresh(o)
        invariant C.GenList(scope, a.args[i..], Emitted()) == C.GenList(scope, a.args, t)
      {
        ListUnfold(scope, e.args[i..], a.args[i..], Emitted());
        assert a.args[i..][1..] == a.args[i + 1..] && e.args[i..][1..] == e.args[i + 1..];
        ok := Codegen(a.args[i], false, e.args[i]);
        if !ok { return; }
        i := i + 1;
      }
      ok := true;
      NothingLeft(scope, a.args[i..], Emitted());
    }
  }

  /** `pic_codegen` */
  method CodegenProgram(a: AExpr, ghost e: Expr) returns (r: Option<Irep>)
    requires A.Addressed(A.TOP_SCOPE, e, a)
    ensures r == C.GenProgram(a)
  {
    hide A.Addressed, C.Gen, C.Finish;
    var cxt := new CodegenContext([], None, [], [], null);
    cxt.CreateActivation();
    assert C.ActivationCode(A.TOP_SCOPE) == [];
    var ok := cxt.Codegen(a, true, e);
    if !ok { return None; }
    var ir := cxt.Destroy();
    r := Some(ir);
  }

  /** `pic_compile` after normalization: analysis and code generation. */
  method CompileProgram(e: Expr) returns (r: Option<Irep>)
    ensures r == C.GenProgram(A.AnalyzeProgram(e))
  {
    var a := ScopeMarking.AnalyzeProgram(e);
    A.AnalyzeProgramAddressed(e);
    r := CodegenProgram(a, e);
  }

  // ---------- one step of `Gen` ----------

  lemma SetUnfold(s: Scope, e: Expr, a: AExpr, tail: bool, t: C.Tables)
    requires A.Addressed(s, e, a) && a.ASet?
    ensures e.Set? && A.AddressedRef(s, e.x, a.ref) && A.Addressed(s, e.e, a.e)
    ensures C.Gen(s, a, tail, t) ==
      (var t1 := C.Gen(s, a.e, false, t);
       if t1.None? then None
       else
         var t2 := C.GenStore(s, a.ref, t1.value);
         if t2.None? then None else Some(C.EmitRet(t2.value, tail)))
  {
    hide C.GenStore;
  }

  /** The tables before the branch for true values, and where the jump over that branch is. */
  ghost function BeforeThen(s: Scope, a: AExpr, tail: bool, t: C.Tables): (r: Option<(C.Tables, nat)>)
    requires a.AIf?
    ensures r.Some? ==> r.value.1 < |r.value.0.code|
  {
    match C.Gen(s, a.c, false, t)
    case None => None
    case Some(t1) =>
      (match C.Gen(s, a.f, tail, C.Emit(t1, JmpIf(0)))
       case None => None
       case Some(t2) =>
         var t3 := C.Emit(t2, Jmp(0));
         Some((C.Patch(t3, |t1.code|, JmpIf(|t3.code| - |t1.code|)), |t2.code|)))
  }

  lemma IfUnfold(s: Scope, e: Expr, a: AExpr, tail: bool, t: C.Tables)
    requires A.Addressed(s, e, a) && a.AIf?
    ensures e.If? && A.Addressed(s, e.c, a.c) && A.Addressed(s, e.t, a.t) && A.Addressed(s, e.f, a.f)
    ensures var r := BeforeThen(s, a, tail, t);
      C.Gen(s, a, tail, t) ==
        if r.None? then None
        else
          var u := C.Gen(s, a.t, tail, r.value.0);
          if u.None? then None else Some(C.Patch(u.value, r.value.1, Jmp(|u.value.code| - r.value.1)))
  {
  }

  lemma ElseUnfold(s: Scope, a: AExpr, tail: bool, t: C.Tables)
    requires a.AIf?
    ensures C.Gen(s, a.c, false, t).None? ==> BeforeThen(s, a, tail, t) == None
    ensures C.Gen(s, a.c, false, t).Some? ==>
      var t1 := C.Gen(s, a.c, false, t).value;
      var r := C.Gen(s, a.f, tail, C.Emit(t1, JmpIf(0)));
      if r.None? then BeforeThen(s, a, tail, t) == None
      else
        var t3 := C.Emit(r.value, Jmp(0));
        && |t1.code| < |t3.code|
        && BeforeThen(s, a, tail, t) == Some((C.Patch(t3, |t1.code|, JmpIf(|t3.code| - |t1.code|)), |r.value.code|))
  {
  }

  lemma LambdaUnfold(s: Scope, a: AExpr, tail: bool, t: C.Tables)
    requires a.ALambda?
    ensures C.Gen(s, a, tail, t) ==
      (match C.GenLambda(s, a)
       case Some(ir) => Some(C.EmitRet(C.Emit(t.(ireps := t.ireps + [ir]), LambdaI(|t.ireps|)), tail))
       case None => None)
  {
    hide C.GenLambda;
  }

  lemma ChildUnfold(s: Scope, e: Expr, a: AExpr)
    requires A.Addressed(s, e, a) && a.ALambda?
    ensures e.Lambda? && A.CapturesOk(Scope(a.params, a.rest, a.locals, a.captures, Some(s)))
    ensures A.Addressed(Scope(a.params, a.rest, a.locals, a.captures, Some(s)), e.body, a.body)
    ensures C.GenLambda(s, a) ==
      (var inner := Scope(a.params, a.rest, a.locals, a.captures, Some(s));
       var u := C.Gen(inner, a.body, true, C.NO_TABLES.(code := C.NO_TABLES.code + C.ActivationCode(inner)));
       if u.None? then None else Some(C.Finish(inner, u.value)))
  {
    var inner := Scope(a.params, a.rest, a.locals, a.captures, Some(s));
    assert C.NO_TABLES.code + C.ActivationCode(inner) == C.ActivationCode(inner);
  }

  lemma CallUnfold(s: Scope, e: Expr, a: AExpr, tail: bool, t: C.Tables)
    requires A.Addressed(s, e, a) && a.ACall?
    ensures e.Call? && A.Addressed(s, e.fn, a.fn) && A.AddressedList(s, e.args, a.args)
    ensures C.Gen(s, a, tail, t) ==
      (match C.Inlined(a.fn, |a.args|)
       case Some(p) =>
         (match C.GenList(s, a.args, t)
          case Some(u) => Some(C.EmitRet(C.Emit(u, PrimI(p)), tail))
          case None => None)
       case None =>
         (match C.Gen(s, a.fn, false, t)
          case None => None
          case Some(u) =>
            (match C.GenList(s, a.args, u)
             case Some(v) => Some(C.Emit(v, if tail then TailCallI(|a.args| + 1) else CallI(|a.args| + 1)))
             case None => None)))
  {
  }

  lemma ListUnfold(s: Scope, es: seq<Expr>, as': seq<AExpr>, t: C.Tables)
    requires A.AddressedList(s, es, as') && as' != []
    ensures |es| == |as'| && A.Addressed(s, es[0], as'[0]) && A.AddressedList(s, es[1..], as'[1..])
    ensures C.GenList(s, as', t) ==
      (var u := C.Gen(s, as'[0], false, t);
       if u.None? then None else C.GenList(s, as'[1..], u.value))
  {
  }

  lemma ListLength(s: Scope, es: seq<Expr>, as': seq<AExpr>)
    requires A.AddressedList(s, es, as')
    ensures |es| == |as'| && es[0..] == es && as'[0..] == as'
  {
  }

  lemma NothingLeft(s: Scope, as': seq<AExpr>, t: C.Tables)
    requires as' == []
    ensures C.GenList(s, as', t) == Some(t)
  {
  }

  lemma FirstIndex(xs: seq<Name>, x: Name, i: nat)
    requires i < |xs| && xs[i] == x && x !in xs[..i]
    ensures IndexOf(xs, x) == i
  {
    forall j | 0 <= j < i ensures xs[j] != x { assert xs[..i][j] == xs[j]; }
  }

  lemma PlaceIn(xs: seq<Name>, ys: seq<Name>, x: Name, i: nat)
    requires i < |xs| && xs[i] == x && x !in xs[..i]
    ensures IndexOf(xs + ys, x) == i
  {
    assert (xs + ys)[..i] == xs[..i];
    FirstIndex(xs + ys, x, i);
  }

  lemma PlaceAfter(xs: seq<Name>, ys: seq<Name>, x: Name, i: nat)
    requires i < |ys| && ys[i] == x && x !in xs && x !in ys[..i]
    ensures IndexOf(xs + ys, x) == |xs| + i
  {
    assert (xs + ys)[..|xs| + i] == xs + ys[..i];
    FirstIndex(xs + ys, x, |xs| + i);
  }

  lemma NoActivation(s: Scope)
    ensures C.ActivationCode(s)[..0] == []
  {
  }

  lemma NextActivation(s: Scope, i: nat, n: int)
    requires i < |s.captures| && A.CapturesOk(s)
    requires if n == -1 then C.IndexLocal(s, s.captures[i]) == None
      else n >= 0 && C.IndexLocal(s, s.captures[i]) == Some(n)
    ensures n != -1
    ensures C.ActivationCode(s)[..i + 1]
         == C.ActivationCode(s)[..i] + [if n <= |s.params| || s.rest == Some(s.captures[i]) then LRefI(n)
                                        else PushUndef]
  {
    assert s.captures[i] in s.captures;
  }

  lemma HasIndex(s: Scope, x: Name, r: Ref)
    requires A.AddressedRef(s, x, r)
    ensures r.CRef? ==> A.Outer(s, r.depth).Some? && C.IndexCapture(s, r.x, r.depth).Some?
    ensures r.LRef? ==> C.IndexOwn(s, r.x).Some?
  {
  }
}
