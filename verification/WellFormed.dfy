/** What can be said of emitted code without running it: the height of the operand stack at every
    instruction that can be reached, where jumps lead, how code ends, and that operands are in range. */
module WellFormed {
  import opened Util
  import opened Syntax
  import opened Instructions
  import Builtins
  import A = Analyzer
  import C = Codegen
  import Sim = Simulation
  import Compiler

  // ---------- one instruction ----------

  /** The operands that an instruction takes from the stack. */
  function Needs(i: Insn): nat {
    match i
    case Pop | JmpIf(_) | GSetI(_) | LSetI(_) | CSetI(_, _) | RetI | Stop => 1
    case CallI(n) => n
    case TailCallI(n) => n
    case PrimI(p) => Builtins.InlineArity(p)
    case _ => 0
  }

  /** The height after an instruction, when there were `h` operands. */
  function After(i: Insn, h: nat): nat
    requires Needs(i) <= h
  {
    match i
    case Pop | Jmp(_) | JmpIf(_) | RetI | TailCallI(_) | Stop => h - Needs(i)
    case _ => h - Needs(i) + 1
  }

  /** Where control can go from an instruction at `pc`. */
  function Targets(i: Insn, pc: int): set<int> {
    match i
    case Jmp(off) => {pc + off}
    case JmpIf(off) => {pc + 1, pc + off}
    case RetI | TailCallI(_) | Stop => {}
    case _ => {pc + 1}
  }

  /** Operand heights at the instructions that can be reached. */
  type Heights = map<int, nat>

  /** At `pc` there are operands enough; every target is inside with the height it expects, or is the
      end, reached with the height `exit`; a return leaves one operand above `base`, a tail call
      exactly its own. */
  ghost predicate TypedAt(code: seq<Insn>, hs: Heights, from: int, to: int, base: nat, exit: Option<nat>, pc: int)
    requires pc in hs
  {
    && from <= pc < to && 0 <= pc < |code| && Needs(code[pc]) <= hs[pc]
    && (code[pc].RetI? ==> hs[pc] == base + 1)
    && (code[pc].TailCallI? ==> hs[pc] == base + code[pc].n)
    && forall q :: q in Targets(code[pc], pc) ==>
         if q == to then exit == Some(After(code[pc], hs[pc])) else q in hs && hs[q] == After(code[pc], hs[pc])
  }

  ghost predicate Typed(code: seq<Insn>, hs: Heights, from: int, to: int, base: nat, exit: Option<nat>) {
    forall pc :: pc in hs ==> TypedAt(code, hs, from, to, base, exit, pc)
  }

  /** Starting at `from` with height `h`. */
  ghost predicate Starts(hs: Heights, from: int, h: nat) {
    from in hs && hs[from] == h
  }

  // ---------- putting code together ----------

  lemma OneInsn(code: seq<Insn>, pc: nat, h: nat, base: nat) returns (hs: Heights)
    requires pc < |code| && Needs(code[pc]) <= h && Targets(code[pc], pc) == {pc + 1}
    requires !code[pc].RetI? && !code[pc].TailCallI?
    ensures Starts(hs, pc, h) && Typed(code, hs, pc, pc + 1, base, Some(After(code[pc], h)))
  {
    hs := map[pc := h];
  }

  lemma LastInsn(code: seq<Insn>, pc: nat, base: nat) returns (hs: Heights)
    requires pc < |code| && (code[pc].RetI? || code[pc].TailCallI?)
    ensures var h := if code[pc].RetI? then base + 1 else base + code[pc].n;
      Starts(hs, pc, h) && Typed(code, hs, pc, pc + 1, base, None)
  {
    var h := if code[pc].RetI? then base + 1 else base + code[pc].n;
    hs := map[pc := h];
  }

  lemma Then(code: seq<Insn>, xs: Heights, ys: Heights, from: int, mid: int, to: int, base: nat, h: nat, e: nat,
             exit: Option<nat>)
    returns (hs: Heights)
    requires from < mid < to && Typed(code, xs, from, mid, base, Some(e)) && Typed(code, ys, mid, to, base, exit)
    requires Starts(xs, from, h) && Starts(ys, mid, e)
    ensures Starts(hs, from, h) && Typed(code, hs, from, to, base, exit)
  {
    hide Needs, After, Targets;
    hs := xs + ys;
    Inside(code, xs, from, mid, base, Some(e));
    Inside(code, ys, mid, to, base, exit);
    forall pc | pc in hs ensures TypedAt(code, hs, from, to, base, exit, pc) {
      if pc in ys {
        assert TypedAt(code, ys, mid, to, base, exit, pc);
      } else {
        assert TypedAt(code, xs, from, mid, base, Some(e), pc);
      }
    }
  }

  lemma Inside(code: seq<Insn>, hs: Heights, from: int, to: int, base: nat, exit: Option<nat>)
    requires Typed(code, hs, from, to, base, exit)
    ensures forall pc :: pc in hs ==> from <= pc < to
  {
    forall pc | pc in hs ensures from <= pc < to { assert TypedAt(code, hs, from, to, base, exit, pc); }
  }

  /** A test, two branches, and the two jumps between them. In tail position nothing reaches the
      second jump. */
  lemma Branches(code: seq<Insn>, cs: Heights, fs: Heights, ts: Heights, from: int, p1: int, p2: int, to: int,
                 base: nat, h: nat, exit: Option<nat>) returns (hs: Heights)
    requires from < p1 && p1 + 1 < p2 && p2 + 1 < to && 0 <= from && to <= |code|
    requires code[p1] == JmpIf(p2 + 1 - p1) && code[p2] == Jmp(to - p2)
    requires Typed(code, cs, from, p1, base, Some(h + 1)) && Starts(cs, from, h)
    requires Typed(code, fs, p1 + 1, p2, base, exit) && Starts(fs, p1 + 1, h)
    requires Typed(code, ts, p2 + 1, to, base, exit) && Starts(ts, p2 + 1, h)
    ensures Starts(hs, from, h) && Typed(code, hs, from, to, base, exit)
  {
    hide Needs, After, Targets;
    var js: Heights := if exit.Some? then map[p2 := exit.value] else map[];
    hs := cs + map[p1 := h + 1] + fs + js + ts;
    Inside(code, cs, from, p1, base, Some(h + 1));
    Inside(code, fs, p1 + 1, p2, base, exit);
    Inside(code, ts, p2 + 1, to, base, exit);
    forall pc | pc in hs ensures TypedAt(code, hs, from, to, base, exit, pc) {
      if pc < p1 {
        assert TypedAt(code, cs, from, p1, base, Some(h + 1), pc);
      } else if pc == p1 {
        Jumps(p2 + 1 - p1, p1, h + 1);
      } else if pc < p2 {
        assert TypedAt(code, fs, p1 + 1, p2, base, exit, pc);
      } else if pc == p2 {
        Jumps(to - p2, p2, exit.value);
      } else {
        assert TypedAt(code, ts, p2 + 1, to, base, exit, pc);
      }
    }
  }

  lemma Jumps(off: int, pc: int, h: nat)
    ensures Needs(Jmp(off)) == 0 && Targets(Jmp(off), pc) == {pc + off} && After(Jmp(off), h) == h
    ensures Needs(JmpIf(off)) == 1 && Targets(JmpIf(off), pc) == {pc + 1, pc + off}
      && (h > 0 ==> After(JmpIf(off), h) == h - 1)
  {
  }

  // ---------- generated code ----------

  function Exit(tail: bool, h: nat): Option<nat> {
    if tail then None else Some(h + 1)
  }

  /** The piece of `code` that `a` is compiled to is typed. */
  ghost predicate Piece(ir: Irep, hs: Heights, from: int, to: int, tail: bool, base: nat, h: nat) {
    Starts(hs, from, h) && Typed(ir.code, hs, from, to, base, Exit(tail, h)) && (tail ==> base == h)
  }

  predicate IsLeaf(a: AExpr) {
    a.AQuote? || a.AVar? || a.ALambda?
  }

  /** Forms whose tail code is their ordinary code and a return. */
  predicate Returns(a: AExpr) {
    IsLeaf(a) || a.ASet? || (a.ACall? && C.Inlined(a.fn, |a.args|).Some?)
  }

  lemma ReturnCode(sc: Scope, a: AExpr, t: C.Tables, ir: Irep)
    requires Returns(a) && C.Gen(sc, a, true, t).Some? && CodeAt(ir, |t.code|, C.Gen(sc, a, true, t).value)
    ensures C.Gen(sc, a, false, t).Some?
    ensures var t1 := C.Gen(sc, a, false, t).value;
      && CodeAt(ir, |t.code|, t1) && |t1.code| < |ir.code| && ir.code[|t1.code|] == RetI
      && |C.Gen(sc, a, true, t).value.code| == |t1.code| + 1
  {
    var t1, t2 := C.Gen(sc, a, false, t).value, C.Gen(sc, a, true, t).value;
    assert t2 == C.EmitRet(t1, true);
    hide C.Gen;
  }

  /** A leaf is one instruction, which adds an operand. */
  lemma LeafCode(sc: Scope, a: AExpr, t: C.Tables, ir: Irep)
    requires IsLeaf(a) && C.Gen(sc, a, false, t).Some? && CodeAt(ir, |t.code|, C.Gen(sc, a, false, t).value)
    ensures |C.Gen(sc, a, false, t).value.code| == |t.code| + 1 <= |ir.code|
    ensures var i := ir.code[|t.code|];
      Needs(i) == 0 && Targets(i, |t.code|) == {|t.code| + 1} && (forall h: nat :: After(i, h) == h + 1) && !i.RetI?
        && !i.TailCallI?
  {
    var t1 := C.Gen(sc, a, false, t).value;
    assert ir.code[|t.code|] == t1.code[|t.code|];
    hide C.GenLambda, C.ActivationCode, C.Finish;
  }

  lemma SetCode(sc: Scope, a: AExpr, t: C.Tables, ir: Irep) returns (t1: C.Tables)
    requires a.ASet? && C.Gen(sc, a, false, t).Some? && CodeAt(ir, |t.code|, C.Gen(sc, a, false, t).value)
    ensures C.Gen(sc, a.e, false, t) == Some(t1) && CodeAt(ir, |t.code|, t1) && |t.code| < |t1.code| < |ir.code|
    ensures |C.Gen(sc, a, false, t).value.code| == |t1.code| + 1
    ensures var i := ir.code[|t1.code|]; (i.GSetI? || i.LSetI? || i.CSetI?) && !i.RetI? && !i.TailCallI?
  {
    t1 := C.Gen(sc, a.e, false, t).value;
    var t2 := C.Gen(sc, a, false, t).value;
    assert Some(t2) == C.GenStore(sc, a.ref, t1);
    assert ir.code[|t1.code|] == t2.code[|t1.code|];
    hide C.Gen;
    C.StoreExtends(sc, a.ref, t1, t1);
  }

  lemma InlineCode(sc: Scope, a: AExpr, t: C.Tables, ir: Irep, p: Prim) returns (t1: C.Tables)
    requires a.ACall? && C.Inlined(a.fn, |a.args|) == Some(p) && C.Gen(sc, a, false, t).Some?
    requires CodeAt(ir, |t.code|, C.Gen(sc, a, false, t).value)
    ensures C.GenList(sc, a.args, t) == Some(t1) && CodeAt(ir, |t.code|, t1) && |t.code| <= |t1.code| < |ir.code|
    ensures |C.Gen(sc, a, false, t).value.code| == |t1.code| + 1 && ir.code[|t1.code|] == PrimI(p)
    ensures |a.args| == Builtins.InlineArity(p)
  {
    t1 := C.GenList(sc, a.args, t).value;
    C.GenListExtends(sc, a.args, t);
    hide C.GenList;
  }

  lemma {:induction false} GenTyped(ir: Irep, sc: Scope, a: AExpr, tail: bool, t: C.Tables, base: nat, h: nat)
    returns (hs: Heights)
    requires C.Gen(sc, a, tail, t).Some? && CodeAt(ir, |t.code|, C.Gen(sc, a, tail, t).value) && (tail ==> base == h)
    ensures Piece(ir, hs, |t.code|, |C.Gen(sc, a, tail, t).value.code|, tail, base, h)
    decreases a, 3
  {
    hide *;
    PieceCases(a);
    if a.AIf? {
      hs := IfTyped(ir, sc, a, tail, t, base, h);
    } else if a.ABegin? {
      hs := BeginTyped(ir, sc, a, tail, t, base, h);
    } else if Returns(a) {
      if tail {
        ReturnCode(sc, a, t, ir);
        var t1 := C.Gen(sc, a, false, t).value;
        GenMore(sc, a, t);
        var xs := PlainTyped(ir, sc, a, t, base, h);
        var ys := LastInsn(ir.code, |t1.code|, base);
        PieceIs(ir, xs, |t.code|, |t1.code|, false, base, h);
        hs := Then(ir.code, xs, ys, |t.code|, |t1.code|, |t1.code| + 1, base, h, h + 1, None);
        PieceIs(ir, hs, |t.code|, |t1.code| + 1, true, base, h);
      } else {
        hs := PlainTyped(ir, sc, a, t, base, h);
      }
    } else {
      hs := CallTyped(ir, sc, a, tail, t, base, h);
    }
  }

  lemma PieceCases(a: AExpr)
    ensures a.AIf? || a.ABegin? || Returns(a) || (a.ACall? && C.Inlined(a.fn, |a.args|).None?)
  {
    hide C.Inlined;
  }

  lemma GenMore(sc: Scope, a: AExpr, t: C.Tables)
    requires C.Gen(sc, a, false, t).Some?
    ensures |t.code| < |C.Gen(sc, a, false, t).value.code|
  {
  }

  lemma PieceIs(ir: Irep, hs: Heights, from: int, to: int, tail: bool, base: nat, h: nat)
    ensures Piece(ir, hs, from, to, tail, base, h) <==>
      Starts(hs, from, h) && Typed(ir.code, hs, from, to, base, if tail then None else Some(h + 1))
        && (tail ==> base == h)
  {
    hide Typed;
  }

  lemma {:induction false} PlainTyped(ir: Irep, sc: Scope, a: AExpr, t: C.Tables, base: nat, h: nat)
    returns (hs: Heights)
    requires Returns(a) && C.Gen(sc, a, false, t).Some? && CodeAt(ir, |t.code|, C.Gen(sc, a, false, t).value)
    ensures Piece(ir, hs, |t.code|, |C.Gen(sc, a, false, t).value.code|, false, base, h)
    decreases a, 1
  {
    ReturnsCases(a);
    hide *;
    if IsLeaf(a) {
      LeafCode(sc, a, t, ir);
      hs := OneInsn(ir.code, |t.code|, h, base);
      PieceIs(ir, hs, |t.code|, |t.code| + 1, false, base, h);
    } else if a.ASet? {
      hs := SetTyped(ir, sc, a, t, base, h);
    } else {
      hs := InlineTyped(ir, sc, a, t, base, h);
    }
  }

  lemma {:induction false} SetTyped(ir: Irep, sc: Scope, a: AExpr, t: C.Tables, base: nat, h: nat) returns (hs: Heights)
    requires a.ASet? && C.Gen(sc, a, false, t).Some? && CodeAt(ir, |t.code|, C.Gen(sc, a, false, t).value)
    ensures Piece(ir, hs, |t.code|, |C.Gen(sc, a, false, t).value.code|, false, base, h)
    decreases a, 0
  {
    hide *;
    var t1 := SetCode(sc, a, t, ir);
    SetEffect(ir.code[|t1.code|], |t1.code|, h + 1);
    var xs := GenTyped(ir, sc, a.e, false, t, base, h);
    PieceIs(ir, xs, |t.code|, |t1.code|, false, base, h);
    var ys := OneInsn(ir.code, |t1.code|, h + 1, base);
    hs := Then(ir.code, xs, ys, |t.code|, |t1.code|, |t1.code| + 1, base, h, h + 1, Some(h + 1));
    PieceIs(ir, hs, |t.code|, |t1.code| + 1, false, base, h);
  }

  lemma {:induction false} InlineTyped(ir: Irep, sc: Scope, a: AExpr, t: C.Tables, base: nat, h: nat)
    returns (hs: Heights)
    requires a.ACall? && C.Inlined(a.fn, |a.args|).Some? && C.Gen(sc, a, false, t).Some?
    requires CodeAt(ir, |t.code|, C.Gen(sc, a, false, t).value)
    ensures Piece(ir, hs, |t.code|, |C.Gen(sc, a, false, t).value.code|, false, base, h)
    decreases a, 0
  {
    hide *;
    var p := C.Inlined(a.fn, |a.args|).value;
    var t1 := InlineCode(sc, a, t, ir, p);
    PrimEffect(p, |t1.code|, h);
    PrimArity(p);
    var ys := OneInsn(ir.code, |t1.code|, h + |a.args|, base);
    var xs := ListTyped(ir, sc, a.args, t, base, h);
    hs := Then(ir.code, xs, ys, |t.code|, |t1.code|, |t1.code| + 1, base, h, h + |a.args|, Some(h + 1));
    PieceIs(ir, hs, |t.code|, |t1.code| + 1, false, base, h);
  }

  lemma ReturnsCases(a: AExpr)
    requires Returns(a)
    ensures IsLeaf(a) || a.ASet? || (a.ACall? && C.Inlined(a.fn, |a.args|).Some?)
  {
  }

  lemma SetEffect(i: Insn, pc: int, h: nat)
    requires (i.GSetI? || i.LSetI? || i.CSetI?) && h > 0
    ensures Needs(i) <= h && Targets(i, pc) == {pc + 1} && After(i, h) == h
  {
  }

  lemma PrimArity(p: Prim)
    ensures Builtins.InlineArity(p) > 0
  {
  }

  lemma PrimEffect(p: Prim, pc: int, h: nat)
    ensures var i := PrimI(p); var n := Builtins.InlineArity(p);
      Needs(i) <= h + n && Targets(i, pc) == {pc + 1} && After(i, h + n) == h + 1
  {
  }

  /** Arguments leave one operand each. */
  lemma {:induction false} ListTyped(ir: Irep, sc: Scope, as': seq<AExpr>, t: C.Tables, base: nat, h: nat)
    returns (hs: Heights)
    requires as' != [] && C.GenList(sc, as', t).Some? && CodeAt(ir, |t.code|, C.GenList(sc, as', t).value)
    ensures |t.code| < |C.GenList(sc, as', t).value.code|
    ensures Starts(hs, |t.code|, h) && Typed(ir.code, hs, |t.code|, |C.GenList(sc, as', t).value.code|, base,
                                             Some(h + |as'|))
    decreases as', 2
  {
    hide *;
    var t1, t2 := ListCode(sc, as', t, ir);
    var xs := GenTyped(ir, sc, as'[0], false, t, base, h);
    PieceIs(ir, xs, |t.code|, |t1.code|, false, base, h);
    if |as'| == 1 {
      hs := xs;
    } else {
      var ys := ListTyped(ir, sc, as'[1..], t1, base, h + 1);
      hs := Then(ir.code, xs, ys, |t.code|, |t1.code|, |t2.code|, base, h, h + 1, Some(h + |as'|));
    }
  }

  lemma ListCode(sc: Scope, as': seq<AExpr>, t: C.Tables, ir: Irep) returns (t1: C.Tables, t2: C.Tables)
    requires as' != [] && C.GenList(sc, as', t).Some? && CodeAt(ir, |t.code|, C.GenList(sc, as', t).value)
    ensures C.Gen(sc, as'[0], false, t) == Some(t1) && CodeAt(ir, |t.code|, t1) && |t.code| < |t1.code|
    ensures C.GenList(sc, as', t) == Some(t2) && C.GenList(sc, as'[1..], t1) == Some(t2) && CodeAt(ir, |t1.code|, t2)
    ensures |as'| == 1 ==> t2 == t1
  {
    t1 := C.Gen(sc, as'[0], false, t).value;
    t2 := C.GenList(sc, as', t).value;
    C.GenListExtends(sc, as'[1..], t1);
    hide C.Gen;
  }

  lemma {:induction false} IfTyped(ir: Irep, sc: Scope, a: AExpr, tail: bool, t: C.Tables, base: nat, h: nat)
    returns (hs: Heights)
    requires a.AIf? && C.Gen(sc, a, tail, t).Some? && CodeAt(ir, |t.code|, C.Gen(sc, a, tail, t).value)
      && (tail ==> base == h)
    ensures Piece(ir, hs, |t.code|, |C.Gen(sc, a, tail, t).value.code|, tail, base, h)
    decreases a, 2
  {
    hide *;
    var t1, t2, t3, t4 := Sim.IfCode(sc, a, tail, t, ir);
    Sim.EmitLength(t1, JmpIf(0));
    CodeBound(ir, |t3.code|, t4);
    GenGrows(sc, a.t, tail, t3);
    var cs := GenTyped(ir, sc, a.c, false, t, base, h);
    var fs := GenTyped(ir, sc, a.f, tail, C.Emit(t1, JmpIf(0)), base, h);
    var ts := GenTyped(ir, sc, a.t, tail, t3, base, h);
    PieceIs(ir, cs, |t.code|, |t1.code|, false, base, h);
    PieceIs(ir, fs, |t1.code| + 1, |t2.code|, tail, base, h);
    PieceIs(ir, ts, |t3.code|, |t4.code|, tail, base, h);
    hs := Branches(ir.code, cs, fs, ts, |t.code|, |t1.code|, |t2.code|, |t4.code|, base, h,
                   if tail then None else Some(h + 1));
    PieceIs(ir, hs, |t.code|, |t4.code|, tail, base, h);
  }

  lemma CodeBound(ir: Irep, from: nat, t: C.Tables)
    requires CodeAt(ir, from, t)
    ensures |t.code| <= |ir.code|
  {
  }

  lemma GenGrows(sc: Scope, a: AExpr, tail: bool, t: C.Tables)
    requires C.Gen(sc, a, tail, t).Some?
    ensures |t.code| < |C.Gen(sc, a, tail, t).value.code|
  {
  }

  lemma {:induction false} BeginTyped(ir: Irep, sc: Scope, a: AExpr, tail: bool, t: C.Tables, base: nat, h: nat)
    returns (hs: Heights)
    requires a.ABegin? && C.Gen(sc, a, tail, t).Some? && CodeAt(ir, |t.code|, C.Gen(sc, a, tail, t).value)
      && (tail ==> base == h)
    ensures Piece(ir, hs, |t.code|, |C.Gen(sc, a, tail, t).value.code|, tail, base, h)
    decreases a, 2
  {
    hide *;
    var t1, t2 := Sim.BeginCode(sc, a, tail, t, ir);
    BeginPiece(ir, |t.code|, t1, t2);
    GenGrows(sc, a.e1, false, t);
    GenGrows(sc, a.e2, tail, C.Emit(t1, Pop));
    PopEffect(|t1.code|, h + 1);
    var xs := GenTyped(ir, sc, a.e1, false, t, base, h);
    PieceIs(ir, xs, |t.code|, |t1.code|, false, base, h);
    var ps := OneInsn(ir.code, |t1.code|, h + 1, base);
    var ys := GenTyped(ir, sc, a.e2, tail, C.Emit(t1, Pop), base, h);
    PieceIs(ir, ys, |t1.code| + 1, |t2.code|, tail, base, h);
    var exit := if tail then None else Some(h + 1);
    var zs := Then(ir.code, ps, ys, |t1.code|, |t1.code| + 1, |t2.code|, base, h + 1, h, exit);
    hs := Then(ir.code, xs, zs, |t.code|, |t1.code|, |t2.code|, base, h, h + 1, exit);
    PieceIs(ir, hs, |t.code|, |t2.code|, tail, base, h);
  }

  lemma PopEffect(pc: int, h: nat)
    requires h > 0
    ensures Needs(Pop) <= h && Targets(Pop, pc) == {pc + 1} && After(Pop, h) == h - 1
  {
  }

  lemma BeginPiece(ir: Irep, from: nat, t1: C.Tables, t2: C.Tables)
    requires CodeAt(ir, from, t2) && C.Extends(t1, t2)
    ensures CodeAt(ir, from, t1)
  {
  }

  lemma {:induction false} CallTyped(ir: Irep, sc: Scope, a: AExpr, tail: bool, t: C.Tables, base: nat, h: nat)
    returns (hs: Heights)
    requires a.ACall? && C.Inlined(a.fn, |a.args|).None? && C.Gen(sc, a, tail, t).Some?
    requires CodeAt(ir, |t.code|, C.Gen(sc, a, tail, t).value) && (tail ==> base == h)
    ensures Piece(ir, hs, |t.code|, |C.Gen(sc, a, tail, t).value.code|, tail, base, h)
    decreases a, 2
  {
    hide *;
    var t1, t2 := Sim.CallParts(sc, a, tail, t, ir);
    var n := |a.args| + 1;
    GenGrows(sc, a.fn, false, t);
    var xs := GenTyped(ir, sc, a.fn, false, t, base, h);
    PieceIs(ir, xs, |t.code|, |t1.code|, false, base, h);
    var pre := xs;
    if a.args == [] {
      NoArgs(sc, a.args, t1);
    } else {
      var ys := ListTyped(ir, sc, a.args, t1, base, h + 1);
      pre := Then(ir.code, xs, ys, |t.code|, |t1.code|, |t2.code|, base, h, h + 1, Some(h + n));
    }
    CallEffect(n, |t2.code|, h);
    var zs;
    if tail {
      zs := LastInsn(ir.code, |t2.code|, base);
    } else {
      zs := OneInsn(ir.code, |t2.code|, h + n, base);
    }
    hs := Then(ir.code, pre, zs, |t.code|, |t2.code|, |t2.code| + 1, base, h, h + n,
               if tail then None else Some(h + 1));
    PieceIs(ir, hs, |t.code|, |t2.code| + 1, tail, base, h);
  }

  lemma NoArgs(sc: Scope, as': seq<AExpr>, t: C.Tables)
    requires as' == []
    ensures C.GenList(sc, as', t) == Some(t)
  {
  }

  lemma CallEffect(n: nat, pc: int, h: nat)
    requires n > 0
    ensures Needs(CallI(n)) <= h + n && Targets(CallI(n), pc) == {pc + 1} && After(CallI(n), h + n) == h + 1
  {
  }

  // ---------- along every path ----------

  /** A path of control: places and operand heights. */
  datatype Point = Point(pc: int, h: nat)

  ghost predicate Follows(code: seq<Insn>, a: Point, b: Point) {
    && 0 <= a.pc < |code| && Needs(code[a.pc]) <= a.h
    && b.pc in Targets(code[a.pc], a.pc) && b.h == After(code[a.pc], a.h)
  }

  ghost predicate Path(code: seq<Insn>, path: seq<Point>) {
    path != [] && forall i :: 0 <= i < |path| - 1 ==> Follows(code, path[i], path[i + 1])
  }

  /** Every point on a path inside typed code has its height and operands enough; only the end can be
      outside. */
  lemma {:induction false} PathTyped(code: seq<Insn>, hs: Heights, from: int, to: int, base: nat, exit: Option<nat>,
                                     path: seq<Point>, k: nat)
    requires Typed(code, hs, from, to, base, exit) && Path(code, path) && Starts(hs, from, path[0].h)
      && path[0].pc == from
    requires k < |path| && forall i :: 0 <= i < k ==> path[i].pc != to
    ensures if path[k].pc == to then exit == Some(path[k].h)
            else path[k].pc in hs && hs[path[k].pc] == path[k].h && TypedAt(code, hs, from, to, base, exit, path[k].pc)
    decreases k
  {
    if k > 0 {
      PathTyped(code, hs, from, to, base, exit, path, k - 1);
      assert Follows(code, path[k - 1], path[k - 1 + 1]);
      assert TypedAt(code, hs, from, to, base, exit, path[k - 1].pc);
    } else {
      assert TypedAt(code, hs, from, to, base, exit, from);
    }
  }

  /** Code outside tail position is typed whatever height its returns are held to. */
  lemma PathAt(ir: Irep, sc: Scope, a: AExpr, tail: bool, t: C.Tables, base: nat, h: nat, path: seq<Point>, k: nat)
    requires C.Gen(sc, a, tail, t).Some? && CodeAt(ir, |t.code|, C.Gen(sc, a, tail, t).value) && (tail ==> base == h)
    requires Path(ir.code, path) && path[0] == Point(|t.code|, h) && k < |path|
    requires forall i :: 0 <= i < k ==> path[i].pc != |C.Gen(sc, a, tail, t).value.code|
    ensures var to := |C.Gen(sc, a, tail, t).value.code|;
      if path[k].pc == to then !tail && path[k].h == h + 1
      else |t.code| <= path[k].pc < to <= |ir.code| && Needs(ir.code[path[k].pc]) <= path[k].h
    ensures 0 <= path[k].pc < |ir.code| && path[k].pc != |C.Gen(sc, a, tail, t).value.code| ==>
      && (ir.code[path[k].pc].RetI? ==> path[k].h == base + 1)
      && (ir.code[path[k].pc].TailCallI? ==> path[k].h == base + ir.code[path[k].pc].n)
  {
    hide C.Gen, Typed, TypedAt, Path, Needs;
    var to := |C.Gen(sc, a, tail, t).value.code|;
    CodeBound(ir, |t.code|, C.Gen(sc, a, tail, t).value);
    var hs := GenTyped(ir, sc, a, tail, t, base, h);
    PieceIs(ir, hs, |t.code|, to, tail, base, h);
    PathTyped(ir.code, hs, |t.code|, to, base, if tail then None else Some(h + 1), path, k);
    if path[k].pc != to { AtParts(ir.code, hs, |t.code|, to, base, if tail then None else Some(h + 1), path[k].pc); }
  }

  /** Non-tail code raises the operand height by exactly one on every path, and does not return or leave by a
      tail call on any; code in tail position never runs off its end. Whatever is reached is inside the code and finds
      its operands; a return finds one value, a tail call exactly the procedure and its arguments. */
  lemma EveryPath(ir: Irep, sc: Scope, a: AExpr, tail: bool, t: C.Tables, h: nat, path: seq<Point>, k: nat)
    requires C.Gen(sc, a, tail, t).Some? && CodeAt(ir, |t.code|, C.Gen(sc, a, tail, t).value)
    requires Path(ir.code, path) && path[0] == Point(|t.code|, h) && k < |path|
    requires forall i :: 0 <= i < k ==> path[i].pc != |C.Gen(sc, a, tail, t).value.code|
    ensures var to := |C.Gen(sc, a, tail, t).value.code|;
      if path[k].pc == to then !tail && path[k].h == h + 1
      else |t.code| <= path[k].pc < to <= |ir.code| && Needs(ir.code[path[k].pc]) <= path[k].h
    ensures 0 <= path[k].pc < |ir.code| && path[k].pc != |C.Gen(sc, a, tail, t).value.code| ==>
      && (ir.code[path[k].pc].RetI? ==> tail && path[k].h == h + 1)
      && (ir.code[path[k].pc].TailCallI? ==> tail && path[k].h == h + ir.code[path[k].pc].n)
  {
    hide C.Gen, Path, Needs;
    PathAt(ir, sc, a, tail, t, h, h, path, k);
    if !tail { PathAt(ir, sc, a, tail, t, h + 1, h, path, k); }
  }

  lemma AtParts(code: seq<Insn>, hs: Heights, from: int, to: int, base: nat, exit: Option<nat>, pc: int)
    requires pc in hs && TypedAt(code, hs, from, to, base, exit, pc)
    ensures from <= pc < to && 0 <= pc < |code| && Needs(code[pc]) <= hs[pc]
    ensures code[pc].RetI? ==> hs[pc] == base + 1
    ensures code[pc].TailCallI? ==> hs[pc] == base + code[pc].n
  {
    hide Needs, Targets, After;
  }

  // ---------- operands ----------

  /** Constants, children, frame slots and captures that an instruction names exist. */
  ghost predicate OperandOk(sc: Scope, t: C.Tables, i: Insn) {
    match i
    case PushInt(k) => k < |t.ints|
    case PushChar(k) => k < |t.ints|
    case PushFloat(k) => k < |t.nums|
    case PushConst(k) => k < |t.pool|
    case GRefI(k) => k < |t.pool| && t.pool[k].DSym?
    case GSetI(k) => k < |t.pool| && t.pool[k].DSym?
    case LambdaI(k) => k < |t.ireps|
    case LRefI(n) => 0 < n < 1 + |Names(sc)| + |sc.captures|
    case LSetI(n) => 0 < n < 1 + |Names(sc)| + |sc.captures|
    case CRefI(d, n) => A.Outer(sc, d).Some? && n < |A.Outer(sc, d).value.captures|
    case CSetI(d, n) => A.Outer(sc, d).Some? && n < |A.Outer(sc, d).value.captures|
    case _ => true
  }

  ghost predicate OperandsOk(sc: Scope, t: C.Tables) {
    forall pc :: 0 <= pc < |t.code| ==> OperandOk(sc, t, t.code[pc])
  }

  lemma OperandStays(sc: Scope, t: C.Tables, u: C.Tables, i: Insn)
    requires OperandOk(sc, t, i) && t.ints <= u.ints && t.nums <= u.nums && t.pool <= u.pool && t.ireps <= u.ireps
    ensures OperandOk(sc, u, i)
  {
    hide Names, A.Outer;
  }

  /** One more instruction, and tables that may have grown. */
  lemma EmitOk(sc: Scope, t: C.Tables, u: C.Tables, i: Insn)
    requires OperandsOk(sc, t) && t.code == u.code && OperandOk(sc, u, i)
    requires t.ints <= u.ints && t.nums <= u.nums && t.pool <= u.pool && t.ireps <= u.ireps
    ensures OperandsOk(sc, C.Emit(u, i))
  {
    hide OperandOk;
    var v := C.Emit(u, i);
    forall pc | 0 <= pc < |v.code| ensures OperandOk(sc, v, v.code[pc]) {
      if pc < |t.code| {
        OperandStays(sc, t, v, t.code[pc]);
      } else {
        OperandStays(sc, u, v, i);
      }
    }
  }

  lemma PatchOk(sc: Scope, t: C.Tables, k: nat, i: Insn)
    requires OperandsOk(sc, t) && k < |t.code| && (i.Jmp? || i.JmpIf?)
    ensures OperandsOk(sc, C.Patch(t, k, i))
  {
    var u := C.Patch(t, k, i);
    assert OperandOk(sc, u, i);
    hide OperandOk;
    forall pc | 0 <= pc < |u.code| ensures OperandOk(sc, u, u.code[pc]) {
      if pc != k { OperandStays(sc, t, u, t.code[pc]); }
    }
  }

  lemma RetOk(sc: Scope, t: C.Tables, tail: bool)
    requires OperandsOk(sc, t)
    ensures OperandsOk(sc, C.EmitRet(t, tail))
  {
    assert OperandOk(sc, t, RetI);
    hide OperandOk, OperandsOk;
    EmitOk(sc, t, t, RetI);
  }

  lemma QuoteOk(sc: Scope, d: Datum, t: C.Tables)
    requires OperandsOk(sc, t)
    ensures OperandsOk(sc, C.GenQuote(d, t)) && C.GenQuote(d, t).ireps == t.ireps
  {
    hide OperandsOk;
    var u := C.GenQuote(d, t);
    var i := u.code[|t.code|];
    var v := u.(code := t.code);
    assert OperandOk(sc, v, i) && u == C.Emit(v, i);
    EmitOk(sc, t, v, i);
  }

  lemma RefOk(sc: Scope, r: Ref, t: C.Tables)
    requires OperandsOk(sc, t) && C.GenRef(sc, r, t).Some?
    ensures OperandsOk(sc, C.GenRef(sc, r, t).value) && C.GenRef(sc, r, t).value.ireps == t.ireps
  {
    hide OperandsOk, A.Outer, Names;
    var u := C.GenRef(sc, r, t).value;
    var i := u.code[|t.code|];
    var v := u.(code := t.code);
    OuterSelf(sc);
    assert OperandOk(sc, v, i) && u == C.Emit(v, i);
    EmitOk(sc, t, v, i);
  }

  lemma StoreOk(sc: Scope, r: Ref, t: C.Tables)
    requires OperandsOk(sc, t) && C.GenStore(sc, r, t).Some?
    ensures OperandsOk(sc, C.GenStore(sc, r, t).value) && C.GenStore(sc, r, t).value.ireps == t.ireps
  {
    hide OperandsOk, A.Outer, Names, Builtins.InlineName;
    var u := C.GenStore(sc, r, t).value;
    var i := u.code[|t.code|];
    var v := u.(code := t.code);
    OuterSelf(sc);
    assert OperandOk(sc, v, i) && u == C.Emit(v, i);
    EmitOk(sc, t, v, i);
  }

  lemma OuterSelf(sc: Scope)
    ensures A.Outer(sc, 0) == Some(sc)
  {
  }

  // ---------- whole code objects ----------

  function TablesOf(ir: Irep): C.Tables {
    C.Tables(ir.code, ir.ireps, ir.ints, ir.nums, ir.pool)
  }

  /** Heights for a whole procedure: it starts with none, lays out its captures and runs its body. */
  ghost predicate BodyTyped(sc: Scope, code: seq<Insn>) {
    exists hs: Heights :: Starts(hs, 0, 0) && Typed(code, hs, 0, |code|, |sc.captures|, None)
  }

  /** A code object made in scope `sc`, with everything inside it. */
  ghost predicate IrepOk(sc: Scope, ir: Irep)
    decreases ir, 1
  {
    && ir.capturec == |sc.captures| && ir.argc + ir.localc == 1 + |Names(sc)|
    && OperandsOk(sc, TablesOf(ir)) && BodyTyped(sc, ir.code)
    && forall k :: 0 <= k < |ir.ireps| ==> ChildOk(sc, ir.ireps[k])
  }

  ghost predicate ChildOk(sc: Scope, ir: Irep)
    decreases ir, 2
  {
    exists inner: Scope :: inner.up == Some(sc) && IrepOk(inner, ir)
  }

  /** Operands and children that are in order. */
  ghost predicate TablesOk(sc: Scope, t: C.Tables) {
    OperandsOk(sc, t) && forall k :: 0 <= k < |t.ireps| ==> ChildOk(sc, t.ireps[k])
  }

  lemma TablesEmit(sc: Scope, t: C.Tables, i: Insn)
    requires TablesOk(sc, t) && OperandOk(sc, t, i)
    ensures TablesOk(sc, C.Emit(t, i))
  {
    hide OperandOk, OperandsOk, ChildOk;
    EmitOk(sc, t, t, i);
  }

  lemma TablesIs(sc: Scope, t: C.Tables, u: C.Tables)
    requires TablesOk(sc, t) && OperandsOk(sc, u) && u.ireps == t.ireps
    ensures TablesOk(sc, u) && OperandsOk(sc, t)
  {
    hide OperandsOk, ChildOk;
  }

  lemma TablesRet(sc: Scope, t: C.Tables, tail: bool)
    requires TablesOk(sc, t)
    ensures TablesOk(sc, C.EmitRet(t, tail))
  {
    hide OperandsOk, ChildOk;
    RetOk(sc, t, tail);
  }

  lemma TablesPatch(sc: Scope, t: C.Tables, k: nat, i: Insn)
    requires TablesOk(sc, t) && k < |t.code| && (i.Jmp? || i.JmpIf?)
    ensures TablesOk(sc, C.Patch(t, k, i))
  {
    hide OperandsOk, ChildOk;
    PatchOk(sc, t, k, i);
  }

  lemma FreeInsn(sc: Scope, t: C.Tables, i: Insn)
    requires i.Pop? || i.Jmp? || i.JmpIf? || i.CallI? || i.TailCallI? || i.PrimI?
    ensures OperandOk(sc, t, i)
  {
  }

  lemma TablesFree(sc: Scope, t: C.Tables, i: Insn)
    requires TablesOk(sc, t) && (i.Pop? || i.Jmp? || i.JmpIf? || i.CallI? || i.TailCallI? || i.PrimI?)
    ensures TablesOk(sc, C.Emit(t, i))
  {
    hide *;
    FreeInsn(sc, t, i);
    TablesEmit(sc, t, i);
  }

  /** Code generation keeps operands in range, here and in every child. */
  lemma {:induction false} GenOk(sc: Scope, a: AExpr, tail: bool, t: C.Tables)
    requires TablesOk(sc, t) && C.Gen(sc, a, tail, t).Some?
    ensures TablesOk(sc, C.Gen(sc, a, tail, t).value)
    decreases a, 1
  {
    hide TablesOk, OperandsOk, C.GenQuote, C.GenRef, C.GenStore, C.EmitRet, C.GenLambda;
    match a
    case AQuote(d) =>
      TablesParts(sc, t);
      QuoteOk(sc, d, t);
      TablesIs(sc, t, C.GenQuote(d, t));
      TablesRet(sc, C.GenQuote(d, t), tail);
    case AVar(r) =>
      TablesParts(sc, t);
      RefOk(sc, r, t);
      TablesIs(sc, t, C.GenRef(sc, r, t).value);
      TablesRet(sc, C.GenRef(sc, r, t).value, tail);
    case ASet(r, e) =>
      GenOk(sc, e, false, t);
      var t1 := C.Gen(sc, e, false, t).value;
      TablesParts(sc, t1);
      StoreOk(sc, r, t1);
      TablesIs(sc, t1, C.GenStore(sc, r, t1).value);
      TablesRet(sc, C.GenStore(sc, r, t1).value, tail);
    case AIf(_, _, _) => GenIfOk(sc, a, tail, t);
    case ABegin(e1, e2) =>
      GenOk(sc, e1, false, t);
      var t1 := C.Gen(sc, e1, false, t).value;
      TablesFree(sc, t1, Pop);
      GenOk(sc, e2, tail, C.Emit(t1, Pop));
    case ALambda(_, _, _, _, _) => GenClosureOk(sc, a, tail, t);
    case ACall(_, _) => GenCallOk(sc, a, tail, t);
  }

  lemma TablesParts(sc: Scope, t: C.Tables)
    requires TablesOk(sc, t)
    ensures OperandsOk(sc, t)
  {
  }

  lemma {:induction false} GenIfOk(sc: Scope, a: AExpr, tail: bool, t: C.Tables)
    requires a.AIf? && TablesOk(sc, t) && C.Gen(sc, a, tail, t).Some?
    ensures TablesOk(sc, C.Gen(sc, a, tail, t).value)
    decreases a, 0
  {
    hide *;
    var t1, t2, t3, t4, t5 := Sim.IfParts(sc, a, tail, t);
    GenOk(sc, a.c, false, t);
    TablesFree(sc, t1, JmpIf(0));
    GenOk(sc, a.f, tail, C.Emit(t1, JmpIf(0)));
    TablesFree(sc, t2, Jmp(0));
    TablesPatch(sc, C.Emit(t2, Jmp(0)), |t1.code|, JmpIf(|C.Emit(t2, Jmp(0)).code| - |t1.code|));
    GenOk(sc, a.t, tail, t3);
    TablesPatch(sc, t4, |t2.code|, Jmp(|t4.code| - |t2.code|));
  }

  lemma {:induction false} GenCallOk(sc: Scope, a: AExpr, tail: bool, t: C.Tables)
    requires a.ACall? && TablesOk(sc, t) && C.Gen(sc, a, tail, t).Some?
    ensures TablesOk(sc, C.Gen(sc, a, tail, t).value)
    decreases a, 0
  {
    hide TablesOk, C.EmitRet, C.Emit, C.Inlined;
    match C.Inlined(a.fn, |a.args|)
    case Some(p) =>
      GenListOk(sc, a.args, t);
      var t1 := C.GenList(sc, a.args, t).value;
      TablesFree(sc, t1, PrimI(p));
      TablesRet(sc, C.Emit(t1, PrimI(p)), tail);
    case None =>
      GenOk(sc, a.fn, false, t);
      var t1 := C.Gen(sc, a.fn, false, t).value;
      GenListOk(sc, a.args, t1);
      TablesFree(sc, C.GenList(sc, a.args, t1).value, if tail then TailCallI(|a.args| + 1) else CallI(|a.args| + 1));
  }

  lemma {:induction false} GenListOk(sc: Scope, as': seq<AExpr>, t: C.Tables)
    requires TablesOk(sc, t) && C.GenList(sc, as', t).Some?
    ensures TablesOk(sc, C.GenList(sc, as', t).value)
    decreases as', 0
  {
    hide TablesOk;
    if as' != [] {
      GenOk(sc, as'[0], false, t);
      GenListOk(sc, as'[1..], C.Gen(sc, as'[0], false, t).value);
    }
  }

  lemma {:induction false} GenClosureOk(sc: Scope, a: AExpr, tail: bool, t: C.Tables)
    requires a.ALambda? && TablesOk(sc, t) && C.Gen(sc, a, tail, t).Some?
    ensures TablesOk(sc, C.Gen(sc, a, tail, t).value)
    decreases a, 0
  {
    var ir := C.GenLambda(sc, a).value;
    var inner := Scope(a.params, a.rest, a.locals, a.captures, Some(sc));
    var t0 := C.NO_TABLES.(code := C.ActivationCode(inner));
    assert C.Gen(inner, a.body, true, t0).Some? && ir == C.Finish(inner, C.Gen(inner, a.body, true, t0).value);
    var u := t.(ireps := t.ireps + [ir]);
    assert C.Gen(sc, a, tail, t).value == C.EmitRet(C.Emit(u, LambdaI(|t.ireps|)), tail);
    ActivationOk(inner);
    hide *;
    GenOk(inner, a.body, true, t0);
    MadeOk(inner, a.body, ir);
    AddChild(sc, t, inner, ir);
    TablesRet(sc, C.Emit(u, LambdaI(|t.ireps|)), tail);
  }

  lemma ActivationOk(sc: Scope)
    ensures TablesOk(sc, C.NO_TABLES.(code := C.ActivationCode(sc)))
  {
    var t := C.NO_TABLES.(code := C.ActivationCode(sc));
    forall pc | 0 <= pc < |t.code| ensures OperandOk(sc, t, t.code[pc]) {
      assert t.code[pc] == C.Activation(sc, pc);
    }
  }

  lemma AddChild(sc: Scope, t: C.Tables, inner: Scope, ir: Irep)
    requires TablesOk(sc, t) && inner.up == Some(sc) && IrepOk(inner, ir)
    ensures TablesOk(sc, C.Emit(t.(ireps := t.ireps + [ir]), LambdaI(|t.ireps|)))
  {
    hide OperandsOk, IrepOk;
    var u := t.(ireps := t.ireps + [ir]);
    assert OperandOk(sc, u, LambdaI(|t.ireps|));
    EmitOk(sc, t, u, LambdaI(|t.ireps|));
    assert ChildOk(sc, ir);
  }

  // ---------- procedures ----------

  function Ladder(n: nat): (hs: Heights)
    ensures forall pc :: (pc in hs <==> 0 <= pc < n) && (pc in hs ==> hs[pc] == pc)
  {
    if n == 0 then map[] else Ladder(n - 1)[n - 1 := n - 1]
  }

  /** The code in front of the body, one operand for each captured variable. */
  lemma ActivationTyped(sc: Scope, code: seq<Insn>, base: nat) returns (hs: Heights)
    requires C.ActivationCode(sc) <= code && sc.captures != []
    ensures Starts(hs, 0, 0) && Typed(code, hs, 0, |sc.captures|, base, Some(|sc.captures|))
  {
    var n := |sc.captures|;
    hs := Ladder(n);
    forall pc | pc in hs ensures TypedAt(code, hs, 0, n, base, Some(n), pc) {
      assert code[pc] == C.ActivationCode(sc)[pc] == C.Activation(sc, pc);
    }
  }

  /** A finished code object is in order when its tables are. */
  lemma MadeOk(sc: Scope, body: AExpr, ir: Irep)
    requires C.Gen(sc, body, true, C.NO_TABLES.(code := C.ActivationCode(sc))).Some?
    requires ir == C.Finish(sc, C.Gen(sc, body, true, C.NO_TABLES.(code := C.ActivationCode(sc))).value)
    requires TablesOk(sc, C.Gen(sc, body, true, C.NO_TABLES.(code := C.ActivationCode(sc))).value)
    ensures IrepOk(sc, ir)
  {
    var t0 := C.NO_TABLES.(code := C.ActivationCode(sc));
    var t1 := C.Gen(sc, body, true, t0).value;
    C.GenExtends(sc, body, true, t0);
    hide C.Gen, C.ActivationCode, Typed, OperandsOk, ChildOk;
    var n := |sc.captures|;
    assert CodeAt(ir, n, t1);
    var ys := GenTyped(ir, sc, body, true, t0, n, n);
    PieceIs(ir, ys, n, |t1.code|, true, n, n);
    var hs := ys;
    if n > 0 {
      var xs := ActivationTyped(sc, ir.code, n);
      hs := Then(ir.code, xs, ys, 0, n, |t1.code|, n, 0, n, None);
    }
    assert BodyTyped(sc, ir.code);
    assert TablesOf(ir) == t1;
  }

  /** Every compiled program is well formed, with all the procedures in it. */
  lemma CompiledOk(e: Expr, ir: Irep)
    requires Compiler.Compile(e) == Some(ir)
    ensures IrepOk(A.TOP_SCOPE, ir)
  {
    var a := A.AnalyzeProgram(e);
    var sc := A.TOP_SCOPE;
    var t0 := C.NO_TABLES.(code := C.ActivationCode(sc));
    assert C.ActivationCode(sc) == [] && t0 == C.NO_TABLES;
    assert C.GenProgram(a) == Some(ir);
    ActivationOk(sc);
    hide TablesOk, IrepOk, C.Gen, A.AnalyzeProgram;
    GenOk(sc, a, true, t0);
    MadeOk(sc, a, ir);
  }
}
