/** One instruction at a time: what the code emitted for constants, references, assignments,
    closures and returns does in a state that represents the store. */
module Instructions {
  import opened Util
  import opened Syntax
  import opened Relation
  import Builtins
  import S = Source
  import A = Analyzer
  import C = Codegen
  import H = HeapMachine
  import V = Variables

  /** The code object holds the code emitted from position `from` up to `t1`, and its tables. */
  ghost predicate CodeAt(ir: Irep, from: nat, t1: C.Tables) {
    && |t1.code| <= |ir.code|
    && (forall i :: from <= i < |t1.code| ==> ir.code[i] == t1.code[i])
    && t1.ireps <= ir.ireps && t1.ints <= ir.ints && t1.nums <= ir.nums && t1.pool <= ir.pool
  }

  /** The machine is about to run the instruction at `pc` of the top frame's code. */
  ghost predicate AtCode(h: H.State, pc: int) {
    h.frames != [] && h.ip == H.Ip(H.Top(h).irep.code, pc)
  }

  /** The same state with other operands, at another place. */
  function WithTemps(h: H.State, temps: seq<H.VVal>, pc: int): H.State
    requires h.frames != []
  {
    H.WithTop(h, H.Top(h).(temps := temps)).(ip := h.ip.(pc := pc))
  }

  lemma TempsInv(w: World, s: S.Store, h: H.State, f: nat, temps: seq<H.VVal>, pc: int)
    requires Inv(w, s, h, f)
    ensures Inv(w, s, WithTemps(h, temps, pc), f)
  {
  }

  /** The code that `t1` adds to `t` at its end. */
  lemma Fetch(h: H.State, t: C.Tables, t1: C.Tables)
    requires AtCode(h, |t.code|) && CodeAt(H.Top(h).irep, |t.code|, t1) && |t.code| < |t1.code|
    ensures 0 <= h.ip.pc < |h.ip.code| && h.ip.code[h.ip.pc] == t1.code[|t.code|]
  {
  }

  lemma PushStep(w: World, s: S.Store, h: H.State, f: nat, v: H.VVal)
    requires Inv(w, s, h, f)
    ensures H.Push(h, v) == H.Next(WithTemps(h, H.Top(h).temps + [v], h.ip.pc + 1))
  {
  }

  lemma QuoteStep(w: World, s: S.Store, h: H.State, f: nat, d: Datum, t: C.Tables)
    requires Inv(w, s, h, f) && AtCode(h, |t.code|) && CodeAt(H.Top(h).irep, |t.code|, C.GenQuote(d, t))
    ensures |C.GenQuote(d, t).code| == |t.code| + 1
    ensures H.Step(h) == H.Next(WithTemps(h, H.Top(h).temps + [Inject(d)], |t.code| + 1))
  {
    hide Inv, WithTemps, H.Push, H.Step;
    var t1 := C.GenQuote(d, t);
    var insn := t1.code[|t.code|];
    Fetch(h, t, t1);
    H.StepIs(h, insn);
    PushStep(w, s, h, f, Inject(d));
    match d
    case DUndef =>
    case DBool(_) =>
    case DInt(i) => assert H.Top(h).irep.ints[|t.ints|] == t1.ints[|t.ints|];
    case DFlo(r) => assert H.Top(h).irep.nums[|t.nums|] == t1.nums[|t.nums|];
    case DNil =>
    case DEof =>
    case DChar(c) => assert H.Top(h).irep.ints[|t.ints|] == t1.ints[|t.ints|];
    case DSym(_) => assert H.Top(h).irep.pool[|t.pool|] == t1.pool[|t.pool|];
    case DPair(_, _) => assert H.Top(h).irep.pool[|t.pool|] == t1.pool[|t.pool|];
  }

  /** Reading a variable. */
  lemma RefStep(w: World, s: S.Store, h: H.State, f: nat, x: Name, r: Ref, t: C.Tables) returns (y: H.VVal)
    requires Inv(w, s, h, f) && AtCode(h, |t.code|) && A.AddressedRef(w.scopes[f], x, r)
    requires C.GenRef(w.scopes[f], r, t).Some?
    requires CodeAt(H.Top(h).irep, |t.code|, C.GenRef(w.scopes[f], r, t).value)
    ensures |C.GenRef(w.scopes[f], r, t).value.code| == |t.code| + 1
    ensures match S.Lookup(s, f, x)
            case Some(v) =>
              H.Step(h) == H.Next(WithTemps(h, H.Top(h).temps + [y], |t.code| + 1)) && ValRel(w, v, y)
            case None => H.Step(h) == H.Fault
  {
    hide H.Step, WithTemps, H.Push;
    var t1 := C.GenRef(w.scopes[f], r, t).value;
    var insn := t1.code[|t.code|];
    Fetch(h, t, t1);
    H.StepIs(h, insn);
    V.FindFrameDistance(w, s.frames, h.cxts, f, x);
    y := Undef;
    match r
    case GRef(_) =>
      assert H.Top(h).irep.pool[|t.pool|] == t1.pool[|t.pool|];
      if x in s.globals && s.globals[x].Some? {
        y := h.globals[x].value;
        PushStep(w, s, h, f, y);
      }
    case LRef(_) =>
      V.ReadOwn(w, s, h, f, x);
      y := H.ReadSlot(h, H.Top(h), C.IndexOwn(w.scopes[f], x).value).value;
      PushStep(w, s, h, f, y);
    case CRef(d, _) =>
      V.ReadOuter(w, s, h, f, x, d);
      y := h.cxts[H.Climb(h.cxts, H.Top(h).up, d).value].vals[C.IndexCapture(w.scopes[f], x, d).value];
      PushStep(w, s, h, f, y);
  }

  /** An assignment instruction was run: the store moved to `s1`, an undefined value is left. */
  ghost predicate Stored(w: World, s: S.Store, h: H.State, f: nat, s1: S.Store, h1: H.State)
    requires h.frames != [] && H.Top(h).temps != []
  {
    && Inv(w, s1, h1, f) && Keeps(w, s, w, s1, {f})
    && h1.ip == h.ip.(pc := h.ip.pc + 1) && h1.frames == h.frames[|h.frames| - 1 := H.Top(h1)]
    && H.Top(h1) == H.Top(h).(slots := H.Top(h1).slots, file := H.Top(h1).file, temps := H.Top(h1).temps)
    && H.Top(h1).temps == H.Top(h).temps[..|H.Top(h).temps| - 1] + [Undef]
  }

  /** The state in which the popped operand is stored. */
  function Popped(h: H.State): H.State
    requires h.frames != [] && H.Top(h).temps != []
  {
    WithTemps(h, H.Top(h).temps[..|H.Top(h).temps| - 1] + [Undef], h.ip.pc + 1)
  }

  lemma StoreGlobal(w: World, s: S.Store, h: H.State, f: nat, x: Name, v: S.SVal, y: H.VVal)
    requires Inv(w, s, h, f) && H.Top(h).temps != [] && ValRel(w, v, y)
    requires x in s.globals && Builtins.InlineName(x).None?
    ensures var h0 := Popped(h);
            Stored(w, s, h, f, s.(globals := s.globals[x := Some(v)]), h0.(globals := h0.globals[x := Some(y)]))
  {
    hide Keeps;
    TempsInv(w, s, h, f, H.Top(h).temps[..|H.Top(h).temps| - 1] + [Undef], h.ip.pc + 1);
    V.WriteGlobal(w, s, Popped(h), f, x, v, y);
    hide Inv;
  }

  lemma StoreOwn(w: World, s: S.Store, h: H.State, f: nat, x: Name, v: S.SVal, y: H.VVal)
    requires Inv(w, s, h, f) && H.Top(h).temps != [] && ValRel(w, v, y) && x in s.frames[f].names
    ensures var n := C.IndexOwn(w.scopes[f], x);
            n.Some? && S.Update(s, f, x, v).Some? && H.WriteSlot(Popped(h), n.value, y).Some? &&
            Stored(w, s, h, f, S.Update(s, f, x, v).value, H.WriteSlot(Popped(h), n.value, y).value)
  {
    hide Keeps;
    hide H.WriteSlot;
    hide S.Update;
    TempsInv(w, s, h, f, H.Top(h).temps[..|H.Top(h).temps| - 1] + [Undef], h.ip.pc + 1);
    V.WriteOwn(w, s, Popped(h), f, x, v, y);
    hide Inv;
  }

  lemma StoreOuter(w: World, s: S.Store, h: H.State, f: nat, x: Name, d: nat, v: S.SVal, y: H.VVal)
    requires Inv(w, s, h, f) && H.Top(h).temps != [] && ValRel(w, v, y)
    requires d > 0 && A.AddressedRef(w.scopes[f], x, CRef(d, x))
    ensures var i := C.IndexCapture(w.scopes[f], x, d);
            var c := H.Climb(h.cxts, H.Top(h).up, d);
            i.Some? && c.Some? && S.Update(s, f, x, v).Some? &&
            H.WriteContext(Popped(h), c.value, i.value, y).Some? &&
            Stored(w, s, h, f, S.Update(s, f, x, v).value, H.WriteContext(Popped(h), c.value, i.value, y).value)
  {
    hide Keeps, H.WriteContext, S.Update, H.Climb, C.IndexCapture, ValRel, A.AddressedRef, FramesOk, ContextsOk;
    TempsInv(w, s, h, f, H.Top(h).temps[..|H.Top(h).temps| - 1] + [Undef], h.ip.pc + 1);
    V.WriteOuter(w, s, Popped(h), f, x, d, v, y);
  }

  lemma InvParts(w: World, s: S.Store, h: H.State, f: nat, x: Name)
    requires Inv(w, s, h, f)
    ensures FramesOk(w, s.frames) && ContextsOk(w, s.frames, h.cxts)
    ensures f < |s.frames| == |w.scopes| && H.Top(h).up == UpContext(w, s.frames[f].up)
    ensures x in s.globals <==> x in h.globals
    ensures Builtins.InlineName(x).Some? ==>
      x in s.globals
      && s.globals[x] == Some(Builtin(Builtins.InlineName(x).value))
  {
    hide ValRel, CapturesRel, SlotsRel;
  }

  /** The instruction that stores in a variable is next. */
  lemma StoreFetch(h: H.State, sc: Scope, r: Ref, t: C.Tables)
    requires h.frames != [] && H.Top(h).temps != [] && AtCode(h, |t.code|) && C.GenStore(sc, r, t).Some?
    requires CodeAt(H.Top(h).irep, |t.code|, C.GenStore(sc, r, t).value)
    ensures var t1 := C.GenStore(sc, r, t).value;
      && |t1.code| == |t.code| + 1 && H.Step(h) == H.DoAssign(h, t1.code[|t.code|])
      && H.Reduce(h, 1, Undef) == Popped(h)
  {
    hide H.Step, H.DoAssign, C.IndexOwn, C.IndexCapture;
    var t1 := C.GenStore(sc, r, t).value;
    Fetch(h, t, t1);
    H.StepIs(h, t1.code[|t.code|]);
  }

  /** Storing the operand `y` in a variable. */
  lemma StoreStep(w: World, s: S.Store, h: H.State, f: nat, x: Name, r: Ref, t: C.Tables, v: S.SVal, y: H.VVal)
    returns (h1: H.State)
    requires Inv(w, s, h, f) && AtCode(h, |t.code|) && A.AddressedRef(w.scopes[f], x, r)
    requires C.GenStore(w.scopes[f], r, t).Some?
    requires CodeAt(H.Top(h).irep, |t.code|, C.GenStore(w.scopes[f], r, t).value)
    requires H.Top(h).temps != [] && H.Top(h).temps[|H.Top(h).temps| - 1] == y && ValRel(w, v, y)
    ensures |C.GenStore(w.scopes[f], r, t).value.code| == |t.code| + 1
    ensures match S.Update(s, f, x, v)
            case Some(s1) => H.Step(h) == H.Next(h1) && Stored(w, s, h, f, s1, h1)
            case None => H.Step(h) == H.Fault
  {
    hide Stored, H.Step, Inv, ValRel, FramesOk, ContextsOk, H.WriteSlot, H.WriteContext, H.Climb, C.IndexOwn,
      C.IndexCapture;
    InvParts(w, s, h, f, x);
    var t1 := C.GenStore(w.scopes[f], r, t).value;
    StoreFetch(h, w.scopes[f], r, t);
    V.FindFrameDistance(w, s.frames, h.cxts, f, x);
    var h0 := Popped(h);
    h1 := h0;
    hide WithTemps, Popped, H.Reduce;
    match r
    case GRef(_) =>
      assert H.Top(h).irep.pool[|t.pool|] == t1.pool[|t.pool|];
      if x in s.globals {
        StoreGlobal(w, s, h, f, x, v, y);
        h1 := h0.(globals := h0.globals[x := Some(y)]);
      }
    case LRef(_) =>
      StoreOwn(w, s, h, f, x, v, y);
      h1 := H.WriteSlot(h0, C.IndexOwn(w.scopes[f], x).value, y).value;
    case CRef(d, _) =>
      StoreOuter(w, s, h, f, x, d, v, y);
      h1 := H.WriteContext(h0, H.Climb(h.cxts, H.Top(h).up, d).value, C.IndexCapture(w.scopes[f], x, d).value, y).value;
  }
}
