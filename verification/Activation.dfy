/** Making closures and entering procedures: how the represented world grows. */
module Activation {
  import opened Util
  import opened Syntax
  import opened Relation
  import opened Instructions
  import Builtins
  import S = Source
  import A = Analyzer
  import C = Codegen
  import H = HeapMachine

  // ---------- relations survive in a larger world ----------

  lemma GlobalsExt(w: World, w1: World, g: map<Name, Option<S.SVal>>, hg: map<Name, Option<H.VVal>>)
    requires Ext(w, w1) && GlobalsRel(w, g, hg)
    ensures GlobalsRel(w1, g, hg)
  {
    forall x | x in g && g[x].Some? ensures ValRel(w1, g[x].value, hg[x].value) {
      ValRelExt(w, w1, g[x].value, hg[x].value);
    }
  }

  lemma CapturesExt(w: World, w1: World, frames: seq<S.Frame>, frames1: seq<S.Frame>, f: nat, file: seq<H.VVal>)
    requires Ext(w, w1) && f < |frames| == |w.scopes| && |frames1| == |w1.scopes|
    requires frames1[f] == frames[f] && CapturesRel(w, frames, f, file)
    ensures CapturesRel(w1, frames1, f, file)
  {
    forall i | 0 <= i < |file| ensures ValRel(w1, frames1[f].vals[CaptureSlot(w1.scopes[f], i)], file[i]) {
      ValRelExt(w, w1, frames[f].vals[CaptureSlot(w.scopes[f], i)], file[i]);
    }
  }

  lemma SlotsExt(w: World, w1: World, frames: seq<S.Frame>, frames1: seq<S.Frame>, f: nat, slots: seq<H.VVal>)
    requires Ext(w, w1) && f < |frames| == |w.scopes| && |frames1| == |w1.scopes|
    requires frames1[f].names == frames[f].names && |frames1[f].vals| == |frames[f].vals|
    requires forall j | 0 <= j < |frames[f].vals| && j < |frames[f].names| ::
               frames[f].names[j] !in w.scopes[f].captures ==> frames1[f].vals[j] == frames[f].vals[j]
    requires SlotsRel(w, frames, f, slots)
    ensures SlotsRel(w1, frames1, f, slots)
  {
    forall j | 0 <= j < |frames[f].names| && IndexOf(frames[f].names, frames[f].names[j]) == j &&
               frames[f].names[j] !in w.scopes[f].captures
      ensures ValRel(w1, frames1[f].vals[j], slots[1 + j])
    {
      ValRelExt(w, w1, frames[f].vals[j], slots[1 + j]);
    }
  }

  /** A frame whose own variables were left alone is still represented by the same machine frame. */
  lemma TopKept(w: World, s: S.Store, w1: World, s1: S.Store, f: nat, fr: H.Frame)
    requires FramesOk(w, s.frames) && FramesOk(w1, s1.frames) && f < |s.frames|
    requires Ext(w, w1) && Keeps(w, s, w1, s1, {}) && TopOk(w, s.frames, f, fr)
    ensures f < |s1.frames| && TopOk(w1, s1.frames, f, fr)
  {
    assert FrameOk(w, s.frames, f) && FrameOk(w1, s1.frames, f);
    assert KeepsFrame(w, s, w1, s1, f);
    SlotsExt(w, w1, s.frames, s1.frames, f, fr.slots);
    if f !in w.beta {
      assert s1.frames[f].vals == s.frames[f].vals;
      CapturesExt(w, w1, s.frames, s1.frames, f, fr.file);
    }
  }

  lemma KeepsTrans(w: World, s: S.Store, w1: World, s1: S.Store, w2: World, s2: S.Store, except: set<nat>)
    requires FramesOk(w, s.frames) && FramesOk(w1, s1.frames) && Ext(w, w1)
    requires Keeps(w, s, w1, s1, except) && Keeps(w1, s1, w2, s2, except)
    ensures Keeps(w, s, w2, s2, except)
  {
    forall g | 0 <= g < |s.frames| && g !in except ensures KeepsFrame(w, s, w2, s2, g) {
      assert FrameOk(w, s.frames, g) && FrameOk(w1, s1.frames, g);
      assert KeepsFrame(w, s, w1, s1, g) && KeepsFrame(w1, s1, w2, s2, g);
    }
  }

  lemma KeepsRefl(w: World, s: S.Store, except: set<nat>)
    requires FramesOk(w, s.frames)
    ensures Keeps(w, s, w, s, except)
  {
  }

  // ---------- OP_LAMBDA ----------

  /** The capture area of the top frame becomes a context. */
  lemma NewContext(w: World, s: S.Store, h: H.State, f: nat) returns (w1: World)
    requires Inv(w, s, h, f) && f !in w.beta
    ensures w1 == w.(beta := w.beta[f := |h.cxts|])
    ensures Ext(w, w1) && Inv(w1, s, H.MakeContext(h), f) && Keeps(w, s, w1, s, {f})
    ensures H.Top(H.MakeContext(h)).cxt == Some(|h.cxts|)
  {
    w1 := w.(beta := w.beta[f := |h.cxts|]);
    var h1 := H.MakeContext(h);
    var fr := H.Top(h);
    assert H.Top(h1) == fr.(cxt := Some(|h.cxts|), file := []);
    forall g | 0 <= g < |s.frames| ensures FrameOk(w1, s.frames, g) {
      assert FrameOk(w, s.frames, g);
    }
    CapturesExt(w, w1, s.frames, s.frames, f, fr.file);
    NewContextsOk(w, s, h, f, w1);
    GlobalsExt(w, w1, s.globals, h.globals);
    SlotsExt(w, w1, s.frames, s.frames, f, fr.slots);
    assert FrameOk(w, s.frames, f);
  }

  lemma NewContextsOk(w: World, s: S.Store, h: H.State, f: nat, w1: World)
    requires Inv(w, s, h, f) && f !in w.beta && w1 == w.(beta := w.beta[f := |h.cxts|])
    requires CapturesRel(w1, s.frames, f, H.Top(h).file)
    ensures ContextsOk(w1, s.frames, H.MakeContext(h).cxts)
  {
    var cxts1 := H.MakeContext(h).cxts;
    assert cxts1 == h.cxts + [H.Context(H.Top(h).up, H.Top(h).file)];
    forall g | g in w1.beta ensures ContextOk(w1, s.frames, cxts1, g) {
      assert FrameOk(w, s.frames, g) by {
        if g != f { assert ContextOk(w, s.frames, h.cxts, g); }
      }
      if g != f {
        assert ContextOk(w, s.frames, h.cxts, g);
        CapturesExt(w, w1, s.frames, s.frames, g, h.cxts[w.beta[g]].vals);
      }
    }
    forall g, k | g in w1.beta && k in w1.beta && w1.beta[g] == w1.beta[k] ensures g == k {
      if g != f { assert ContextOk(w, s.frames, h.cxts, g); }
      if k != f { assert ContextOk(w, s.frames, h.cxts, k); }
    }
  }

  /** What OP_LAMBDA computes. */
  lemma LambdaComputes(h: H.State, k: nat)
    requires h.frames != [] && 0 <= h.ip.pc < |h.ip.code| && h.ip.code[h.ip.pc] == LambdaI(k)
    requires k < |H.Top(h).irep.ireps| && (H.Top(h).cxt.None? ==> |H.Top(h).file| == H.Top(h).irep.capturec)
    ensures var h0 := H.MakeContext(h);
            h0.frames != [] && H.Top(h0).temps == H.Top(h).temps &&
            H.Step(h) == H.Next(WithTemps(h0, H.Top(h).temps + [Proc(H.Closure(H.Top(h).irep.ireps[k], H.Top(h0).cxt))],
                                          h.ip.pc + 1))
  {
    assert H.Step(h) == H.DoLambda(h, k);
    hide H.Step;
  }

  /** A closure is made in the top frame. */
  lemma LambdaStep(w: World, s: S.Store, h: H.State, f: nat, lam: Expr, k: nat)
    returns (w1: World, h1: H.State, x: H.VVal)
    requires Inv(w, s, h, f) && 0 <= h.ip.pc < |h.ip.code| && h.ip.code[h.ip.pc] == LambdaI(k) && lam.Lambda?
    requires k < |H.Top(h).irep.ireps| && CompiledAs(w.scopes[f], lam, H.Top(h).irep.ireps[k])
    ensures H.Step(h) == H.Next(h1) && Ext(w, w1) && Inv(w1, s, h1, f) && Keeps(w, s, w1, s, {f})
    ensures ValRel(w1, Proc(S.Closure(lam, f)), x)
    ensures h1.ip == h.ip.(pc := h.ip.pc + 1) && h1.frames == h.frames[|h.frames| - 1 := H.Top(h1)]
    ensures H.Top(h1) == H.Top(h).(cxt := H.Top(h1).cxt, file := H.Top(h1).file, temps := H.Top(h).temps + [x])
  {
    hide Keeps;
    hide H.Step;
    hide CompiledAs;
    assert FrameOk(w, s.frames, f);
    if f in w.beta {
      w1 := w;
      KeepsRefl(w, s, {f});
    } else {
      w1 := NewContext(w, s, h, f);
    }
    LambdaComputes(h, k);
    var h0 := H.MakeContext(h);
    x := Proc(H.Closure(H.Top(h).irep.ireps[k], H.Top(h0).cxt));
    h1 := WithTemps(h0, H.Top(h).temps + [x], h.ip.pc + 1);
    TempsInv(w1, s, h0, f, H.Top(h).temps + [x], h.ip.pc + 1);
    assert H.Top(h0).cxt == Some(w1.beta[f]);
    hide Inv;
  }

  // ---------- entering a procedure ----------

  /** The initial slots of related frames are related. */
  lemma SlotsRelInitial(w: World, lam: Expr, env: nat, vs: seq<S.SVal>, xs: seq<H.VVal>)
    requires lam.Lambda? && ValsRel(w, vs, xs) && S.ArityOk(|lam.params|, lam.rest.Some?, |vs|)
    ensures |S.NewFrame(lam, env, vs).vals| == |S.NewFrame(lam, env, vs).names|
    ensures ValsRel(w, S.NewFrame(lam, env, vs).vals, S.InitialSlots(|lam.params|, lam.rest.Some?, |lam.locals|, xs))
  {
    ListRel(w, vs[|lam.params|..], xs[|lam.params|..]);
  }

  /** A local that is neither a parameter nor the rest list starts out undefined. */
  lemma LocalsStartUndefined(lam: Expr, env: nat, vs: seq<S.SVal>, x: Name)
    requires lam.Lambda? && S.ArityOk(|lam.params|, lam.rest.Some?, |vs|)
    requires x in S.NewFrame(lam, env, vs).names
    requires IndexOf(S.NewFrame(lam, env, vs).names, x) >= |lam.params| && lam.rest != Some(x)
    ensures var fr := S.NewFrame(lam, env, vs);
            IndexOf(fr.names, x) < |fr.vals| && fr.vals[IndexOf(fr.names, x)] == Undef
  {
  }

  /** The world after a call has made a frame in scope `sc`. */
  function Entered(w: World, sc: Scope): World {
    w.(scopes := w.scopes + [sc])
  }

  lemma EnteredBase(w: World, s: S.Store, h: H.State, sc: Scope, fr: S.Frame)
    requires Base(w, s, h) && A.CapturesOk(sc) && fr.names == Names(sc) && |fr.vals| == |fr.names|
    requires fr.up.Some? && fr.up.value < |s.frames| && fr.up.value in w.beta && sc.up == Some(w.scopes[fr.up.value])
    ensures var w1, s1 := Entered(w, sc), s.(frames := s.frames + [fr]);
            Ext(w, w1) && Base(w1, s1, h) && Keeps(w, s, w1, s1, {})
  {
    var w1, s1 := Entered(w, sc), s.(frames := s.frames + [fr]);
    forall g | 0 <= g < |s1.frames| ensures FrameOk(w1, s1.frames, g) {
      if g < |s.frames| { assert FrameOk(w, s.frames, g); }
    }
    forall g | g in w1.beta ensures ContextOk(w1, s1.frames, h.cxts, g) {
      assert ContextOk(w, s.frames, h.cxts, g);
      CapturesExt(w, w1, s.frames, s1.frames, g, h.cxts[w.beta[g]].vals);
    }
    GlobalsExt(w, w1, s.globals, h.globals);
  }

  /** A machine frame that has just been entered for source frame `f`: every variable is in its
      slot, and the first captured ones have been copied to the capture area. */
  ghost predicate Entering(w: World, frames: seq<S.Frame>, f: nat, fr: H.Frame) {
    && FramesOk(w, frames) && f < |frames| && FrameOk(w, frames, f) && f !in w.beta
    && (var sc := w.scopes[f];
        && fr.irep.capturec == |sc.captures| && |fr.file| <= |sc.captures| && fr.cxt == None && fr.temps == []
        && |fr.slots| == 1 + |frames[f].names| && ValsRel(w, frames[f].vals, fr.slots[1..])
        && fr.up == UpContext(w, frames[f].up)
        && C.ActivationCode(sc) <= fr.irep.code
        && (forall i :: 0 <= i < |fr.file| ==>
              CaptureSlot(sc, i) < |frames[f].vals| && ValRel(w, frames[f].vals[CaptureSlot(sc, i)], fr.file[i]))
        && (forall i :: 0 <= i < |sc.captures| && C.Activation(sc, i) == PushUndef ==>
              CaptureSlot(sc, i) < |frames[f].vals| && frames[f].vals[CaptureSlot(sc, i)] == Undef))
  }

  lemma EnteringStep(w: World, frames: seq<S.Frame>, f: nat, h: H.State) returns (h1: H.State)
    requires h.frames != [] && Entering(w, frames, f, H.Top(h)) && AtCode(h, |H.Top(h).file|)
    requires |H.Top(h).file| < |w.scopes[f].captures|
    ensures H.Step(h) == H.Next(h1) && h1 == h.(frames := h1.frames, ip := h1.ip)
    ensures h1.frames != [] && Entering(w, frames, f, H.Top(h1)) && AtCode(h1, |H.Top(h1).file|)
    ensures h1.frames == h.frames[|h.frames| - 1 := H.Top(h1)]
    ensures H.Top(h1) == H.Top(h).(file := H.Top(h1).file) && |H.Top(h1).file| == |H.Top(h).file| + 1
  {
    hide H.Step;
    var y := ActivationStep(w, frames, f, h);
    h1 := H.Push(h, y).s;
    EnteringMore(w, frames, f, H.Top(h), y);
    hide Entering;
    assert H.Top(h1) == H.Top(h).(file := H.Top(h).file + [y]);
  }

  /** The instruction that copies the next captured variable. */
  lemma ActivationStep(w: World, frames: seq<S.Frame>, f: nat, h: H.State) returns (y: H.VVal)
    requires h.frames != [] && Entering(w, frames, f, H.Top(h)) && AtCode(h, |H.Top(h).file|)
    requires |H.Top(h).file| < |w.scopes[f].captures|
    ensures H.Step(h) == H.Push(h, y)
    ensures var j := CaptureSlot(w.scopes[f], |H.Top(h).file|);
            j < |frames[f].vals| && ValRel(w, frames[f].vals[j], y)
  {
    hide H.Step, H.Push;
    var fr, sc := H.Top(h), w.scopes[f];
    var k := |fr.file|;
    assert C.ActivationCode(sc)[k] == C.Activation(sc, k);
    var insn := h.ip.code[h.ip.pc];
    assert insn == C.Activation(sc, k);
    H.StepIs(h, insn);
    var j := CaptureSlot(sc, k);
    assert sc.captures[k] in Names(sc);
    y := if insn.LRefI? then fr.slots[1 + j] else Undef;
    if insn.LRefI? {
      assert ValRel(w, frames[f].vals[j], fr.slots[1..][j]);
    }
  }

  lemma EnteringMore(w: World, frames: seq<S.Frame>, f: nat, fr: H.Frame, y: H.VVal)
    requires Entering(w, frames, f, fr) && |fr.file| < |w.scopes[f].captures|
    requires var j := CaptureSlot(w.scopes[f], |fr.file|);
             j < |frames[f].vals| && ValRel(w, frames[f].vals[j], y)
    ensures Entering(w, frames, f, fr.(file := fr.file + [y]))
  {
    hide ValRel;
  }

  lemma EnteringBound(w: World, frames: seq<S.Frame>, f: nat, fr: H.Frame)
    requires Entering(w, frames, f, fr)
    ensures f < |w.scopes| && |fr.file| <= |w.scopes[f].captures|
  {
    hide ValRel, ValsRel;
  }

  /** The activation code fills the capture area. */
  lemma {:induction false} Prologue(w: World, frames: seq<S.Frame>, f: nat, h: H.State) returns (n: nat, h1: H.State)
    requires h.frames != [] && Entering(w, frames, f, H.Top(h)) && AtCode(h, |H.Top(h).file|)
    ensures H.Run(h, n) == H.Next(h1) && h1 == h.(frames := h1.frames, ip := h1.ip)
    ensures h1.frames != [] && Entering(w, frames, f, H.Top(h1)) && AtCode(h1, |H.Top(h1).file|)
    ensures h1.frames == h.frames[|h.frames| - 1 := H.Top(h1)]
    ensures H.Top(h1) == H.Top(h).(file := H.Top(h1).file) && |H.Top(h1).file| == |w.scopes[f].captures|
    decreases |w.scopes[f].captures| - |H.Top(h).file|
  {
    hide *;
    EnteringBound(w, frames, f, H.Top(h));
    if |H.Top(h).file| == |w.scopes[f].captures| {
      n, h1 := 0, h;
      H.RunNone(h);
      assert h.frames[|h.frames| - 1 := H.Top(h)] == h.frames by { H.TopLast(h); }
    } else {
      var h0 := EnteringStep(w, frames, f, h);
      EnteringBound(w, frames, f, H.Top(h0));
      var m;
      m, h1 := Prologue(w, frames, f, h0);
      n := m + 1;
      H.RunFirst(h, h0, m);
    }
  }

  /** Once the capture area is full, the frame represents the source frame. */
  lemma EnteredTopOk(w: World, frames: seq<S.Frame>, f: nat, fr: H.Frame)
    requires Entering(w, frames, f, fr) && |fr.file| == |w.scopes[f].captures|
    ensures TopOk(w, frames, f, fr)
  {
    forall j | 0 <= j < |frames[f].names| ensures ValRel(w, frames[f].vals[j], fr.slots[1 + j]) {
      assert ValRel(w, frames[f].vals[j], fr.slots[1..][j]);
    }
  }
}
