/** Lazy contexts refine heap contexts: the stack machine moves in lockstep with the machine in
    which captured variables simply live in the heap, until that one is stuck. */
module Lockstep {
  import opened Util
  import opened Syntax
  import opened Contexts
  import Builtins
  import Source
  import L = LazyMachine
  import H = HeapMachine

  /** Where the stack region of call info `k` ends. */
  function Limit(s: L.State, k: nat): nat
    requires k < |s.cis|
  {
    if k + 1 < |s.cis| then s.cis[k + 1].fp else |s.stack|
  }

  /** The regions follow one another, and a frame that called or made a closure has filled its
      register area. */
  ghost predicate CiOk(s: L.State, k: nat)
    requires k < |s.cis|
  {
    var ci := s.cis[k];
    && ci.regs == ci.fp + ci.irep.argc + ci.irep.localc && ci.regc == ci.irep.capturec
    && ci.regs <= Limit(s, k) <= |s.stack|
    && (k + 1 < |s.cis| || ci.cxt.Some? ==> ci.regs + ci.regc <= Limit(s, k))
  }

  ghost predicate StackInv(s: L.State) {
    && ContextInv(s)
    && (forall k :: 0 <= k < |s.cis| ==> CiOk(s, k))
    && (forall c :: 0 <= c < |s.cxts| && s.cxts[c].regs.Torn? ==> |s.cxts[c].storage| == s.cxts[c].regc)
  }

  /** The first `n` values of a frame's area are its registers, the others its operands. */
  function Regs(area: seq<L.VVal>, n: nat): seq<L.VVal> {
    if |area| < n then area else area[..n]
  }

  function Temps(area: seq<L.VVal>, n: nat): seq<L.VVal> {
    if |area| < n then [] else area[n..]
  }

  /** The heap machine's view of a call info. */
  ghost function AbsFrame(s: L.State, k: nat): H.Frame
    requires k < |s.cis| && CiOk(s, k)
  {
    var ci := s.cis[k];
    var area := s.stack[ci.regs..Limit(s, k)];
    H.Frame(s.stack[ci.fp..ci.regs], if ci.cxt.None? then Regs(area, ci.regc) else [], Temps(area, ci.regc),
            ci.irep, ci.up, ci.cxt, ci.ip)
  }

  /** What a context holds, wherever its registers are. */
  ghost function AbsContext(s: L.State, x: L.Context): H.Context {
    H.Context(x.up,
      match x.regs
      case OnStack(b) => if b + x.regc <= |s.stack| then s.stack[b..b + x.regc] else []
      case Torn => x.storage)
  }

  ghost function Abs(s: L.State): H.State
    requires StackInv(s)
  {
    H.State(seq(|s.cis|, k requires 0 <= k < |s.cis| && CiOk(s, k) => AbsFrame(s, k)),
            s.ip,
            seq(|s.cxts|, c requires 0 <= c < |s.cxts| => AbsContext(s, s.cxts[c])),
            s.globals)
  }

  /** The owner's register area ends below the frames after it. */
  lemma {:induction false} LimitBelow(s: L.State, j: nat, k: nat)
    requires StackInv(s) && j < k < |s.cis|
    ensures Limit(s, j) <= s.cis[k].fp
    decreases k
  {
    assert CiOk(s, k - 1);
    if j < k - 1 {
      LimitBelow(s, j, k - 1);
    }
  }

  lemma OwnedRegs(s: L.State, c: nat) returns (k: nat)
    requires StackInv(s) && c < |s.cxts| && s.cxts[c].regs.OnStack?
    ensures Owns(s, k, c) && s.cxts[c].regs.base + s.cxts[c].regc <= Limit(s, k) <= |s.stack|
    ensures k + 1 < |s.cis| ==> Limit(s, k) <= L.Ci(s).fp
  {
    k :| Owns(s, k, c);
    assert CiOk(s, k);
    if k + 1 < |s.cis| { LimitBelow(s, k, |s.cis| - 1); }
  }

  // ---------- operands ----------

  /** Changing the stack above `p`, over the filled registers of the top frame, changes the
      operands of the top frame and nothing else. */
  lemma TopInv(s: L.State, s1: L.State, p: nat)
    requires StackInv(s) && s1 == s.(stack := s1.stack, ip := s1.ip)
    requires L.Ci(s).regs <= p && p <= |s1.stack| && (L.Ci(s).cxt.Some? ==> L.Ci(s).regs + L.Ci(s).regc <= p)
    ensures StackInv(s1)
  {
    var n := |s.cis| - 1;
    SameOwners(s, s1);
    forall k | 0 <= k < |s1.cis| ensures CiOk(s1, k) {
      assert CiOk(s, k) && CiOk(s, n);
      if k < n { LimitBelow(s, k, n); }
    }
    hide ContextInv;
  }

  lemma LowerFrame(s: L.State, s1: L.State, p: nat, k: nat)
    requires StackInv(s) && StackInv(s1) && s1.cis == s.cis && k < |s.cis| - 1
    requires L.Ci(s).regs <= p && p <= |s.stack| && p <= |s1.stack| && s1.stack[..p] == s.stack[..p]
    ensures CiOk(s, k) && CiOk(s1, k) && AbsFrame(s1, k) == AbsFrame(s, k)
  {
    var n := |s.cis| - 1;
    assert CiOk(s, k) && CiOk(s, n) && CiOk(s1, k);
    LimitBelow(s, k, n);
    Below(s, s1, p, s.cis[k].regs, Limit(s, k));
    Below(s, s1, p, s.cis[k].fp, s.cis[k].regs);
    hide ContextInv;
  }

  lemma LowerContext(s: L.State, s1: L.State, p: nat, c: nat)
    requires StackInv(s) && c < |s.cxts| && (L.Ci(s).cxt.Some? ==> L.Ci(s).regs + L.Ci(s).regc <= p)
    requires L.Ci(s).regs <= p && p <= |s.stack| && p <= |s1.stack| && s1.stack[..p] == s.stack[..p]
    ensures AbsContext(s1, s.cxts[c]) == AbsContext(s, s.cxts[c])
  {
    if s.cxts[c].regs.OnStack? {
      var k := OwnedRegs(s, c);
      assert CiOk(s, |s.cis| - 1);
      Below(s, s1, p, s.cxts[c].regs.base, s.cxts[c].regs.base + s.cxts[c].regc);
    }
  }

  lemma AbsParts(s: L.State)
    requires StackInv(s)
    ensures |Abs(s).frames| == |s.cis| > 0 && |Abs(s).cxts| == |s.cxts|
    ensures Abs(s).ip == s.ip && Abs(s).globals == s.globals
    ensures forall k {:trigger Abs(s).frames[k]} :: 0 <= k < |s.cis| ==>
      CiOk(s, k)
      && Abs(s).frames[k] == AbsFrame(s, k)
    ensures forall c {:trigger Abs(s).cxts[c]} :: 0 <= c < |s.cxts| ==> Abs(s).cxts[c] == AbsContext(s, s.cxts[c])
  {
    hide AbsFrame;
    hide AbsContext;
    hide CiOk;
  }

  lemma TopArea(s: L.State, s1: L.State, p: nat)
    requires StackInv(s) && s1 == s.(stack := s1.stack, ip := s1.ip)
    requires L.Ci(s).regs <= p && p <= |s.stack| && p <= |s1.stack| && s1.stack[..p] == s.stack[..p]
    requires L.Ci(s).cxt.Some? ==> L.Ci(s).regs + L.Ci(s).regc <= p
    ensures StackInv(s1) && CiOk(s1, |s.cis| - 1)
    ensures Abs(s1).cxts == Abs(s).cxts
    ensures Abs(s1).frames == Abs(s).frames[|s.cis| - 1 := AbsFrame(s1, |s.cis| - 1)]
  {
    TopInv(s, s1, p);
    AbsParts(s);
    AbsParts(s1);
    forall k | 0 <= k < |s.cis| - 1 ensures Abs(s1).frames[k] == Abs(s).frames[k] {
      LowerFrame(s, s1, p, k);
    }
    forall c | 0 <= c < |s.cxts| ensures Abs(s1).cxts[c] == Abs(s).cxts[c] {
      LowerContext(s, s1, p, c);
    }
    assert Abs(s1).frames[|s.cis| - 1] == AbsFrame(s1, |s.cis| - 1);
    hide AbsFrame;
    hide AbsContext;
    hide Abs;
    hide ContextInv;
    hide CiOk;
  }

  lemma Below(s: L.State, s1: L.State, p: nat, a: nat, b: nat)
    requires p <= |s.stack| && p <= |s1.stack| && s1.stack[..p] == s.stack[..p] && a <= b <= p
    ensures s1.stack[a..b] == s.stack[a..b]
  {
    assert s1.stack[a..b] == s1.stack[..p][a..b];
    assert s.stack[a..b] == s.stack[..p][a..b];
  }

  lemma AbsTop(s: L.State)
    requires StackInv(s)
    ensures Abs(s).frames != [] && CiOk(s, |s.cis| - 1) && H.Top(Abs(s)) == AbsFrame(s, |s.cis| - 1)
    ensures |Abs(s).frames| == |s.cis| && |Abs(s).cxts| == |s.cxts|
    ensures L.Ci(s).regs <= |s.stack|
    ensures var fr := H.Top(Abs(s));
            fr.irep == L.Ci(s).irep && fr.up == L.Ci(s).up && fr.cxt == L.Ci(s).cxt && fr.ret == L.Ci(s).ip
    ensures H.Top(Abs(s)).temps != [] ==> |s.stack| == L.Ci(s).regs + L.Ci(s).regc + |H.Top(Abs(s)).temps|
  {
    assert CiOk(s, |s.cis| - 1);
  }

  lemma PushSync(s: L.State, v: L.VVal)
    requires StackInv(s)
    ensures L.Push(s, v).Next? && StackInv(L.Push(s, v).s)
    ensures H.Push(Abs(s), v) == H.Next(Abs(L.Push(s, v).s))
  {
    hide StackInv;
    hide AbsFrame;
    var s1 := L.Push(s, v).s;
    var n := |s.cis| - 1;
    AbsTop(s);
    TopArea(s, s1, |s.stack|);
    AbsTop(s1);
    assert s1.stack[s.cis[n].regs..] == s.stack[s.cis[n].regs..] + [v];
    PushFrame(s, s1, v);
  }

  lemma PushFrame(s: L.State, s1: L.State, v: L.VVal)
    requires s.cis != [] && CiOk(s, |s.cis| - 1) && s1 == s.(stack := s.stack + [v], ip := s1.ip)
    ensures CiOk(s1, |s.cis| - 1)
    ensures AbsFrame(s1, |s.cis| - 1) == H.PushTo(AbsFrame(s, |s.cis| - 1), v)
  {
    var ci := L.Ci(s);
    var area := s.stack[ci.regs..|s.stack|];
    assert s1.stack[ci.regs..|s1.stack|] == area + [v];
    assert s1.stack[ci.fp..ci.regs] == s.stack[ci.fp..ci.regs];
    PushRegs(area, ci.regc, v);
    assert |Regs(area, ci.regc)| < ci.regc <==> |area| < ci.regc;
    hide Regs;
    hide Temps;
  }

  lemma PushRegs(area: seq<L.VVal>, n: nat, v: L.VVal)
    ensures |area| < n ==> Regs(area + [v], n) == Regs(area, n) + [v] && Temps(area + [v], n) == Temps(area, n) == []
    ensures |area| >= n ==> Regs(area + [v], n) == Regs(area, n) && Temps(area + [v], n) == Temps(area, n) + [v]
  {
  }

  /** Replacing the last operands of the top frame. */
  lemma OperandsSync(s: L.State, n: nat, xs: seq<L.VVal>, ip: L.Ip)
    requires StackInv(s) && 0 < n <= |H.Top(Abs(s)).temps|
    ensures n <= |s.stack|
    ensures var s1 := s.(stack := s.stack[..|s.stack| - n] + xs, ip := ip);
            && StackInv(s1)
            && Abs(s1) == H.WithTop(Abs(s),
                                    H.Drop(H.Top(Abs(s)), n).(temps := H.Drop(H.Top(Abs(s)), n).temps + xs)).(ip := ip)
            && H.Operands(H.Top(Abs(s)), n) == s.stack[|s.stack| - n..]
  {
    hide StackInv, AbsFrame;
    AbsTop(s);
    var s1 := s.(stack := s.stack[..|s.stack| - n] + xs, ip := ip);
    TopArea(s, s1, |s.stack| - n);
    AbsTop(s1);
    OperandsFrame(s, s1, n, xs);
  }

  lemma OperandsFrame(s: L.State, s1: L.State, n: nat, xs: seq<L.VVal>)
    requires s.cis != [] && CiOk(s, |s.cis| - 1) && 0 < n <= |AbsFrame(s, |s.cis| - 1).temps| && n <= |s.stack|
    requires s1 == s.(stack := s.stack[..|s.stack| - n] + xs, ip := s1.ip) && CiOk(s1, |s.cis| - 1)
    ensures var fr := AbsFrame(s, |s.cis| - 1);
            && AbsFrame(s1, |s.cis| - 1) == H.Drop(fr, n).(temps := H.Drop(fr, n).temps + xs)
            && H.Operands(fr, n) == s.stack[|s.stack| - n..]
  {
    hide Regs, Temps;
    var ci := L.Ci(s);
    var area := s.stack[ci.regs..|s.stack|];
    RegsReplace(area, ci.regc, n, xs);
    AreaReplaced(s.stack, ci.fp, ci.regs, n, xs);
  }

  /** Replacing the end of the stack replaces the end of the top area. */
  lemma AreaReplaced(stack: seq<L.VVal>, fp: nat, regs: nat, n: nat, xs: seq<L.VVal>)
    requires fp <= regs && regs + n <= |stack|
    ensures var area, stack1 := stack[regs..|stack|], stack[..|stack| - n] + xs;
            && stack1[regs..|stack1|] == area[..|area| - n] + xs && stack1[fp..regs] == stack[fp..regs]
            && area[|area| - n..] == stack[|stack| - n..]
  {
    var area, stack1 := stack[regs..|stack|], stack[..|stack| - n] + xs;
    assert |area| == |stack| - regs && |stack1| == |stack| - n + |xs|;
    assert stack1[regs..|stack1|] == stack[regs..|stack| - n] + xs;
    assert area[..|area| - n] == stack[regs..|stack| - n];
  }

  lemma RegsReplace(area: seq<L.VVal>, regc: nat, n: nat, xs: seq<L.VVal>)
    requires 0 < n <= |Temps(area, regc)|
    ensures n <= |area|
    ensures var area1 := area[..|area| - n] + xs;
            && Regs(area1, regc) == Regs(area, regc)
            && Temps(area1, regc) == Temps(area, regc)[..|Temps(area, regc)| - n] + xs
    ensures Temps(area, regc)[|Temps(area, regc)| - n..] == area[|area| - n..]
  {
  }

  // ---------- variables ----------

  lemma ReadRegSync(s: L.State, c: nat, i: nat)
    requires StackInv(s) && c < |s.cxts| && i < |Abs(s).cxts[c].vals|
    ensures L.ReadReg(s, c, i) == Some(Abs(s).cxts[c].vals[i])
  {
    AbsParts(s);
    assert Abs(s).cxts[c] == AbsContext(s, s.cxts[c]);
    hide Abs;
    hide StackInv;
  }

  lemma ReadLocalSync(s: L.State, n: nat)
    requires StackInv(s) && H.ReadSlot(Abs(s), H.Top(Abs(s)), n).Some?
    ensures L.ReadLocal(s, n) == H.ReadSlot(Abs(s), H.Top(Abs(s)), n)
  {
    hide Abs, StackInv, ContextInv;
    AbsTop(s);
    if L.Ci(s).cxt.Some? {
      TopContext(s);
      TopContextIs(s);
    }
  }

  lemma TopContextIs(s: L.State)
    requires StackInv(s) && L.Ci(s).cxt.Some? && L.Ci(s).cxt.value < |s.cxts|
    ensures Abs(s).cxts[L.Ci(s).cxt.value] == AbsContext(s, s.cxts[L.Ci(s).cxt.value])
  {
    AbsParts(s);
  }

  /** The context of the top frame has its registers in the frame, or in storage of its own. */
  lemma TopContext(s: L.State)
    requires StackInv(s) && L.Ci(s).cxt.Some?
    ensures var ci, c := L.Ci(s), L.Ci(s).cxt.value;
      && c < |s.cxts| && s.cxts[c].regc == ci.regc
      && (s.cxts[c].regs.OnStack? ==> Owns(s, |s.cis| - 1, c))
      && (s.cxts[c].regs.Torn? ==> |s.cxts[c].storage| == ci.regc)
  {
    hide CiOk;
  }

  lemma {:induction false} ClimbSync(s: L.State, c: Option<nat>, d: nat)
    requires StackInv(s)
    ensures H.Climb(Abs(s).cxts, c, d) == L.Climb(s.cxts, c, d)
    decreases d
  {
    AbsParts(s);
    hide Abs;
    hide StackInv;
    if c.Some? && d > 1 && c.value < |s.cxts| {
      assert Abs(s).cxts[c.value] == AbsContext(s, s.cxts[c.value]);
      ClimbSync(s, s.cxts[c.value].up, d - 1);
    }
  }

  /** Two states that differ in at most one stack slot, `p`. */
  ghost predicate WroteAt(s: L.State, s1: L.State, p: nat) {
    && s1 == s.(stack := s1.stack) && |s1.stack| == |s.stack|
    && forall q :: 0 <= q < |s.stack| && q != p ==> s1.stack[q] == s.stack[q]
  }

  lemma WroteInv(s: L.State, s1: L.State, p: nat)
    requires StackInv(s) && WroteAt(s, s1, p)
    ensures StackInv(s1)
  {
    SameOwners(s, s1);
    forall k | 0 <= k < |s1.cis| ensures CiOk(s1, k) { assert CiOk(s, k); }
    hide ContextInv;
  }

  lemma SliceSame(s: L.State, s1: L.State, p: nat, a: nat, b: nat)
    requires WroteAt(s, s1, p) && a <= b <= |s.stack| && !(a <= p < b)
    ensures s1.stack[a..b] == s.stack[a..b]
  {
  }

  /** A write outside a frame's region, or to registers that its context owns, does not show in
      the frame. */
  lemma WroteFrame(s: L.State, s1: L.State, p: nat, k: nat)
    requires StackInv(s) && WroteAt(s, s1, p) && k < |s.cis|
    requires !(s.cis[k].fp <= p < Limit(s, k)) || (s.cis[k].cxt.Some? && s.cis[k].regs <= p < s.cis[k].regs
                                                   + s.cis[k].regc)
    ensures CiOk(s, k) && CiOk(s1, k) && AbsFrame(s1, k) == AbsFrame(s, k)
  {
    assert CiOk(s, k) && CiOk(s1, k);
    var ci := s.cis[k];
    SliceSame(s, s1, p, ci.fp, ci.regs);
    if ci.regs <= p < ci.regs + ci.regc && ci.cxt.Some? {
      SliceSame(s, s1, p, ci.regs + ci.regc, Limit(s, k));
      assert s1.stack[ci.regs..Limit(s, k)][ci.regc..] == s1.stack[ci.regs + ci.regc..Limit(s, k)];
      assert s.stack[ci.regs..Limit(s, k)][ci.regc..] == s.stack[ci.regs + ci.regc..Limit(s, k)];
    } else {
      SliceSame(s, s1, p, ci.regs, Limit(s, k));
    }
    hide ContextInv;
  }

  /** A write outside its register area does not show in a context. */
  lemma WroteContext(s: L.State, s1: L.State, p: nat, c: nat)
    requires StackInv(s) && WroteAt(s, s1, p) && c < |s.cxts|
    requires s.cxts[c].regs.OnStack? ==> !(s.cxts[c].regs.base <= p < s.cxts[c].regs.base + s.cxts[c].regc)
    ensures AbsContext(s1, s.cxts[c]) == AbsContext(s, s.cxts[c])
  {
    if s.cxts[c].regs.OnStack? {
      var k := OwnedRegs(s, c);
      SliceSame(s, s1, p, s.cxts[c].regs.base, s.cxts[c].regs.base + s.cxts[c].regc);
    }
    hide ContextInv;
  }

  /** The regions of different call infos are disjoint. */
  lemma RegionsApart(s: L.State, j: nat, k: nat, p: nat)
    requires StackInv(s) && j < |s.cis| && k < |s.cis| && j != k
    requires CiOk(s, k) && s.cis[k].fp <= p < Limit(s, k)
    ensures CiOk(s, j) && !(s.cis[j].fp <= p < Limit(s, j))
  {
    assert CiOk(s, j);
    if j < k { LimitBelow(s, j, k); } else { LimitBelow(s, k, j); }
  }

  /** Writing a register through its context. */
  lemma WriteRegSync(s: L.State, c: nat, i: nat, v: L.VVal)
    requires StackInv(s) && H.WriteContext(Abs(s), c, i, v).Some?
    ensures var r := L.WriteReg(s, c, i, v);
            r.Some? && StackInv(r.value) && Abs(r.value) == H.WriteContext(Abs(s), c, i, v).value
  {
    AbsParts(s);
    assert Abs(s).cxts[c] == AbsContext(s, s.cxts[c]);
    var s1 := L.WriteReg(s, c, i, v).value;
    if s.cxts[c].regs.OnStack? {
      WriteLiveReg(s, c, i, v, s1);
    } else {
      WriteStorage(s, c, i, v, s1);
    }
    hide Abs;
    hide StackInv;
  }

  lemma WriteStorage(s: L.State, c: nat, i: nat, v: L.VVal, s1: L.State)
    requires StackInv(s) && c < |s.cxts| && s.cxts[c].regs.Torn? && i < |s.cxts[c].storage|
    requires s1 == s.(cxts := s.cxts[c := s.cxts[c].(storage := s.cxts[c].storage[i := v])])
    ensures StackInv(s1) && i < |Abs(s).cxts[c].vals|
    ensures Abs(s1) == Abs(s).(cxts := Abs(s).cxts[c := Abs(s).cxts[c].(vals := Abs(s).cxts[c].vals[i := v])])
  {
    SameOwners(s, s1);
    forall k | 0 <= k < |s1.cis| ensures CiOk(s1, k) && AbsFrame(s1, k) == AbsFrame(s, k) { assert CiOk(s, k); }
    AbsParts(s);
    AbsParts(s1);
    forall d | 0 <= d < |s.cxts| && d != c ensures Abs(s1).cxts[d] == Abs(s).cxts[d] {
      assert Abs(s1).cxts[d] == AbsContext(s1, s1.cxts[d]);
    }
    assert Abs(s1).cxts[c] == AbsContext(s1, s1.cxts[c]);
    assert Abs(s1).frames == Abs(s).frames;
    hide Abs;
    hide ContextInv;
    hide AbsFrame;
  }

  lemma WriteLiveReg(s: L.State, c: nat, i: nat, v: L.VVal, s1: L.State)
    requires StackInv(s) && c < |s.cxts| && s.cxts[c].regs.OnStack? && i < s.cxts[c].regc
    requires s.cxts[c].regs.base + s.cxts[c].regc <= |s.stack|
    requires s1 == s.(stack := s.stack[s.cxts[c].regs.base + i := v])
    ensures StackInv(s1) && i < |Abs(s).cxts[c].vals|
    ensures Abs(s1) == Abs(s).(cxts := Abs(s).cxts[c := Abs(s).cxts[c].(vals := Abs(s).cxts[c].vals[i := v])])
  {
    hide Abs;
    hide ContextInv;
    hide AbsFrame;
    var p := s.cxts[c].regs.base + i;
    WroteInv(s, s1, p);
    var k := OwnedRegs(s, c);
    assert CiOk(s, k);
    AbsParts(s);
    AbsParts(s1);
    forall j | 0 <= j < |s.cis| ensures Abs(s1).frames[j] == Abs(s).frames[j] {
      if j != k { RegionsApart(s, j, k, p); }
      WroteFrame(s, s1, p, j);
    }
    forall d | 0 <= d < |s.cxts| && d != c ensures Abs(s1).cxts[d] == Abs(s).cxts[d] {
      if s.cxts[d].regs.OnStack? { ContextsApart(s, c, k, d, p); }
      WroteContext(s, s1, p, d);
    }
    assert Abs(s1).cxts[c] == AbsContext(s1, s.cxts[c]) && Abs(s).cxts[c] == AbsContext(s, s.cxts[c]);
    assert Abs(s1).frames == Abs(s).frames;
    hide CiOk;
  }

  lemma ContextsApart(s: L.State, c: nat, k: nat, d: nat, p: nat)
    requires StackInv(s) && c < |s.cxts| && d < |s.cxts| && c != d && Owns(s, k, c) && s.cxts[d].regs.OnStack?
    requires s.cis[k].regs <= p < s.cis[k].regs + s.cis[k].regc
    ensures !(s.cxts[d].regs.base <= p < s.cxts[d].regs.base + s.cxts[d].regc)
  {
    var j := OwnedRegs(s, d);
    assert CiOk(s, j) && CiOk(s, k);
    assert j != k;
    RegionsApart(s, j, k, p);
  }

  /** Writing a slot or an unowned register of the top frame. */
  lemma WriteTop(s: L.State, p: nat, v: L.VVal, s1: L.State)
    requires StackInv(s) && L.Ci(s).fp <= p < |s.stack| && s1 == s.(stack := s.stack[p := v])
    requires L.Ci(s).cxt.None? || p < L.Ci(s).regs
    ensures StackInv(s1) && CiOk(s1, |s.cis| - 1)
    ensures Abs(s1) == H.WithTop(Abs(s), AbsFrame(s1, |s.cis| - 1))
  {
    var n := |s.cis| - 1;
    WroteInv(s, s1, p);
    assert CiOk(s, n);
    AbsParts(s);
    AbsParts(s1);
    forall j | 0 <= j < n ensures Abs(s1).frames[j] == Abs(s).frames[j] {
      RegionsApart(s, j, n, p);
      WroteFrame(s, s1, p, j);
    }
    forall d | 0 <= d < |s.cxts| ensures Abs(s1).cxts[d] == Abs(s).cxts[d] {
      if s.cxts[d].regs.OnStack? { TopApart(s, d, p); }
      WroteContext(s, s1, p, d);
    }
    assert Abs(s1).frames[n] == AbsFrame(s1, n);
    assert Abs(s1).cxts == Abs(s).cxts;
    hide Abs;
    hide ContextInv;
    hide AbsFrame;
    hide CiOk;
  }

  lemma TopApart(s: L.State, d: nat, p: nat)
    requires StackInv(s) && d < |s.cxts| && s.cxts[d].regs.OnStack?
    requires L.Ci(s).fp <= p < |s.stack| && (L.Ci(s).cxt.None? || p < L.Ci(s).regs)
    ensures !(s.cxts[d].regs.base <= p < s.cxts[d].regs.base + s.cxts[d].regc)
  {
    var j := OwnedRegs(s, d);
    assert CiOk(s, j) && CiOk(s, |s.cis| - 1);
    if j != |s.cis| - 1 {
      RegionsApart(s, j, |s.cis| - 1, p);
    }
  }

  lemma WriteLocalSync(s: L.State, n: nat, v: L.VVal)
    requires StackInv(s) && H.WriteSlot(Abs(s), n, v).Some?
    ensures var r := L.WriteLocal(s, n, v);
            r.Some? && StackInv(r.value) && Abs(r.value) == H.WriteSlot(Abs(s), n, v).value
  {
    hide Abs;
    hide StackInv;
    hide L.WriteLocal;
    AbsTop(s);
    var m := L.Ci(s).regs - L.Ci(s).fp;
    if n >= m && L.Ci(s).cxt.Some? {
      assert H.WriteSlot(Abs(s), n, v) == H.WriteContext(Abs(s), L.Ci(s).cxt.value, n - m, v);
      OwnRegister(s, n - m, v);
    } else {
      OwnSlot(s, n, v);
    }
    hide H.WriteSlot;
  }

  lemma OwnSlot(s: L.State, n: nat, v: L.VVal)
    requires StackInv(s) && H.WriteSlot(Abs(s), n, v).Some?
    requires L.Ci(s).cxt.None? || n < L.Ci(s).regs - L.Ci(s).fp
    ensures var r := L.WriteLocal(s, n, v);
            r.Some? && StackInv(r.value) && Abs(r.value) == H.WriteSlot(Abs(s), n, v).value
  {
    hide Abs;
    hide ContextInv;
    AbsTop(s);
    var p := L.Ci(s).fp + n;
    var fr := AbsFrame(s, |s.cis| - 1);
    assert |fr.slots| == L.Ci(s).regs - L.Ci(s).fp;
    assert p < |s.stack|;
    var s1 := s.(stack := s.stack[p := v]);
    WriteTop(s, p, v, s1);
    TopWritten(s, s1, n, v);
    hide AbsFrame;
  }

  /** LSET on a captured variable reaches the register wherever it is. */
  lemma OwnRegister(s: L.State, i: nat, v: L.VVal)
    requires StackInv(s) && L.Ci(s).cxt.Some? && H.WriteContext(Abs(s), L.Ci(s).cxt.value, i, v).Some?
    requires CiOk(s, |s.cis| - 1)
    ensures var n := i + (L.Ci(s).regs - L.Ci(s).fp);
            var r := L.WriteLocal(s, n, v);
            r.Some? && StackInv(r.value) && Abs(r.value) == H.WriteContext(Abs(s), L.Ci(s).cxt.value, i, v).value
  {
    hide Abs;
    var c := L.Ci(s).cxt.value;
    WriteRegSync(s, c, i, v);
    if s.cxts[c].regs.OnStack? { assert Owns(s, |s.cis| - 1, c); }
    AbsParts(s);
    assert Abs(s).cxts[c] == AbsContext(s, s.cxts[c]);
  }

  lemma TopWritten(s: L.State, s1: L.State, n: nat, v: L.VVal)
    requires s.cis != [] && CiOk(s, |s.cis| - 1) && L.Ci(s).fp + n < |s.stack|
    requires s1 == s.(stack := s.stack[L.Ci(s).fp + n := v]) && CiOk(s1, |s.cis| - 1)
    requires n < L.Ci(s).regs - L.Ci(s).fp + (if L.Ci(s).cxt.None? then L.Ci(s).regc else 0)
    ensures var fr, m := AbsFrame(s, |s.cis| - 1), L.Ci(s).regs - L.Ci(s).fp;
            && |fr.slots| == m
            && (n >= m ==> n - m < |fr.file|)
            && AbsFrame(s1, |s.cis| - 1) ==
               if n < m then fr.(slots := fr.slots[n := v]) else fr.(file := fr.file[n - m := v])
  {
    var ci := L.Ci(s);
    var area := s.stack[ci.regs..|s.stack|];
    if n < ci.regs - ci.fp {
      assert s1.stack[ci.regs..|s1.stack|] == area;
    } else {
      assert s1.stack[ci.regs..|s1.stack|] == area[n - (ci.regs - ci.fp) := v];
      assert s1.stack[ci.fp..ci.regs] == s.stack[ci.fp..ci.regs];
    }
  }

  // ---------- closures ----------

  lemma ContextSync(s: L.State)
    requires StackInv(s) && |s.cis| >= 2
    requires L.Ci(s).cxt.None? ==> |H.Top(Abs(s)).file| == L.Ci(s).irep.capturec
    ensures StackInv(L.PushContext(s)) && Abs(L.PushContext(s)) == H.MakeContext(Abs(s))
  {
    AbsTop(s);
    if L.Ci(s).cxt.None? {
      var s1 := L.PushContext(s);
      var n := |s.cis| - 1;
      PushOwners(s);
      forall k | 0 <= k < |s1.cis| ensures CiOk(s1, k) { assert CiOk(s, k); }
      AbsParts(s);
      AbsParts(s1);
      forall k | 0 <= k < n ensures Abs(s1).frames[k] == Abs(s).frames[k] {
        assert CiOk(s, k) && Abs(s1).frames[k] == AbsFrame(s1, k);
      }
      forall c | 0 <= c < |s.cxts| ensures Abs(s1).cxts[c] == Abs(s).cxts[c] {
        assert Abs(s1).cxts[c] == AbsContext(s1, s1.cxts[c]);
      }
      NewContextView(s, s1);
      assert Abs(s1).frames[n] == AbsFrame(s1, n);
      assert Abs(s1).cxts[|s.cxts|] == AbsContext(s1, s1.cxts[|s.cxts|]);
      hide Abs;
      hide ContextInv;
      hide AbsFrame;
      hide AbsContext;
    }
  }

  lemma NewContextView(s: L.State, s1: L.State)
    requires s.cis != [] && CiOk(s, |s.cis| - 1) && L.Ci(s).cxt.None? && s1 == L.PushContext(s) && CiOk(s1, |s.cis| - 1)
    requires |AbsFrame(s, |s.cis| - 1).file| == L.Ci(s).regc
    ensures var fr := AbsFrame(s, |s.cis| - 1);
            && AbsFrame(s1, |s.cis| - 1) == fr.(cxt := Some(|s.cxts|), file := [])
            && AbsContext(s1, s1.cxts[|s.cxts|]) == H.Context(fr.up, fr.file)
  {
    var ci := L.Ci(s);
    assert s.stack[ci.regs..|s.stack|][..ci.regc] == s.stack[ci.regs..ci.regs + ci.regc];
  }

  // ---------- calls and returns ----------

  /** Entering a compiled procedure on top of a frame whose registers are filled. */
  lemma EnterSync(s: L.State, frame: seq<L.VVal>, ci: L.CallInfo, ip: L.Ip)
    requires StackInv(s) && L.Ci(s).regs + L.Ci(s).regc <= |s.stack|
    requires ci.fp == |s.stack| && ci.cxt == None && ci.regc == ci.irep.capturec
    requires ci.regs == ci.fp + ci.irep.argc + ci.irep.localc == |s.stack| + |frame|
    ensures var s1 := s.(stack := s.stack + frame, cis := s.cis + [ci], ip := ip);
            && StackInv(s1)
            && Abs(s1) == Abs(s).(frames := Abs(s).frames + [H.Frame(frame, [], [], ci.irep, ci.up, None, ci.ip)],
                                  ip := ip)
  {
    hide Abs;
    hide ContextInv;
    var s1 := s.(stack := s.stack + frame, cis := s.cis + [ci], ip := ip);
    var n := |s.cis|;
    EnterOwners(s, s1, ci);
    forall k | 0 <= k < |s1.cis| ensures CiOk(s1, k) { if k < n { assert CiOk(s, k); } }
    AbsParts(s);
    AbsParts(s1);
    forall k | 0 <= k < n ensures Abs(s1).frames[k] == Abs(s).frames[k] {
      assert CiOk(s, k) && CiOk(s1, k);
      assert s1.stack[s.cis[k].fp..s.cis[k].regs] == s.stack[s.cis[k].fp..s.cis[k].regs];
      assert s1.stack[s.cis[k].regs..Limit(s, k)] == s.stack[s.cis[k].regs..Limit(s, k)];
    }
    forall c | 0 <= c < |s.cxts| ensures Abs(s1).cxts[c] == Abs(s).cxts[c] {
      assert Abs(s1).cxts[c] == AbsContext(s1, s1.cxts[c]);
      if s.cxts[c].regs.OnStack? {
        var k := OwnedRegs(s, c);
        var b := s.cxts[c].regs.base;
        assert s1.stack[b..b + s.cxts[c].regc] == s.stack[b..b + s.cxts[c].regc];
      }
    }
    assert s1.stack[ci.fp..ci.regs] == frame;
    assert Abs(s1).frames[n] == AbsFrame(s1, n);
  }

  /** Leaving the top frame: its context, if any, keeps its values. */
  lemma LeaveSync(s: L.State)
    requires StackInv(s) && |s.cis| >= 2
    ensures L.Ci(s).fp <= |s.stack|
    ensures var s1 := L.TearOff(s, L.Ci(s).cxt).(stack := s.stack[..L.Ci(s).fp], cis := s.cis[..|s.cis| - 1],
                                                 ip := L.Ci(s).ip);
            && StackInv(s1) && L.Ci(s1).regs + L.Ci(s1).regc <= |s1.stack|
            && Abs(s1) == Abs(s).(frames := Abs(s).frames[..|s.cis| - 1], ip := H.Top(Abs(s)).ret)
  {
    AbsTop(s);
    var n := |s.cis| - 1;
    assert CiOk(s, n) && CiOk(s, n - 1);
    var s1 := L.TearOff(s, L.Ci(s).cxt).(stack := s.stack[..L.Ci(s).fp], cis := s.cis[..n], ip := L.Ci(s).ip);
    LeaveOwners(s, s1);
    forall k | 0 <= k < |s1.cis| ensures CiOk(s1, k) {
      assert CiOk(s, k);
      LimitBelow(s, k, n);
    }
    AbsParts(s);
    LeaveTorn(s);
    AbsParts(s1);
    forall k | 0 <= k < n ensures Abs(s1).frames[k] == Abs(s).frames[k] {
      assert CiOk(s, k) && CiOk(s1, k);
      LimitBelow(s, k, n);
      Below(s, s1, L.Ci(s).fp, s.cis[k].fp, s.cis[k].regs);
      Below(s, s1, L.Ci(s).fp, s.cis[k].regs, Limit(s, k));
    }
    forall c | 0 <= c < |s.cxts| ensures Abs(s1).cxts[c] == Abs(s).cxts[c] {
      LeaveContext(s, s1, c);
      assert Abs(s1).cxts[c] == AbsContext(s1, s1.cxts[c]);
    }
    hide Abs;
    hide ContextInv;
  }

  /** Torn-off contexts have all their registers in storage. */
  lemma LeaveTorn(s: L.State)
    requires StackInv(s) && |s.cis| >= 2
    ensures var cxts1 := L.TearOff(s, L.Ci(s).cxt).cxts;
            forall c :: 0 <= c < |cxts1| && cxts1[c].regs.Torn? ==> |cxts1[c].storage| == cxts1[c].regc
  {
    assert CiOk(s, |s.cis| - 1);
  }

  lemma SliceBelow(stack: seq<L.VVal>, top: nat, a: nat, b: nat)
    requires a <= b <= top <= |stack|
    ensures stack[..top][a..b] == stack[a..b]
  {
  }

  lemma LeaveContext(s: L.State, s1: L.State, c: nat)
    requires StackInv(s) && |s.cis| >= 2 && c < |s.cxts| && L.Ci(s).fp <= |s.stack|
    requires s1.cxts == L.TearOff(s, L.Ci(s).cxt).cxts && s1.stack == s.stack[..L.Ci(s).fp]
    ensures AbsContext(s1, s1.cxts[c]) == AbsContext(s, s.cxts[c])
  {
    hide ContextInv, CiOk;
    if s.cxts[c].regs.OnStack? {
      var k := OwnedRegs(s, c);
      var b := s.cxts[c].regs.base;
      if k + 1 < |s.cis| { SliceBelow(s.stack, L.Ci(s).fp, b, b + s.cxts[c].regc); }
    }
  }

  /** Tearing off a context in mid-run is invisible. */
  lemma TearOneSync(s: L.State, k: nat)
    requires StackInv(s) && k < |s.cis|
    ensures StackInv(L.TearOff(s, s.cis[k].cxt)) && Abs(L.TearOff(s, s.cis[k].cxt)) == Abs(s)
  {
    hide Abs;
    hide ContextInv;
    var s1 := L.TearOff(s, s.cis[k].cxt);
    TearOneOwners(s, s.cis[k].cxt);
    forall j | 0 <= j < |s1.cis| ensures CiOk(s1, j) { assert CiOk(s, j); }
    assert CiOk(s, k);
    if s.cis[k].cxt.Some? && s.cxts[s.cis[k].cxt.value].regs.OnStack? {
      var j := OwnedRegs(s, s.cis[k].cxt.value);
    }
    AbsParts(s);
    AbsParts(s1);
    forall j | 0 <= j < |s.cis| ensures Abs(s1).frames[j] == Abs(s).frames[j] {
      assert CiOk(s, j) && Abs(s1).frames[j] == AbsFrame(s1, j);
    }
    forall c | 0 <= c < |s.cxts| ensures Abs(s1).cxts[c] == Abs(s).cxts[c] {
      assert Abs(s1).cxts[c] == AbsContext(s1, s1.cxts[c]);
    }
  }

  /** A full tear-off, as an escape makes it, is invisible. */
  lemma {:induction false} TearAllSync(s: L.State, n: nat)
    requires StackInv(s) && n <= |s.cis|
    ensures StackInv(L.TearOffAll(s, n)) && Abs(L.TearOffAll(s, n)) == Abs(s)
    ensures L.TearOffAll(s, n) == s.(cxts := L.TearOffAll(s, n).cxts)
    decreases n
  {
    hide StackInv;
    if n > 1 {
      TearOneSync(s, n - 1);
      TearAllSync(L.TearOff(s, s.cis[n - 1].cxt), n - 1);
    }
  }
}
