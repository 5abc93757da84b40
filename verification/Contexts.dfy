/** Every reachable state of the machine, whatever its code: a context's registers are either
    the register area of the one live frame that owns it, or its own storage. */
module Contexts {
  import opened Util
  import opened Syntax
  import L = LazyMachine
  import H = HeapMachine

  /** Call info `k` owns context `c`, whose registers are still on the stack. */
  ghost predicate Owns(s: L.State, k: nat, c: nat) {
    && k < |s.cis| && c < |s.cxts|
    && s.cis[k].cxt == Some(c) && s.cxts[c].regs == L.OnStack(s.cis[k].regs) && s.cxts[c].regc == s.cis[k].regc
  }

  ghost predicate ContextInv(s: L.State) {
    && s.cis != [] && s.cis[0].cxt == None
    && (forall k :: 0 <= k < |s.cis| && s.cis[k].cxt.Some? ==>
          s.cis[k].cxt.value < |s.cxts| && s.cxts[s.cis[k].cxt.value].regc == s.cis[k].regc &&
          (s.cxts[s.cis[k].cxt.value].regs.OnStack? ==> Owns(s, k, s.cis[k].cxt.value)))
    && (forall c :: 0 <= c < |s.cxts| && s.cxts[c].regs.OnStack? ==> exists k :: Owns(s, k, c))
    && (forall j, k :: 0 <= j < k < |s.cis| && s.cis[j].cxt.Some? ==> s.cis[j].cxt != s.cis[k].cxt)
  }

  /** Values come and go without touching who owns which registers. */
  lemma SameOwners(s: L.State, s1: L.State)
    requires ContextInv(s) && s1.cis == s.cis && |s1.cxts| == |s.cxts|
    requires forall c :: 0 <= c < |s.cxts| ==> s1.cxts[c].regs == s.cxts[c].regs && s1.cxts[c].regc == s.cxts[c].regc
    ensures ContextInv(s1)
  {
    forall c | 0 <= c < |s1.cxts| && s1.cxts[c].regs.OnStack? ensures exists k :: Owns(s1, k, c) {
      var k :| Owns(s, k, c);
      assert Owns(s1, k, c);
    }
    forall k | 0 <= k < |s1.cis| && s1.cis[k].cxt.Some? && s1.cxts[s1.cis[k].cxt.value].regs.OnStack?
      ensures Owns(s1, k, s1.cis[k].cxt.value)
    {
      assert Owns(s, k, s.cis[k].cxt.value);
    }
  }

  /** A frame without a context is entered. */
  lemma EnterOwners(s: L.State, s1: L.State, ci: L.CallInfo)
    requires ContextInv(s) && ci.cxt == None && s1.cis == s.cis + [ci] && s1.cxts == s.cxts
    ensures ContextInv(s1)
  {
    forall c | 0 <= c < |s1.cxts| && s1.cxts[c].regs.OnStack? ensures exists k :: Owns(s1, k, c) {
      var k :| Owns(s, k, c);
      assert Owns(s1, k, c);
    }
    forall k | 0 <= k < |s1.cis| && s1.cis[k].cxt.Some? && s1.cxts[s1.cis[k].cxt.value].regs.OnStack?
      ensures Owns(s1, k, s1.cis[k].cxt.value)
    {
      assert Owns(s, k, s.cis[k].cxt.value);
    }
  }

  /** The frame that is left has its context torn off first, so nobody else's registers go. */
  lemma LeaveOwners(s: L.State, s1: L.State)
    requires ContextInv(s) && |s.cis| >= 2 && s1.cis == s.cis[..|s.cis| - 1]
    requires s1.cxts == L.TearOff(s, L.Ci(s).cxt).cxts
    ensures ContextInv(s1)
  {
    forall c | 0 <= c < |s1.cxts| && s1.cxts[c].regs.OnStack? ensures exists k :: Owns(s1, k, c) {
      var k :| Owns(s, k, c);
      assert k != |s.cis| - 1;
      assert Owns(s1, k, c);
    }
    forall k | 0 <= k < |s1.cis| && s1.cis[k].cxt.Some? && s1.cxts[s1.cis[k].cxt.value].regs.OnStack?
      ensures Owns(s1, k, s1.cis[k].cxt.value)
    {
      assert Owns(s, k, s.cis[k].cxt.value);
    }
  }

  lemma PushOwners(s: L.State)
    requires ContextInv(s) && |s.cis| >= 2
    ensures ContextInv(L.PushContext(s))
  {
    var s1 := L.PushContext(s);
    if L.Ci(s).cxt.None? {
      forall c | 0 <= c < |s1.cxts| && s1.cxts[c].regs.OnStack? ensures exists k :: Owns(s1, k, c) {
        if c == |s.cxts| {
          assert Owns(s1, |s.cis| - 1, c);
        } else {
          var k :| Owns(s, k, c);
          assert Owns(s1, k, c);
        }
      }
      forall k | 0 <= k < |s1.cis| && s1.cis[k].cxt.Some? && s1.cxts[s1.cis[k].cxt.value].regs.OnStack?
        ensures Owns(s1, k, s1.cis[k].cxt.value)
      {
        if k < |s.cis| - 1 { assert Owns(s, k, s.cis[k].cxt.value); }
      }
    }
  }

  lemma TearOneOwners(s: L.State, c: Option<nat>)
    requires ContextInv(s)
    ensures ContextInv(L.TearOff(s, c))
  {
    var s1 := L.TearOff(s, c);
    forall d | 0 <= d < |s1.cxts| && s1.cxts[d].regs.OnStack? ensures exists k :: Owns(s1, k, d) {
      var k :| Owns(s, k, d);
      assert Owns(s1, k, d);
    }
    forall k | 0 <= k < |s1.cis| && s1.cis[k].cxt.Some? && s1.cxts[s1.cis[k].cxt.value].regs.OnStack?
      ensures Owns(s1, k, s1.cis[k].cxt.value)
    {
      assert Owns(s, k, s.cis[k].cxt.value);
    }
  }

  /** After a full tear-off no context points into the stack any more. */
  lemma {:induction false} TearAllOwners(s: L.State, n: nat)
    requires ContextInv(s) && n <= |s.cis|
    ensures var s1 := L.TearOffAll(s, n);
            && ContextInv(s1) && s1 == s.(cxts := s1.cxts) && |s1.cxts| == |s.cxts|
            && (forall c :: 0 <= c < |s.cxts| && s.cxts[c].regs.Torn? ==> s1.cxts[c].regs.Torn?)
            && (forall k :: 0 <= k < n && s.cis[k].cxt.Some? ==> s1.cxts[s.cis[k].cxt.value].regs.Torn?)
    decreases n
  {
    if n > 1 {
      var s0 := L.TearOff(s, s.cis[n - 1].cxt);
      TearOneOwners(s, s.cis[n - 1].cxt);
      TearAllOwners(s0, n - 1);
    }
  }

  lemma EnterProcOwners(s: L.State, n: nat)
    requires Reachable(s) && L.EnterProc(s, n).Next?
    ensures Reachable(L.EnterProc(s, n).s)
  {
    hide L.TearOffAll;
    var s1 := L.EnterProc(s, n).s;
    var x := s.stack[|s.stack| - n];
    if x.Proc? {
      EnterOwners(s, s1, s1.cis[|s.cis|]);
    } else {
      TearAllOwners(s, |s.cis|);
      SameOwners(if x.p.EscapeWith? then L.TearOffAll(s, |s.cis|) else s, s1);
    }
    hide ContextInv;
  }

  lemma LeaveReachable(s: L.State, s1: L.State)
    requires Reachable(s) && |s.cis| >= 2 && s1.cis == s.cis[..|s.cis| - 1] && s1.ip.code == L.Ci(s).ip.code
    requires s1.cxts == L.TearOff(s, L.Ci(s).cxt).cxts
    ensures Reachable(s1)
  {
    LeaveOwners(s, s1);
    hide ContextInv;
    hide L.TearOff;
  }

  lemma AssignOwners(s: L.State, insn: Insn)
    requires Reachable(s) && L.DoAssign(s, insn).Next?
    ensures Reachable(L.DoAssign(s, insn).s)
  {
    SameOwners(s, L.DoAssign(s, insn).s);
    hide ContextInv;
  }

  lemma LambdaOwners(s: L.State, k: nat)
    requires Reachable(s) && |s.cis| >= 2 && L.DoLambda(s, k).Next?
    ensures Reachable(L.DoLambda(s, k).s)
  {
    PushOwners(s);
    SameOwners(L.PushContext(s), L.DoLambda(s, k).s);
    hide ContextInv;
  }

  /** The step keeps call infos, contexts and code. */
  lemma OtherOwners(s: L.State, s1: L.State)
    requires Reachable(s) && s1.cis == s.cis && s1.cxts == s.cxts && s1.ip.code == s.ip.code
    ensures Reachable(s1)
  {
    SameOwners(s, s1);
    hide ContextInv;
  }

  /** Code of the base call info: it only calls and stops. */
  ghost predicate BootCode(code: seq<Insn>) {
    forall i :: 0 <= i < |code| ==> code[i].CallI? || code[i].Stop?
  }

  ghost predicate Reachable(s: L.State) {
    && ContextInv(s)
    && BootCode(if |s.cis| == 1 then s.ip.code else s.cis[1].ip.code)
  }

  lemma HasBase(s: L.State)
    requires ContextInv(s)
    ensures s.cis != []
  {
  }

  /** One step of any code keeps the invariant. */
  lemma StepReachable(s: L.State)
    requires Reachable(s) && L.Step(s).Next?
    ensures Reachable(L.Step(s).s)
  {
    hide ContextInv, L.EnterProc, L.TearOff, L.DoAssign, L.DoLambda;
    HasBase(s);
    var insn := s.ip.code[s.ip.pc];
    var s1 := L.Step(s).s;
    match insn
    case CallI(n) => EnterProcOwners(s, n);
    case TailCallI(n) =>
      var s0 := L.TearOff(s, L.Ci(s).cxt);
      var s2 := s0.(stack := s.stack[..L.Ci(s).fp] + s.stack[|s.stack| - n..], cis := s.cis[..|s.cis| - 1],
                    ip := L.Ci(s).ip);
      LeaveReachable(s, s2);
      EnterProcOwners(s2, n);
    case RetI => LeaveReachable(s, s1);
    case LambdaI(k) => LambdaOwners(s, k);
    case GSetI(_) | LSetI(_) | CSetI(_, _) => AssignOwners(s, insn);
    case _ => OtherOwners(s, s1);
  }

  /** Over whole runs. */
  lemma {:induction false} RunReachable(s: L.State, n: nat)
    requires Reachable(s) && L.Run(s, n).Next?
    ensures Reachable(L.Run(s, n).s)
    decreases n
  {
    hide Reachable;
    hide L.Step;
    if n > 0 {
      StepReachable(s);
      RunReachable(L.Step(s).s, n - 1);
    }
  }
}
