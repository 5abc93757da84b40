/** What a called lambda finds in its frame: the arguments by position, and the others in a list. */
module Arguments {
  import opened Util
  import opened Syntax
  import opened CoreForms
  import Merging
  import Source
  import D = Direct
  import H = HeapMachine
  import L = LazyMachine

  /** A proper list of `n` elements. */
  predicate ProperList<C>(v: Value<C>, n: nat)
    decreases n
  {
    if n == 0 then v == Nil else v.Pair? && ProperList(v.cdr, n - 1)
  }

  function Element<C>(v: Value<C>, j: nat): Option<Value<C>>
    decreases j
  {
    if !v.Pair? then None else if j == 0 then Some(v.car) else Element(v.cdr, j - 1)
  }

  /** The list has the values from position `k` on, in order. */
  ghost predicate Lists<C>(v: Value<C>, vs: seq<Value<C>>, k: nat)
    requires k <= |vs|
  {
    ProperList(v, |vs| - k) && forall j :: 0 <= j < |vs| - k ==> Element(v, j) == Some(vs[k + j])
  }

  lemma {:induction false} ListElements<C>(vs: seq<Value<C>>)
    ensures ProperList(Source.ListOf(vs), |vs|)
    ensures forall j :: 0 <= j < |vs| ==> Element(Source.ListOf(vs), j) == Some(vs[j])
    decreases |vs|
  {
    if vs != [] { ListElements(vs[1..]); }
  }

  lemma RestLists<C>(vs: seq<Value<C>>, k: nat)
    requires k <= |vs|
    ensures Lists(Source.ListOf(vs[k..]), vs, k)
  {
    ListElements(vs[k..]);
    hide Element, ProperList;
    forall j | 0 <= j < |vs| - k ensures vs[k..][j] == vs[k + j] {}
  }

  /** A proper list is determined by its length and its elements. */
  lemma {:induction false} ListsOnce<C>(v: Value<C>, w: Value<C>, n: nat)
    requires ProperList(v, n) && ProperList(w, n) && forall j :: 0 <= j < n ==> Element(v, j) == Element(w, j)
    ensures v == w
    decreases n
  {
    if n > 0 {
      assert Element(v, 0) == Element(w, 0);
      forall j | 0 <= j < n - 1 ensures Element(v.cdr, j) == Element(w.cdr, j) {
        assert Element(v, j + 1) == Element(w, j + 1);
      }
      ListsOnce(v.cdr, w.cdr, n - 1);
    }
  }

  // ---------- expanded forms ----------

  /** The frame of a call has exactly the formals; the first ones hold the arguments in order, and the rest variable
      the list of the others. */
  ghost predicate Bound(lam: Core, env: nat, vs: seq<D.DVal>, fr: D.Frame)
    requires lam.CLambda?
  {
    && fr.up == Some(env) && |lam.params| <= |vs|
    && fr.vars.Keys == (set x | x in lam.params + Merging.RestNames(lam.rest))
    && (forall i :: 0 <= i < |lam.params| ==> fr.vars[lam.params[i]] == vs[i])
    && (lam.rest.Some? ==> Lists(fr.vars[lam.rest.value], vs, |lam.params|))
  }

  lemma {:induction false} ParamsHold(ps: seq<Name>, vs: seq<D.DVal>)
    requires |ps| <= |vs| && NoDup(ps)
    ensures D.Params(ps, vs).Keys == (set x | x in ps)
    ensures forall i :: 0 <= i < |ps| ==> D.Params(ps, vs)[ps[i]] == vs[i]
    decreases |ps|
  {
    if ps != [] {
      forall i, j | 0 <= i < j < |ps[1..]| ensures ps[1..][i] != ps[1..][j] {}
      ParamsHold(ps[1..], vs[1..]);
      assert ps == [ps[0]] + ps[1..];
      forall i | 0 <= i < |ps| ensures D.Params(ps, vs)[ps[i]] == vs[i] {
        if i > 0 { assert ps[i] == ps[1..][i - 1] && ps[i] != ps[0]; }
      }
    }
  }

  /** A call of a lambda enters its body exactly when there is an argument for every formal, and no more unless there is
      a rest variable; otherwise it is an error. */
  lemma DirectCall(lam: Core, env: nat, vs: seq<D.DVal>, s: D.Store, n: nat) returns (fr: D.Frame)
    requires lam.CLambda? && NoDup(lam.params + Merging.RestNames(lam.rest))
    ensures var m, k := |vs|, |lam.params|;
      var o := D.ApplyProc(Proc(D.Closure(lam, env)), vs, s, n);
      if m == k || (m > k && lam.rest.Some?) then
        && Bound(lam, env, vs, fr)
        && o == if n == 0 then D.Timeout else D.Eval(lam.body, |s.frames|, s.(frames := s.frames + [fr]), n - 1)
      else o.Error?
  {
    hide *;
    fr := D.Frame(map[], None);
    DirectEnter(lam, env, vs, s, n);
    if |vs| == |lam.params| || (|vs| > |lam.params| && lam.rest.Some?) {
      fr := D.NewFrame(lam, env, vs);
      NewFrameBound(lam, env, vs);
    }
  }

  lemma DirectEnter(lam: Core, env: nat, vs: seq<D.DVal>, s: D.Store, n: nat)
    requires lam.CLambda?
    ensures var m, k := |vs|, |lam.params|;
      var o := D.ApplyProc(Proc(D.Closure(lam, env)), vs, s, n);
      if m == k || (m > k && lam.rest.Some?) then
        && Source.ArityOk(k, lam.rest.Some?, m)
        && o == if n == 0 then D.Timeout
                else D.Eval(lam.body, |s.frames|, s.(frames := s.frames + [D.NewFrame(lam, env, vs)]), n - 1)
      else o.Error?
  {
    hide D.Eval, D.NewFrame;
  }

  lemma NewFrameBound(lam: Core, env: nat, vs: seq<D.DVal>)
    requires lam.CLambda? && NoDup(lam.params + Merging.RestNames(lam.rest))
    requires |vs| == |lam.params| || (|vs| > |lam.params| && lam.rest.Some?)
    ensures Source.ArityOk(|lam.params|, lam.rest.Some?, |vs|) && Bound(lam, env, vs, D.NewFrame(lam, env, vs))
  {
    FirstNoDup(lam.params, Merging.RestNames(lam.rest));
    ParamsHold(lam.params, vs);
    RestLists(vs, |lam.params|);
    hide D.Params, Lists, Source.ListOf;
  }

  lemma FirstNoDup(xs: seq<Name>, ys: seq<Name>)
    requires NoDup(xs + ys)
    ensures NoDup(xs) && forall x :: x in ys ==> x !in xs
  {
    forall i, j | 0 <= i < j < |xs| ensures xs[i] != xs[j] { assert (xs + ys)[i] != (xs + ys)[j]; }
    forall i, j | 0 <= i < |xs| && 0 <= j < |ys| ensures xs[i] != ys[j] { assert (xs + ys)[i] != (xs + ys)[|xs| + j]; }
  }

  // ---------- the slots of a frame ----------

  /** Slots of a frame: the arguments in order, the list of the others, and locals that hold nothing yet. */
  ghost predicate Filled<C>(slots: seq<Value<C>>, paramc: nat, varg: bool, localc: nat, vs: seq<Value<C>>) {
    && paramc <= |vs| && |slots| == paramc + (if varg then 1 else 0) + localc
    && (forall i :: 0 <= i < paramc ==> slots[i] == vs[i])
    && (varg ==> Lists(slots[paramc], vs, paramc))
    && (forall i :: paramc + (if varg then 1 else 0) <= i < |slots| ==> slots[i] == Undef)
  }

  lemma SlotsFilled<C>(paramc: nat, varg: bool, localc: nat, vs: seq<Value<C>>)
    requires Source.ArityOk(paramc, varg, |vs|)
    ensures Filled(Source.InitialSlots(paramc, varg, localc, vs), paramc, varg, localc, vs)
  {
    RestLists(vs, paramc);
    hide Lists;
  }

  /** The same for normalized forms. */
  lemma SourceCall(lam: Expr, env: nat, vs: seq<Source.SVal>, s: Source.Store, n: nat) returns (fr: Source.Frame)
    requires lam.Lambda?
    ensures var m, k := |vs|, |lam.params|;
      var o := Source.ApplyProc(Proc(Source.Closure(lam, env)), vs, s, n);
      if m == k || (m > k && lam.rest.Some?) then
        && fr.up == Some(env) && fr.names == lam.params + Merging.RestNames(lam.rest) + lam.locals
        && Filled(fr.vals, k, lam.rest.Some?, |lam.locals|, vs)
        && o == if n == 0 then Source.Timeout
                else Source.Eval(lam.body, |s.frames|, s.(frames := s.frames + [fr]), n - 1)
      else o.Error?
  {
    fr := Source.Frame([], [], None);
    if |vs| == |lam.params| || (|vs| > |lam.params| && lam.rest.Some?) {
      fr := Source.NewFrame(lam, env, vs);
      SlotsFilled(|lam.params|, lam.rest.Some?, |lam.locals|, vs);
    }
    hide Source.Eval, Filled;
  }

  // ---------- the machine ----------

  /** A call on the stack machine: a procedure of compiled code and its arguments are the last `n` values. The frame of
      the callee stands where they did, with the procedure first. */
  lemma MachineCall(s: L.State, n: nat, ir: Irep, cxt: Option<nat>) returns (s1: L.State)
    requires 0 < n <= |s.stack| && s.stack[|s.stack| - n] == Proc(H.Closure(ir, cxt))
    requires ir.argc > 0 && ir.localc >= if ir.varg then 1 else 0
    ensures var fp, m, k := |s.stack| - n, n - 1, ir.argc - 1;
      if m == k || (m > k && ir.varg) then
        && L.EnterProc(s, n) == L.Next(s1)
        && |s1.stack| == fp + ir.argc + ir.localc && s1.stack[..fp + 1] == s.stack[..fp + 1]
        && Filled(s1.stack[fp + 1..], k, ir.varg, ir.localc - (if ir.varg then 1 else 0), s.stack[fp + 1..])
        && s1.ip == H.Ip(ir.code, 0) && |s1.cis| == |s.cis| + 1 && s1.cis[..|s.cis|] == s.cis
        && s1.cis[|s.cis|] == L.CallInfo(fp, ir, cxt, ir.capturec, |s1.stack|, None, s.ip)
        && s1.cxts == s.cxts && s1.globals == s.globals
      else L.EnterProc(s, n) == L.Fault
  {
    hide *;
    s1 := s;
    EnterIs(s, n, ir, cxt);
    if n == ir.argc || (n > ir.argc && ir.varg) {
      var fp, rest := |s.stack| - n, if ir.varg then 1 else 0;
      var slots := Source.InitialSlots(ir.argc - 1, ir.varg, ir.localc - rest, s.stack[fp + 1..]);
      SlotsFilled(ir.argc - 1, ir.varg, ir.localc - rest, s.stack[fp + 1..]);
      FilledSize(slots, ir.argc - 1, ir.varg, ir.localc - rest, s.stack[fp + 1..]);
      s1 := Entered(s, n, ir, cxt, slots);
      EnteredStack(s, n, ir, cxt, slots);
    }
  }

  lemma FilledSize(slots: seq<L.VVal>, paramc: nat, varg: bool, localc: nat, vs: seq<L.VVal>)
    requires Filled(slots, paramc, varg, localc, vs)
    ensures |slots| == paramc + (if varg then 1 else 0) + localc
  {
    hide Lists;
  }

  function Entered(s: L.State, n: nat, ir: Irep, cxt: Option<nat>, slots: seq<L.VVal>): L.State
    requires 0 < n <= |s.stack|
  {
    var fp := |s.stack| - n;
    L.State(s.stack[..fp] + ([s.stack[fp]] + slots),
            s.cis + [L.CallInfo(fp, ir, cxt, ir.capturec, fp + ir.argc + ir.localc, None, s.ip)],
            H.Ip(ir.code, 0), s.cxts, s.globals)
  }

  lemma EnteredStack(s: L.State, n: nat, ir: Irep, cxt: Option<nat>, slots: seq<L.VVal>)
    requires 0 < n <= |s.stack| && |slots| + 1 == ir.argc + ir.localc
    ensures var s1, fp := Entered(s, n, ir, cxt, slots), |s.stack| - n;
      && |s1.stack| == fp + ir.argc + ir.localc && s1.stack[..fp + 1] == s.stack[..fp + 1]
      && s1.stack[fp + 1..] == slots && s1.ip == H.Ip(ir.code, 0) && |s1.cis| == |s.cis| + 1
      && s1.cis[..|s.cis|] == s.cis && s1.cxts == s.cxts && s1.globals == s.globals
      && s1.cis[|s.cis|] == L.CallInfo(fp, ir, cxt, ir.capturec, |s1.stack|, None, s.ip)
  {
    var fp := |s.stack| - n;
    assert s.stack[..fp + 1] == s.stack[..fp] + [s.stack[fp]];
    assert s.stack[..fp] + ([s.stack[fp]] + slots) == s.stack[..fp + 1] + slots;
  }

  lemma EnterIs(s: L.State, n: nat, ir: Irep, cxt: Option<nat>)
    requires 0 < n <= |s.stack| && s.stack[|s.stack| - n] == Proc(H.Closure(ir, cxt))
    requires ir.argc > 0 && ir.localc >= if ir.varg then 1 else 0
    ensures n == ir.argc || (n > ir.argc && ir.varg) ==>
      && Source.ArityOk(ir.argc - 1, ir.varg, n - 1)
      && var rest := if ir.varg then 1 else 0;
         var slots := Source.InitialSlots(ir.argc - 1, ir.varg, ir.localc - rest, s.stack[|s.stack| - n + 1..]);
         L.EnterProc(s, n) == L.Next(Entered(s, n, ir, cxt, slots))
    ensures !(n == ir.argc || (n > ir.argc && ir.varg)) ==> L.EnterProc(s, n) == L.Fault
  {
    hide Source.InitialSlots;
  }
}
