/** The unique names that the expander gives to local binders. */
module Identifiers {
  import opened Util
  import opened Syntax
  import opened Decimals

  /** A symbol, or an identifier that a macro made from another one. */
  datatype Ident = Symbol(name: string) | Alias(id: Ident, serial: nat)

  function IdName(id: Ident): string {
    match id
    case Symbol(name) => name
    case Alias(inner, _) => IdName(inner)
  }

  // ---------- decimal numerals ----------

  function Decimal(n: nat): (s: string)
    ensures |s| > 0
    decreases n
  {
    if n < 10 then [Digit(n)] else Decimal(n / 10) + [Digit(n % 10)]
  }

  lemma {:induction false} DecimalNoDot(n: nat)
    ensures '.' !in Decimal(n)
    decreases n
  {
    if n >= 10 { DecimalNoDot(n / 10); }
  }

  lemma {:induction false} DecimalInjective(n: nat, m: nat)
    requires Decimal(n) == Decimal(m)
    ensures n == m
    decreases n + m
  {
    var s := Decimal(n);
    assert s[|s| - 1] == Digit(n % 10) && s[|s| - 1] == Digit(m % 10);
    assert n % 10 == m % 10;
    if n < 10 {
      assert |s| == 1;
    } else {
      assert s[..|s| - 1] == Decimal(n / 10);
      if m >= 10 {
        assert s[..|s| - 1] == Decimal(m / 10);
        DecimalInjective(n / 10, m / 10);
      }
    }
  }

  // ---------- unique names ----------

  function Uid(name: string, k: nat): Name {
    "." + name + "." + Decimal(k)
  }

  lemma InTail(s: string, n: nat, e: string)
    requires n < |s| && |e| <= |s| && s[|s| - |e|..] == e
    ensures n < |e| ==> s[|s| - n - 1] in e
  {
    if n < |e| { assert e[|e| - n - 1] == s[|s| - n - 1]; }
  }

  /** Whatever the names, a unique name tells the count it was made at. */
  lemma UidCount(a: string, j: nat, b: string, k: nat)
    requires Uid(a, j) == Uid(b, k)
    ensures j == k
  {
    var s, d, e := Uid(a, j), Decimal(j), Decimal(k);
    DecimalNoDot(j);
    DecimalNoDot(k);
    assert s[|s| - |d| - 1] == '.' && s[|s| - |e| - 1] == '.';
    assert s[|s| - |d|..] == d && s[|s| - |e|..] == e;
    InTail(s, |d|, e);
    InTail(s, |e|, d);
    DecimalInjective(j, k);
  }

  ghost predicate MadeAt(uid: Name, k: nat) {
    exists name :: uid == Uid(name, k)
  }

  /** Made between two counts. */
  ghost predicate MadeIn(uid: Name, lo: nat, hi: nat) {
    exists k :: lo <= k < hi && MadeAt(uid, k)
  }

  /** Names made in different stretches of an expansion differ. */
  lemma ApartInTime(a: Name, lo: nat, mid: nat, b: Name, hi: nat)
    requires MadeIn(a, lo, mid) && MadeIn(b, mid, hi)
    ensures a != b
  {
    var j :| lo <= j < mid && MadeAt(a, j);
    var k :| mid <= k < hi && MadeAt(b, k);
    var x :| a == Uid(x, j);
    var y :| b == Uid(y, k);
    if a == b { UidCount(x, j, y, k); }
  }

  class Env {
    var uids: map<Ident, Name>
    const up: Env?
    const prefix: string
    ghost const depth: nat

    constructor (up: Env?, prefix: string)
      requires up != null ==> up.Linked()
      ensures uids == map[] && this.up == up && this.prefix == prefix && Linked()
    {
      uids := map[];
      this.up := up;
      this.prefix := prefix;
      depth := if up == null then 0 else up.depth + 1;
    }

    /** The environments around this one end somewhere. */
    ghost predicate Linked()
      decreases depth
    {
      up != null ==> up.depth < depth && up.Linked()
    }

    /** This environment and those around it. */
    ghost function Chain(): (c: set<Env>)
      requires Linked()
      ensures this in c && forall e :: e in c ==> e.Linked() && e.depth <= depth && e.Top() == Top()
      decreases depth
    {
      {this} + if up == null then {} else up.Chain()
    }

    ghost function Top(): (e: Env)
      requires Linked()
      ensures e.up == null && e.Linked() && (up == null ==> e == this)
      decreases depth
    {
      if up == null then this else up.Top()
    }

    lemma {:induction false} ChainAllocated()
      requires Linked()
      ensures forall e :: e in Chain() ==> allocated(e)
      decreases depth
    {
      if up != null { up.ChainAllocated(); }
    }

    lemma TopInChain()
      requires Linked()
      ensures Top() in Chain()
      decreases depth
    {
      if up != null { up.TopInChain(); }
    }

    /** The name of an identifier in the innermost environment that has one. */
    ghost function Find(id: Ident): Option<Name>
      requires Linked()
      reads Chain()
      decreases depth
    {
      if id in uids then Some(uids[id]) else if up == null then None else up.Find(id)
    }

    /** What a symbol is called here: a symbol without a name is a variable of the outermost environment. */
    ghost function NameOf(x: string): Name
      requires Linked()
      reads Chain()
    {
      match Find(Symbol(x))
      case Some(name) => name
      case None => Top().prefix + x
    }
  }

  /** The same, from the tables of the environments. */
  ghost function NameIn(e: Env, tables: map<Env, map<Ident, Name>>, x: string): Name
    requires e.Linked() && forall d :: d in e.Chain() ==> d in tables
    decreases e.depth
  {
    if Symbol(x) in tables[e] then tables[e][Symbol(x)]
    else if e.up == null then e.prefix + x
    else NameIn(e.up, tables, x)
  }

  lemma {:induction false} NameIs(e: Env, tables: map<Env, map<Ident, Name>>, x: string)
    requires e.Linked() && forall d :: d in e.Chain() ==> d in tables && tables[d] == d.uids
    ensures e.NameOf(x) == NameIn(e, tables, x)
    decreases e.depth
  {
    if e.up != null { NameIs(e.up, tables, x); }
  }

  /** Symbols get names in an outermost environment, but no others than their own. */
  ghost predicate Gains(m: map<Ident, Name>, m1: map<Ident, Name>, prefix: string) {
    && (forall id :: id in m ==> id in m1 && m1[id] == m[id])
    && (forall x :: Symbol(x) in m1 && Symbol(x) !in m ==> m1[Symbol(x)] == prefix + x)
  }

  /** That changes the name of nothing. */
  lemma {:induction false} NameStays(e: Env, tables: map<Env, map<Ident, Name>>, x: string)
    requires e.Linked() && forall d :: d in e.Chain() ==>
      d in tables && if d.up != null then d.uids == tables[d] else Gains(tables[d], d.uids, d.prefix)
    ensures e.NameOf(x) == NameIn(e, tables, x)
    decreases e.depth
  {
    if e.up != null { NameStays(e.up, tables, x); }
  }

  ghost function Tables(env: Env): map<Env, map<Ident, Name>>
    requires env.Linked()
    reads env.Chain()
  {
    map e | e in env.Chain() :: e.uids
  }

  class Expander {
    var ucnt: nat

    constructor ()
      ensures ucnt == 0
    {
      ucnt := 0;
    }

    /** `pic_add_identifier`: the name `id` has in this scope, or a new one. */
    method AddIdentifier(env: Env, id: Ident) returns (uid: Name)
      modifies this, env`uids
      ensures id in old(env.uids) ==> uid == old(env.uids)[id] && env.uids == old(env.uids) && ucnt == old(ucnt)
      ensures id !in old(env.uids) ==> env.uids == old(env.uids)[id := uid]
      ensures id !in old(env.uids) && env.up == null && id.Symbol? ==> uid == env.prefix + id.name && ucnt == old(ucnt)
      ensures id !in old(env.uids) && !(env.up == null && id.Symbol?) ==>
                ucnt == old(ucnt) + 1 && MadeIn(uid, old(ucnt), ucnt)
    {
      if id in env.uids {
        return env.uids[id];
      }
      var name := IdName(id);
      if env.up == null && id.Symbol? {
        uid := env.prefix + name;
      } else {
        uid := Uid(name, ucnt);
        assert MadeAt(uid, ucnt);
        ucnt := ucnt + 1;
      }
      env.uids := env.uids[id := uid];
    }

    /** `pic_find_identifier` for a symbol: the name in the innermost scope that has one; a symbol that has none
        is a variable of the outermost environment. */
    method FindIdentifier(env: Env, x: string) returns (uid: Name)
      requires env.Linked()
      modifies this, env.Top()`uids
      ensures ucnt == old(ucnt) && uid == old(env.NameOf(x))
      ensures env.Top().uids == if old(env.Find(Symbol(x))).Some? then old(env.Top().uids)
        else old(env.Top().uids)[Symbol(x) := uid]
      ensures Gains(old(env.Top().uids), env.Top().uids, env.Top().prefix)
    {
      var e: Env := env;
      while Symbol(x) !in e.uids && e.up != null
        invariant e.Linked() && e.Top() == env.Top() && e.Find(Symbol(x)) == env.Find(Symbol(x))
        decreases e.depth
      {
        e := e.up;
      }
      if Symbol(x) in e.uids { return e.uids[Symbol(x)]; }
      uid := AddIdentifier(e, Symbol(x));
    }

    /** The formals of a lambda in a scope of their own: distinct formals get distinct names, none of
        which was made before. */
    method AddFormals(up: Env, ids: seq<Ident>) returns (env: Env, names: seq<Name>)
      requires up.Linked()
      modifies this
      ensures env.Linked() && Named(env.uids, ids, names, old(ucnt), ucnt)
      ensures fresh(env) && env.up == up && |names| == |ids| && ucnt >= old(ucnt)
      ensures forall i :: 0 <= i < |names| ==> MadeIn(names[i], old(ucnt), ucnt)
      ensures forall i, j :: 0 <= i < j < |names| ==> (names[i] == names[j] <==> ids[i] == ids[j])
      ensures NoDup(names) <==> NoDup(ids)
      ensures forall i :: 0 <= i < |ids| ==> ids[i] in env.uids && env.uids[ids[i]] == names[i]
    {
      env := new Env(up, "");
      names := [];
      for k := 0 to |ids|
        invariant |names| == k && ucnt >= old(ucnt) && env.up == up && env.Linked()
        invariant Named(env.uids, ids[..k], names, old(ucnt), ucnt)
      {
        ghost var before, c := env.uids, ucnt;
        var uid := AddIdentifier(env, ids[k]);
        NamedNext(before, ids[..k], names, old(ucnt), c, ids[k], uid, ucnt);
        names := names + [uid];
        assert ids[..k + 1] == ids[..k] + [ids[k]];
      }
      assert ids[..|ids|] == ids;
      NamedAll(env.uids, ids, names, old(ucnt), ucnt);
    }
  }

  /** A scope that names exactly `ids`, injectively, by names made between two counts. */
  ghost predicate Named(m: map<Ident, Name>, ids: seq<Ident>, names: seq<Name>, lo: nat, hi: nat) {
    && |names| == |ids|
    && (forall i :: 0 <= i < |ids| ==> ids[i] in m && m[ids[i]] == names[i])
    && (forall x :: x in m ==> x in ids && MadeIn(m[x], lo, hi))
    && (forall x, y :: x in m && y in m && m[x] == m[y] ==> x == y)
  }

  lemma NamedNext(m: map<Ident, Name>, ids: seq<Ident>, names: seq<Name>, lo: nat, c: nat,
                  id: Ident, uid: Name, hi: nat)
    requires Named(m, ids, names, lo, c) && lo <= c <= hi
    requires if id in m then uid == m[id] else MadeIn(uid, c, hi)
    ensures Named(m[id := uid], ids + [id], names + [uid], lo, hi)
  {
    hide MadeIn;
    forall x | x in m ensures MadeIn(m[x], lo, hi) { Later(m[x], lo, c, hi); }
    if id !in m {
      forall x | x in m ensures m[x] != uid { ApartInTime(m[x], lo, c, uid, hi); }
      Earlier(uid, lo, c, hi);
    }
    assert (ids + [id])[|ids|] == id;
  }

  lemma NamedAll(m: map<Ident, Name>, ids: seq<Ident>, names: seq<Name>, lo: nat, hi: nat)
    requires Named(m, ids, names, lo, hi)
    ensures forall i :: 0 <= i < |names| ==> MadeIn(names[i], lo, hi)
    ensures forall i, j :: 0 <= i < j < |names| ==> (names[i] == names[j] <==> ids[i] == ids[j])
    ensures NoDup(names) <==> NoDup(ids)
  {
    hide MadeIn;
  }

  lemma Later(uid: Name, lo: nat, mid: nat, hi: nat)
    requires MadeIn(uid, lo, mid) && mid <= hi
    ensures MadeIn(uid, lo, hi)
  {
  }

  lemma Earlier(uid: Name, lo: nat, mid: nat, hi: nat)
    requires MadeIn(uid, mid, hi) && lo <= mid
    ensures MadeIn(uid, lo, hi)
  {
  }
}
