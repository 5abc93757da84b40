/** The objects of the heap and the references the collector follows. */
module ObjectGraph {
  import opened Util

  /** An object is named by its page and the unit of its header. */
  datatype Ref = Ref(page: nat, unit: nat)

  datatype Val = Imm | Obj(r: Ref)

  datatype Object =
    | Pair(car: Val, cdr: Val)
    | Context(regs: seq<Val>, up: Option<Ref>)
    | FuncProc(locals: seq<Val>)
    | IrepProc(cxt: Option<Ref>, irep: Ref)
    | Irep(pool: seq<Ref>, ireps: seq<Ref>)
    | Port
    | ErrorObject(kind: Ref, msg: Ref, irrs: Val, stack: Ref)
    | Str
    | Vector(data: seq<Val>)
    | Blob
    | Identifier(id: Ref, env: Ref)
    | Env(entries: seq<(Ref, Ref)>, outer: Option<Ref>, prefix: Ref)
    | Data
    | Dict(dict: seq<(Val, Val)>)
    | Record(rtype: Val, datum: Val)
    | Symbol(str: Ref)
    | Weak(weak: seq<(Ref, Val)>)

  function OfVal(v: Val): seq<Ref> {
    if v.Obj? then [v.r] else []
  }

  function OfVals(vs: seq<Val>): seq<Ref> {
    if vs == [] then [] else OfVal(vs[0]) + OfVals(vs[1..])
  }

  function OfOption(o: Option<Ref>): seq<Ref> {
    if o.Some? then [o.value] else []
  }

  function OfPairs(ps: seq<(Ref, Ref)>): seq<Ref> {
    if ps == [] then [] else [ps[0].0, ps[0].1] + OfPairs(ps[1..])
  }

  function OfDict(ps: seq<(Val, Val)>): seq<Ref> {
    if ps == [] then [] else OfVal(ps[0].0) + OfVal(ps[0].1) + OfDict(ps[1..])
  }

  /** The children that `gc_mark_object` marks by recursion, in order. */
  function Inner(o: Object): seq<Ref> {
    match o
    case Pair(car, _) => OfVal(car)
    case Context(regs, _) => OfVals(regs)
    case FuncProc(locals) => OfVals(locals)
    case IrepProc(cxt, _) => OfOption(cxt)
    case Irep(pool, ireps) => pool + ireps
    case ErrorObject(kind, msg, irrs, _) => [kind, msg] + OfVal(irrs)
    case Vector(data) => OfVals(data)
    case Identifier(id, _) => [id]
    case Env(entries, _, _) => OfPairs(entries)
    case Dict(entries) => OfDict(entries)
    case Record(rtype, _) => OfVal(rtype)
    case _ => []
  }

  /** The child it goes on with in its loop. */
  function Tail(o: Object): Option<Ref> {
    match o
    case Pair(_, Obj(r)) => Some(r)
    case Context(_, up) => up
    case IrepProc(_, irep) => Some(irep)
    case ErrorObject(_, _, _, stack) => Some(stack)
    case Identifier(_, env) => Some(env)
    case Env(_, Some(up), _) => Some(up)
    case Env(_, None, prefix) => Some(prefix)
    case Record(_, Obj(r)) => Some(r)
    case Symbol(str) => Some(str)
    case _ => None
  }

  /** The objects an object holds strongly, field by field; a weak table holds none. An environment holds its prefix
      only when there is no environment around it. */
  ghost predicate Holds(o: Object, r: Ref) {
    match o
    case Pair(car, cdr) => car == Obj(r) || cdr == Obj(r)
    case Context(regs, up) => Obj(r) in regs || up == Some(r)
    case FuncProc(locals) => Obj(r) in locals
    case IrepProc(cxt, irep) => cxt == Some(r) || irep == r
    case Irep(pool, ireps) => r in pool || r in ireps
    case ErrorObject(kind, msg, irrs, stack) => kind == r || msg == r || irrs == Obj(r) || stack == r
    case Vector(data) => Obj(r) in data
    case Identifier(id, env) => id == r || env == r
    case Env(entries, outer, prefix) =>
      (exists e :: e in entries && (e.0 == r || e.1 == r)) || outer == Some(r) || (outer == None && prefix == r)
    case Dict(dict) => exists e :: e in dict && (e.0 == Obj(r) || e.1 == Obj(r))
    case Record(rtype, datum) => rtype == Obj(r) || datum == Obj(r)
    case Symbol(str) => str == r
    case Port | Str | Blob | Data | Weak(_) => false
  }

  lemma {:induction false} ValsAre(vs: seq<Val>, r: Ref)
    ensures r in OfVals(vs) <==> Obj(r) in vs
    decreases vs
  {
    if vs != [] {
      ValsAre(vs[1..], r);
      assert vs == [vs[0]] + vs[1..];
    }
  }

  lemma {:induction false} PairsAre(ps: seq<(Ref, Ref)>, r: Ref)
    ensures r in OfPairs(ps) <==> exists e :: e in ps && (e.0 == r || e.1 == r)
    decreases ps
  {
    if ps != [] {
      PairsAre(ps[1..], r);
      assert ps == [ps[0]] + ps[1..];
    }
  }

  lemma {:induction false} DictAre(ps: seq<(Val, Val)>, r: Ref)
    ensures r in OfDict(ps) <==> exists e :: e in ps && (e.0 == Obj(r) || e.1 == Obj(r))
    decreases ps
  {
    if ps != [] {
      DictAre(ps[1..], r);
      assert ps == [ps[0]] + ps[1..];
    }
  }

  /** The marker goes through all fields of an object, and no others. */
  lemma HoldsIs(o: Object, r: Ref)
    ensures Holds(o, r) <==> r in Inner(o) || Tail(o) == Some(r)
  {
    match o
    case Context(regs, _) => ValsAre(regs, r);
    case FuncProc(locals) => ValsAre(locals, r);
    case Vector(data) => ValsAre(data, r);
    case Env(entries, _, _) => PairsAre(entries, r);
    case Dict(dict) => DictAre(dict, r);
    case _ =>
  }

  type Store = map<Ref, Object>

  ghost predicate StrongClosed(st: Store, s: set<Ref>) {
    forall x, c :: x in s && x in st && Holds(st[x], c) ==> c in s
  }

  /** An entry of a weak table keeps its value alive when table and key are alive. */
  ghost predicate EntryClosed(e: (Ref, Val), s: set<Ref>) {
    e.0 in s && e.1.Obj? ==> e.1.r in s
  }

  ghost predicate TableClosed(o: Object, s: set<Ref>) {
    o.Weak? ==> forall e :: e in o.weak ==> EntryClosed(e, s)
  }

  ghost predicate Closed(st: Store, s: set<Ref>) {
    StrongClosed(st, s) && forall w :: w in s && w in st ==> TableClosed(st[w], s)
  }

  /** The least set that holds the roots and is closed under both kinds of references. */
  ghost predicate IsLive(st: Store, roots: set<Ref>, m: set<Ref>) {
    && roots <= m && Closed(st, m)
    && forall s: set<Ref> :: roots <= s && Closed(st, s) ==> m <= s
  }

  /** No reference leaves the store. */
  ghost predicate NoDangling(st: Store) {
    && (forall x, c :: x in st && Holds(st[x], c) ==> c in st)
    && (forall x, e :: x in st && st[x].Weak? && e in st[x].weak ==> e.0 in st && (e.1.Obj? ==> e.1.r in st))
  }

  lemma StoreClosed(st: Store)
    requires NoDangling(st)
    ensures Closed(st, st.Keys)
  {
  }

  // ---------- what a call of the marker does ----------

  /** From `m0` to `m1`: `o` and what it reaches is marked; whatever is new holds marked objects only. */
  ghost predicate MarkedFrom(st: Store, m0: set<Ref>, m1: set<Ref>, o: Ref) {
    && m0 <= m1 && o in m1
    && (forall x, c :: x in m1 && x !in m0 && x in st && Holds(st[x], c) ==> c in m1)
    && (forall s: set<Ref> :: StrongClosed(st, s) && o in s ==> m1 - m0 <= s)
  }

  /** At the head of the loop: only `obj` may still be missing. */
  ghost predicate Pending(st: Store, m0: set<Ref>, m: set<Ref>, o: Ref, obj: Ref) {
    && m0 <= m && (o in m || obj == o)
    && (forall x, c :: x in m && x !in m0 && x in st && Holds(st[x], c) ==> c in m || c == obj)
    && (forall s: set<Ref> :: StrongClosed(st, s) && o in s ==> m - m0 <= s && obj in s)
  }

  /** `obj` is marked and its first `k` inner children are done. */
  ghost predicate Working(st: Store, m0: set<Ref>, m: set<Ref>, o: Ref, obj: Ref, k: nat)
    requires obj in st
  {
    && m0 <= m && o in m && obj in m && k <= |Inner(st[obj])|
    && (forall x, c :: x in m && x !in m0 && x != obj && x in st && Holds(st[x], c) ==> c in m)
    && (forall i :: 0 <= i < k ==> Inner(st[obj])[i] in m)
    && (forall s: set<Ref> :: StrongClosed(st, s) && o in s ==> m - m0 <= s && obj in s)
  }

  lemma PendingStart(st: Store, m0: set<Ref>, o: Ref)
    ensures Pending(st, m0, m0, o, o)
  {
  }

  lemma PendingDone(st: Store, m0: set<Ref>, m: set<Ref>, o: Ref, obj: Ref)
    requires Pending(st, m0, m, o, obj) && obj in m
    ensures MarkedFrom(st, m0, m, o)
  {
  }

  lemma WorkStart(st: Store, m0: set<Ref>, m: set<Ref>, o: Ref, obj: Ref)
    requires Pending(st, m0, m, o, obj) && obj in st
    ensures Working(st, m0, m + {obj}, o, obj, 0)
  {
    hide Holds;
    forall s: set<Ref> | StrongClosed(st, s) && o in s
      ensures (m + {obj}) - m0 <= s && obj in s
    {
      assert m - m0 <= s && obj in s;
    }
  }

  lemma WorkStep(st: Store, m0: set<Ref>, m: set<Ref>, m1: set<Ref>, o: Ref, obj: Ref, k: nat)
    requires obj in st && k < |Inner(st[obj])| && Working(st, m0, m, o, obj, k)
      && MarkedFrom(st, m, m1, Inner(st[obj])[k])
    ensures Working(st, m0, m1, o, obj, k + 1)
  {
    var child := Inner(st[obj])[k];
    HoldsIs(st[obj], child);
    hide Inner, Tail, Holds;
    forall s: set<Ref> | StrongClosed(st, s) && o in s
      ensures m1 - m0 <= s && obj in s
    {
      WorkInside(st, m0, m, m1, s, obj, child);
    }
    hide StrongClosed;
    forall x, c | x in m1 && x !in m0 && x != obj && x in st && Holds(st[x], c)
      ensures c in m1
    {
      if x in m { assert c in m; }
    }
  }

  lemma WorkInside(st: Store, m0: set<Ref>, m: set<Ref>, m1: set<Ref>, s: set<Ref>, obj: Ref, child: Ref)
    requires obj in st && StrongClosed(st, s) && obj in s && Holds(st[obj], child)
    requires MarkedFrom(st, m, m1, child) && m - m0 <= s
    ensures m1 - m0 <= s
  {
    hide Holds;
    assert child in s;
    assert m1 - m <= s;
  }

  lemma WorkDone(st: Store, m0: set<Ref>, m: set<Ref>, o: Ref, obj: Ref)
    requires obj in st && Working(st, m0, m, o, obj, |Inner(st[obj])|) && Tail(st[obj]).None?
    ensures MarkedFrom(st, m0, m, o)
  {
    hide Inner, Tail, Holds;
    forall c | Holds(st[obj], c) ensures c in m { HoldsIs(st[obj], c); }
  }

  lemma WorkNext(st: Store, m0: set<Ref>, m: set<Ref>, o: Ref, obj: Ref, next: Ref)
    requires obj in st && Working(st, m0, m, o, obj, |Inner(st[obj])|) && Tail(st[obj]) == Some(next)
    ensures Pending(st, m0, m, o, next)
  {
    hide Inner, Tail, Holds;
    HoldsIs(st[obj], next);
    forall c | Holds(st[obj], c) ensures c in m || c == next { HoldsIs(st[obj], c); }
    forall s: set<Ref> | StrongClosed(st, s) && o in s
      ensures m - m0 <= s && next in s
    {
    }
  }

  // ---------- the whole mark phase ----------

  /** Everything marked is live, and what it holds strongly is marked. */
  ghost predicate Reaching(st: Store, roots: set<Ref>, m: set<Ref>) {
    && StrongClosed(st, m)
    && forall s: set<Ref> :: Closed(st, s) && roots <= s ==> m <= s
  }

  lemma ReachNone(st: Store, roots: set<Ref>)
    ensures Reaching(st, roots, {})
  {
  }

  lemma ReachStep(st: Store, roots: set<Ref>, m: set<Ref>, m1: set<Ref>, o: Ref)
    requires Reaching(st, roots, m) && MarkedFrom(st, m, m1, o)
    requires forall s: set<Ref> :: Closed(st, s) && roots <= s ==> o in s
    ensures Reaching(st, roots, m1)
  {
    hide Holds, TableClosed;
    forall s: set<Ref> | Closed(st, s) && roots <= s
      ensures m1 <= s
    {
      assert m1 - m <= s && m <= s;
    }
    forall x, c | x in m1 && x in st && Holds(st[x], c)
      ensures c in m1
    {
      if x in m { assert c in m; }
    }
  }

  /** The value of an entry with a marked key in a marked table is live. */
  lemma EntryLive(st: Store, roots: set<Ref>, m: set<Ref>, w: Ref, e: (Ref, Val))
    requires Reaching(st, roots, m) && w in m && w in st && st[w].Weak? && e in st[w].weak && e.0 in m && e.1.Obj?
    ensures forall s: set<Ref> :: Closed(st, s) && roots <= s ==> e.1.r in s
  {
    forall s: set<Ref> | Closed(st, s) && roots <= s
      ensures e.1.r in s
    {
      assert m <= s && TableClosed(st[w], s) && EntryClosed(e, s);
    }
  }

  lemma ReachLive(st: Store, roots: set<Ref>, m: set<Ref>)
    requires Reaching(st, roots, m) && roots <= m && forall w :: w in m && w in st ==> TableClosed(st[w], m)
    ensures IsLive(st, roots, m)
  {
    hide StrongClosed, TableClosed;
  }

  /** Marked objects were allocated. */
  lemma LiveInStore(st: Store, roots: set<Ref>, m: set<Ref>)
    requires NoDangling(st) && roots <= st.Keys && IsLive(st, roots, m)
    ensures m <= st.Keys
  {
    StoreClosed(st);
  }

  // ---------- after the sweep ----------

  /** The entries whose key is alive. */
  function Keep(es: seq<(Ref, Val)>, m: set<Ref>): seq<(Ref, Val)> {
    if es == [] then [] else (if es[0].0 in m then [es[0]] else []) + Keep(es[1..], m)
  }

  lemma {:induction false} KeepIs(es: seq<(Ref, Val)>, m: set<Ref>, e: (Ref, Val))
    ensures e in Keep(es, m) <==> e in es && e.0 in m
    decreases |es|
  {
    if es != [] { KeepIs(es[1..], m, e); }
  }

  lemma {:induction false} KeepMore(es: seq<(Ref, Val)>, n: nat, m: set<Ref>)
    requires n < |es|
    ensures Keep(es[..n + 1], m) == Keep(es[..n], m) + if es[n].0 in m then [es[n]] else []
    decreases n
  {
    if n > 0 {
      KeepMore(es[1..], n - 1, m);
      assert es[..n + 1][1..] == es[1..][..n] && es[..n][1..] == es[1..][..n - 1];
    } else {
      assert es[..1] == [es[0]] && es[..0] == [] && es[..1][1..] == [];
    }
  }

  /** An object without the entries of dead keys. */
  function Pruned(o: Object, m: set<Ref>): Object {
    if o.Weak? then Weak(Keep(o.weak, m)) else o
  }

  ghost function Survivors(st: Store, m: set<Ref>): Store {
    map r | r in st && r in m :: Pruned(st[r], m)
  }

  /** Survivors are the live objects of the store, as they were; of a table, exactly the entries with live keys are
      left, in their order. */
  lemma SurvivorsAre(st: Store, m: set<Ref>, r: Ref)
    ensures r in Survivors(st, m) <==> r in st && r in m
    ensures r in Survivors(st, m) && !st[r].Weak? ==> Survivors(st, m)[r] == st[r]
    ensures r in Survivors(st, m) && st[r].Weak? ==>
      var es := Survivors(st, m)[r];
      es.Weak? && (forall e :: e in es.weak <==> e in st[r].weak && e.0 in m)
      && Subsequence(es.weak, st[r].weak)
  {
    if r in Survivors(st, m) && st[r].Weak? {
      forall e ensures e in Keep(st[r].weak, m) <==> e in st[r].weak && e.0 in m { KeepIs(st[r].weak, m, e); }
      KeepInOrder(st[r].weak, m);
    }
  }

  /** What is left when some elements are taken out. */
  ghost predicate Subsequence<T>(xs: seq<T>, ys: seq<T>)
    decreases |ys|
  {
    if ys == [] then xs == []
    else (xs != [] && xs[0] == ys[0] && Subsequence(xs[1..], ys[1..])) || Subsequence(xs, ys[1..])
  }

  lemma {:induction false} KeepInOrder(es: seq<(Ref, Val)>, m: set<Ref>)
    ensures Subsequence(Keep(es, m), es)
    decreases |es|
  {
    if es != [] {
      KeepInOrder(es[1..], m);
      if es[0].0 in m {
        assert Keep(es, m)[1..] == Keep(es[1..], m);
      } else {
        assert Keep(es, m) == Keep(es[1..], m);
      }
    }
  }

  lemma PrunedHolds(o: Object, m: set<Ref>, c: Ref)
    ensures Holds(Pruned(o, m), c) <==> Holds(o, c)
  {
  }

  /** No survivor refers to a dead object. */
  lemma SurvivorsOk(st: Store, roots: set<Ref>, m: set<Ref>)
    requires NoDangling(st) && IsLive(st, roots, m)
    ensures NoDangling(Survivors(st, m))
  {
    var st1 := Survivors(st, m);
    forall x, c | x in st1 && Holds(st1[x], c)
      ensures c in st1
    {
      PrunedHolds(st[x], m, c);
      hide Holds;
      assert c in st && c in m;
    }
    hide Holds;
    forall x, e | x in st1 && st1[x].Weak? && e in st1[x].weak
      ensures e.0 in st1 && (e.1.Obj? ==> e.1.r in st1)
    {
      KeepIs(st[x].weak, m, e);
      assert TableClosed(st[x], m) && EntryClosed(e, m);
    }
  }

  /** Dropping entries of one table leaves no dangling reference. */
  lemma PruneOne(st: Store, w: Ref, m: set<Ref>)
    requires NoDangling(st) && w in st
    ensures NoDangling(st[w := Pruned(st[w], m)])
  {
    var st1 := st[w := Pruned(st[w], m)];
    forall x, c | x in st1 && Holds(st1[x], c)
      ensures c in st1
    {
      PrunedHolds(st[x], m, c);
    }
    forall x, e | x in st1 && st1[x].Weak? && e in st1[x].weak
      ensures e.0 in st1 && (e.1.Obj? ==> e.1.r in st1)
    {
      if x == w { KeepIs(st[x].weak, m, e); }
    }
  }
}
