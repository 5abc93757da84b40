/** Two programs that fail when evaluated as written and have a value after the passes. */
module EarlyUses {
  import opened Util
  import opened Syntax
  import opened CoreForms
  import opened Pipeline
  import opened Identifiers
  import Builtins
  import Compiler
  import D = Direct
  import Distinct
  import Errors
  import Expansion
  import S = Source

  // ---------- reading a local variable ----------

  /** `((lambda r (define x x)))` */
  function ReaderForm(x: string, r: string): Expansion.Form {
    Expansion.FCall(Expansion.FLambda([], Some(r), Expansion.FDefine(x, Expansion.FVar(x))), [])
  }

  function EarlyReader(x: Name, r: Name): Core {
    CCall(CLambda([], Some(r), CDefine(x, CVar(x))), [])
  }

  /** The expander gives both occurrences of the variable the same name. */
  lemma ReaderExpands(x: string, r: string, c: Core, m: map<Ident, Name>, fin: seq<string>, out: string -> Name)
    returns (x1: Name, r1: Name)
    requires Expansion.Renames(ReaderForm(x, r), c, m, [], fin, out) && NoDup(Distinct.Binders(c))
    ensures c == EarlyReader(x1, r1) && x1 != r1
  {
    hide Distinct.Binders;
    var CCall(lam, args) := c;
    var def := Expansion.FDefine(x, Expansion.FVar(x));
    assert Expansion.RenamesAll([], args, m, [] + Expansion.Defined(ReaderForm(x, r).fn), fin, out);
    assert Expansion.RenamesLambda(ReaderForm(x, r).fn, lam, Expansion.Within(m, fin, out));
    r1 := lam.rest.value;
    var formals := Expansion.FormalsOf([], Some(r));
    var m1: map<Ident, Name> :|
      Expansion.Renames(def, lam.body, m1, formals, formals + Expansion.Defined(def), Expansion.Within(m, fin, out));
    x1 := lam.body.x;
    ReadsItself(x, lam.body, m1, formals, formals + Expansion.Defined(def), Expansion.Within(m, fin, out));
    assert c == EarlyReader(x1, r1);
    ReaderBinders(x1, r1);
    assert [r1, x1][0] != [r1, x1][1];
  }

  lemma ReadsItself(x: string, c: Core, m: map<Ident, Name>, ds: seq<string>, fin: seq<string>, out: string -> Name)
    requires Expansion.Renames(Expansion.FDefine(x, Expansion.FVar(x)), c, m, ds, fin, out)
    ensures c.CDefine? && c == CDefine(c.x, CVar(c.x))
  {
    assert Expansion.Renames(Expansion.FVar(x), c.e, m, ds + [x], fin, out);
  }

  lemma ReaderBinders(x: Name, r: Name)
    ensures Distinct.Binders(EarlyReader(x, r)) == [r, x]
  {
    var def := CDefine(x, CVar(x));
    assert Distinct.Binders(def) == [x] + Distinct.Binders(CVar(x));
    assert Distinct.Binders(CLambda([], Some(r), def)) == [] + [r] + Distinct.Binders(def);
    assert Distinct.Binders(EarlyReader(x, r)) == Distinct.Binders(EarlyReader(x, r).fn) + Distinct.BindersAll([]);
  }

  lemma ReaderPasses(x: Name, r: Name)
    ensures Normalize(Optimize(EarlyReader(x, r))) == Call(Lambda([], Some(r), [x], Set(x, Var(x))), [])
    ensures TopDefs(EarlyReader(x, r)) == []
  {
    var def := CDefine(x, CVar(x));
    assert Optimize(def) == def;
    var lam := CLambda([], Some(r), def);
    assert Optimize(lam) == lam;
    assert Optimize(EarlyReader(x, r)) == EarlyReader(x, r);
    assert Hoisted(def, []) == [x];
    assert Normalize(def) == Set(x, Var(x));
    assert Normalize(lam) == Lambda([], Some(r), [x], Normalize(def));
    assert Hoisted(lam, []) == [];
    assert NormalizeAll([]) == [];
    assert Normalize(CCall(lam, [])) == Call(Normalize(lam), []);
    assert Hoisted(CCall(lam, []), []) == HoistedAll([], []);
  }

  lemma ReaderDirect(x: Name, r: Name, s: D.Store, n: nat)
    requires x != r && x !in s.globals && n > 0 && s.frames == []
    ensures D.EvalProgram(EarlyReader(x, r), s, n) == D.Unbound(x, false)
  {
    var lam := EarlyReader(x, r).fn;
    var s0 := s.(frames := s.frames + [D.TOP_FRAME]);
    var s1 := s0.(frames := s0.frames + [D.NewFrame(lam, 0, [])]);
    assert D.Find(s1.frames, 1, x) == None;
    assert D.Eval(CVar(x), 1, s1, n - 1) == D.Unbound(x, false);
    assert D.Eval(lam.body, 1, s1, n - 1) == D.Unbound(x, false);
    assert D.ApplyProc(Proc(D.Closure(lam, 0)), [], s0, n) == D.Unbound(x, false);
    assert D.EvalArgs([], 0, s0, n) == D.ArgsOk([], s0);
    assert D.Eval(lam, 0, s0, n) == D.Ok(Proc(D.Closure(lam, 0)), s0);
    assert D.Eval(CCall(lam, []), 0, s0, n) == D.Unbound(x, false);
    DirectUnfold(EarlyReader(x, r), s, n);
  }

  lemma ReaderBody(x: Name, r: Name, h: S.Store, n: nat)
    requires x != r && |h.frames| == 2 && h.frames[1].names == [r, x] && |h.frames[1].vals| == 2
    ensures S.Eval(Set(x, Var(x)), 1, h, n).Ok?
  {
    assert S.Eval(Var(x), 1, h, n).Ok?;
  }

  lemma ReaderSource(x: Name, r: Name, h: S.Store, n: nat)
    requires x != r && n > 0 && h.frames == []
    ensures Compiler.EvalProgram(Call(Lambda([], Some(r), [x], Set(x, Var(x))), []), h, n).Ok?
  {
    hide S.Lookup, S.Update;
    var lam := Lambda([], Some(r), [x], Set(x, Var(x)));
    var h0 := h.(frames := h.frames + [Compiler.TOP_FRAME]);
    var h1 := h0.(frames := h0.frames + [S.NewFrame(lam, 0, [])]);
    assert h1.frames[1].names == [r, x] && |h1.frames[1].vals| == 2;
    ReaderBody(x, r, h1, n - 1);
    assert S.ApplyProc(Proc(S.Closure(lam, 0)), [], h0, n).Ok?;
    assert S.EvalArgs([], 0, h0, n) == S.ArgsOk([], h0);
    assert S.Eval(lam, 0, h0, n) == S.Ok(Proc(S.Closure(lam, 0)), h0);
    hide S.ApplyProc, S.NewFrame;
    assert S.Eval(Call(lam, []), 0, h0, n).Ok?;
    Compiler.EvalProgramUnfold(Call(lam, []), h, n);
  }

  /** Whatever the expander makes of it: a local variable that is read before it has a value is an error in the program
      as written, and holds something after the passes. */
  lemma EarlyUse(x: string, r: string, c: Core, m: map<Ident, Name>, fin: seq<string>, out: string -> Name,
                 g: map<Name, Prim>, n: nat)
    requires Expansion.Renames(ReaderForm(x, r), c, m, [], fin, out)
    requires NoDup(Distinct.Binders(c)) && (forall b :: b in Distinct.Binders(c) ==> b !in g) && n > 0
    ensures Errors.Failed(D.EvalProgram(c, DirectStart(g), n))
    ensures Compiler.EvalProgram(Normalize(Optimize(c)), Announced(SourceStart(g), TopDefs(c)), n).Ok?
    ensures !Errors.Orderly(c)
  {
    hide Expansion.Renames, D.Eval, S.Eval, Normalize, Optimize, TopDefs, Distinct.Binders, Errors.Orderly;
    var x1, r1 := ReaderExpands(x, r, c, m, fin, out);
    ReaderBinders(x1, r1);
    ReaderPasses(x1, r1);
    ReaderDirect(x1, r1, DirectStart(g), n);
    ReaderSource(x1, r1, Announced(SourceStart(g), TopDefs(c)), n);
    if Errors.Orderly(c) { Errors.ErrorsStay(c, g, n); }
  }

  // ---------- assigning a variable of the top level ----------

  /** `(begin (set! x '()) (define x '()))` */
  function SetterForm(x: string): Expansion.Form {
    Expansion.FBegin(Expansion.FSet(x, Expansion.FQuote(DNil)), Expansion.FDefine(x, Expansion.FQuote(DNil)))
  }

  function EarlySetter(x: Name): Core {
    CBegin(CSet(x, CQuote(DNil)), CDefine(x, CQuote(DNil)))
  }

  lemma SetterExpands(x: string, c: Core, m: map<Ident, Name>, uids: map<Ident, Name>, prefix: string)
    requires Expansion.Renames(SetterForm(x), c, m, [], [x], Expansion.TopNames(uids, prefix))
    requires (Symbol(x) in uids ==> uids[Symbol(x)] == prefix + x) && (Symbol(x) in m ==> m[Symbol(x)] == prefix + x)
    ensures c == EarlySetter(prefix + x) && Distinct.Binders(c) == [prefix + x]
  {
    assert Expansion.Renames(SetterForm(x).e1, c.e1, m, [], [x], Expansion.TopNames(uids, prefix));
    var ds: seq<string> := [] + Expansion.Defined(SetterForm(x).e1);
    assert Expansion.Defined(SetterForm(x).e1) == Expansion.Defined(SetterForm(x).e1.e) == [];
    assert ds == [];
    assert Expansion.Renames(SetterForm(x).e2, c.e2, m, [], [x], Expansion.TopNames(uids, prefix));
    assert Expansion.Renames(SetterForm(x).e1.e, c.e1.e, m, [], [x], Expansion.TopNames(uids, prefix));
    assert Expansion.Renames(SetterForm(x).e2.e, c.e2.e, m, [] + [x], [x], Expansion.TopNames(uids, prefix));
    assert Distinct.Binders(c.e1) == [] && Distinct.Binders(c.e2) == [prefix + x] + Distinct.Binders(c.e2.e);
  }

  lemma SetterPasses(x: Name)
    ensures Normalize(Optimize(EarlySetter(x))) == Begin(Set(x, Quote(DNil)), Set(x, Quote(DNil)))
    ensures TopDefs(EarlySetter(x)) == [x]
  {
    var e := EarlySetter(x);
    assert Optimize(e.e1) == e.e1 && Optimize(e.e2) == e.e2;
    assert Optimize(e) == e;
    assert Normalize(e.e1) == Set(x, Quote(DNil)) && Normalize(e.e2) == Set(x, Quote(DNil));
    assert Hoisted(e.e1, []) == [];
    assert Hoisted(e.e2, []) == [x];
  }

  lemma SetterDirect(x: Name, s: D.Store, n: nat)
    requires x !in s.globals && s.frames == []
    ensures D.EvalProgram(EarlySetter(x), s, n) == D.Unbound(x, true)
  {
    var s0 := s.(frames := s.frames + [D.TOP_FRAME]);
    assert D.Find(s0.frames, 0, x) == None;
    assert D.Eval(CQuote(DNil), 0, s0, n) == D.Ok(Nil, s0);
    assert D.Eval(EarlySetter(x).e1, 0, s0, n) == D.Unbound(x, true);
    DirectUnfold(EarlySetter(x), s, n);
  }

  lemma SetterSource(x: Name, h: S.Store, n: nat)
    requires x in h.globals && h.frames == []
    ensures Compiler.EvalProgram(Begin(Set(x, Quote(DNil)), Set(x, Quote(DNil))), h, n).Ok?
  {
    var h0 := h.(frames := h.frames + [Compiler.TOP_FRAME]);
    assert S.Eval(Quote(DNil), 0, h0, n) == S.Ok(Nil, h0);
    SetsGlobal(x, h0, n);
    SetsGlobal(x, S.Eval(Set(x, Quote(DNil)), 0, h0, n).s, n);
    Compiler.EvalProgramUnfold(Begin(Set(x, Quote(DNil)), Set(x, Quote(DNil))), h, n);
  }

  lemma SetsGlobal(x: Name, h: S.Store, n: nat)
    requires x in h.globals && h.frames == [Compiler.TOP_FRAME]
    ensures S.Eval(Set(x, Quote(DNil)), 0, h, n).Ok?
    ensures var h1 := S.Eval(Set(x, Quote(DNil)), 0, h, n).s; x in h1.globals && h1.frames == h.frames
  {
    assert S.FindFrame(h.frames, 0, x) == None;
    assert S.Eval(Quote(DNil), 0, h, n) == S.Ok(Nil, h);
  }

  /** The same for a variable of the top level that is assigned before it is defined. */
  lemma EarlyAssignment(x: string, c: Core, m: map<Ident, Name>, uids: map<Ident, Name>, prefix: string,
                        g: map<Name, Prim>, n: nat)
    requires Expansion.Renames(SetterForm(x), c, m, [], [x], Expansion.TopNames(uids, prefix))
    requires (Symbol(x) in uids ==> uids[Symbol(x)] == prefix + x) && (Symbol(x) in m ==> m[Symbol(x)] == prefix + x)
    requires prefix + x !in g
    ensures Errors.Failed(D.EvalProgram(c, DirectStart(g), n))
    ensures Compiler.EvalProgram(Normalize(Optimize(c)), Announced(SourceStart(g), TopDefs(c)), n).Ok?
    ensures !Errors.Orderly(c)
  {
    hide Expansion.Renames, D.Eval, S.Eval, Normalize, Optimize, TopDefs, Distinct.Binders, Errors.Orderly;
    SetterExpands(x, c, m, uids, prefix);
    SetterPasses(prefix + x);
    SetterDirect(prefix + x, DirectStart(g), n);
    SetterSource(prefix + x, Announced(SourceStart(g), TopDefs(c)), n);
    if Errors.Orderly(c) { Errors.ErrorsStay(c, g, n); }
  }
}
