/** The meaning of normalized core forms: every call makes a frame of named variables, and a
    closure remembers the frame it was made in. Evaluation is indexed by call depth. */
module Source {
  import opened Util
  import opened Syntax
  import Builtins

  datatype Closure = Closure(lam: Expr, env: nat)
  type SVal = Value<Closure>

  /** `vals` runs parallel to `names`; the first binding of a name is the one that counts. */
  datatype Frame = Frame(names: seq<Name>, vals: seq<SVal>, up: Option<nat>)

  /** A global that `normalize` announced but nothing has set yet holds `None`. */
  datatype Store = Store(frames: seq<Frame>, globals: map<Name, Option<SVal>>)

  datatype Outcome = Ok(v: SVal, s: Store) | Error | Timeout
  datatype ArgsOutcome = ArgsOk(vs: seq<SVal>, s: Store) | ArgsError | ArgsTimeout

  /** The innermost frame, from `f` outwards, that binds `x`. */
  function FindFrame(frames: seq<Frame>, f: nat, x: Name): (r: Option<nat>)
    ensures r.Some? ==> r.value < |frames| && x in frames[r.value].names
    decreases f
  {
    if f >= |frames| then None
    else if x in frames[f].names then Some(f)
    else match frames[f].up
      case Some(p) => if p < f then FindFrame(frames, p, x) else None
      case None => None
  }

  function Lookup(s: Store, f: nat, x: Name): Option<SVal> {
    match FindFrame(s.frames, f, x)
    case Some(g) =>
      var j := IndexOf(s.frames[g].names, x);
      if j < |s.frames[g].vals| then Some(s.frames[g].vals[j]) else None
    case None =>
      if x in s.globals then s.globals[x] else None
  }

  function Update(s: Store, f: nat, x: Name, v: SVal): Option<Store> {
    match FindFrame(s.frames, f, x)
    case Some(g) =>
      var j := IndexOf(s.frames[g].names, x);
      var fr := s.frames[g];
      if j < |fr.vals| then Some(s.(frames := s.frames[g := fr.(vals := fr.vals[j := v])])) else None
    case None =>
      if x in s.globals then Some(s.(globals := s.globals[x := Some(v)])) else None
  }

  function ListOf<C>(vs: seq<Value<C>>): Value<C> {
    if vs == [] then Nil else Pair(vs[0], ListOf(vs[1..]))
  }

  function Undefs<C>(n: nat): (vs: seq<Value<C>>)
    ensures |vs| == n
    ensures forall i :: 0 <= i < n ==> vs[i] == Undef
  {
    seq(n, i => Undef)
  }

  predicate ArityOk(paramc: nat, varg: bool, argc: nat) {
    argc == paramc || (varg && paramc <= argc)
  }

  /** The initial slots of a frame: parameters, rest list, then undefined locals. */
  function InitialSlots<C>(paramc: nat, varg: bool, localc: nat, vs: seq<Value<C>>): seq<Value<C>>
    requires ArityOk(paramc, varg, |vs|)
  {
    vs[..paramc] + (if varg then [ListOf(vs[paramc..])] else []) + Undefs(localc)
  }

  function NewFrame(lam: Expr, env: nat, vs: seq<SVal>): Frame
    requires lam.Lambda? && ArityOk(|lam.params|, lam.rest.Some?, |vs|)
  {
    Frame(FrameNames(lam.params, lam.rest, lam.locals),
          InitialSlots(|lam.params|, lam.rest.Some?, |lam.locals|, vs),
          Some(env))
  }

  function Eval(e: Expr, f: nat, s: Store, fuel: nat): Outcome
    decreases fuel, 1, e, 1
  {
    match e
    case Quote(d) => Ok(Inject(d), s)
    case Var(x) =>
      (match Lookup(s, f, x)
       case Some(v) => Ok(v, s)
       case None => Error)
    case Set(x, e1) =>
      (match Eval(e1, f, s, fuel)
       case Ok(v, s1) =>
         (match Update(s1, f, x, v)
          case Some(s2) => Ok(Undef, s2)
          case None => Error)
       case o => o)
    case If(c, t, el) =>
      (match Eval(c, f, s, fuel)
       case Ok(v, s1) => Eval(if v == Bool(false) then el else t, f, s1, fuel)
       case o => o)
    case Begin(e1, e2) =>
      (match Eval(e1, f, s, fuel)
       case Ok(_, s1) => Eval(e2, f, s1, fuel)
       case o => o)
    case Lambda(_, _, _, _) => Ok(Proc(Closure(e, f)), s)
    case Call(fn, args) =>
      (match Eval(fn, f, s, fuel)
       case Ok(v, s1) =>
         (match EvalArgs(args, f, s1, fuel)
          case ArgsOk(vs, s2) => ApplyProc(v, vs, s2, fuel)
          case ArgsError => Error
          case ArgsTimeout => Timeout)
       case o => o)
  }

  function EvalArgs(es: seq<Expr>, f: nat, s: Store, fuel: nat): (r: ArgsOutcome)
    ensures r.ArgsOk? ==> |r.vs| == |es|
    decreases fuel, 1, es, 0
  {
    if es == [] then ArgsOk([], s)
    else
      match Eval(es[0], f, s, fuel)
      case Ok(v, s1) =>
        (match EvalArgs(es[1..], f, s1, fuel)
         case ArgsOk(vs, s2) => ArgsOk([v] + vs, s2)
         case o => o)
      case Error => ArgsError
      case Timeout => ArgsTimeout
  }

  function ApplyProc(v: SVal, vs: seq<SVal>, s: Store, fuel: nat): Outcome
    decreases fuel, 0
  {
    match v
    case Builtin(p) =>
      (match Builtins.Apply(p, vs)
       case Some(r) => Ok(r, s)
       case None => Error)
    case Proc(Closure(lam, env)) =>
      if !lam.Lambda? || !ArityOk(|lam.params|, lam.rest.Some?, |vs|) then Error
      else if fuel == 0 then Timeout
      else
        var s1 := s.(frames := s.frames + [NewFrame(lam, env, vs)]);
        Eval(lam.body, |s.frames|, s1, fuel - 1)
    case _ => Error
  }
}
