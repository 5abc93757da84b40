/** The meaning of expanded core forms as they stand: every call makes a frame of its own, and a
    definition adds its variable to the frame it runs in. */
module Direct {
  import opened Util
  import opened Syntax
  import opened CoreForms
  import Builtins
  import Source

  datatype Closure = Closure(lam: Core, env: nat)
  type DVal = Value<Closure>

  /** A frame without a frame around it is the top level of a program; its variables are globals. */
  datatype Frame = Frame(vars: map<Name, DVal>, up: Option<nat>)

  const TOP_FRAME: Frame := Frame(map[], None)

  datatype Store = Store(frames: seq<Frame>, globals: map<Name, DVal>)

  /** Reading or assigning a variable that has no value is told from other errors. */
  datatype Outcome = Ok(v: DVal, s: Store) | Unbound(x: Name, write: bool) | Error | Timeout
  datatype ArgsOutcome = ArgsOk(vs: seq<DVal>, s: Store) | ArgsUnbound(x: Name, write: bool) | ArgsError | ArgsTimeout

  /** The innermost frame, from `g` outwards, that has the variable now. */
  function Find(frames: seq<Frame>, g: nat, x: Name): (r: Option<nat>)
    ensures r.Some? ==> r.value < |frames| && x in frames[r.value].vars
    decreases g
  {
    if g >= |frames| then None
    else if x in frames[g].vars then Some(g)
    else match frames[g].up
      case Some(p) => if p < g then Find(frames, p, x) else None
      case None => None
  }

  function Lookup(s: Store, env: nat, x: Name): Option<DVal> {
    match Find(s.frames, env, x)
    case Some(g) => Some(s.frames[g].vars[x])
    case None => if x in s.globals then Some(s.globals[x]) else None
  }

  function WithVar(s: Store, g: nat, x: Name, v: DVal): Store
    requires g < |s.frames|
  {
    s.(frames := s.frames[g := s.frames[g].(vars := s.frames[g].vars[x := v])])
  }

  function WithGlobal(s: Store, x: Name, v: DVal): Store {
    s.(globals := s.globals[x := v])
  }

  function Update(s: Store, env: nat, x: Name, v: DVal): Option<Store> {
    match Find(s.frames, env, x)
    case Some(g) => Some(WithVar(s, g, x, v))
    case None => if x in s.globals then Some(WithGlobal(s, x, v)) else None
  }

  /** `define` in the current frame, or at the top level. */
  function Bind(s: Store, env: nat, x: Name, v: DVal): Store {
    if env < |s.frames| && s.frames[env].up.Some? then WithVar(s, env, x, v) else WithGlobal(s, x, v)
  }

  function Params(params: seq<Name>, vs: seq<DVal>): map<Name, DVal>
    requires |params| <= |vs|
  {
    if params == [] then map[] else Params(params[1..], vs[1..])[params[0] := vs[0]]
  }

  function NewFrame(lam: Core, env: nat, vs: seq<DVal>): Frame
    requires lam.CLambda? && Source.ArityOk(|lam.params|, lam.rest.Some?, |vs|)
  {
    var vars := Params(lam.params, vs);
    Frame(if lam.rest.Some? then vars[lam.rest.value := Source.ListOf(vs[|lam.params|..])] else vars, Some(env))
  }

  function Eval(e: Core, env: nat, s: Store, fuel: nat): Outcome
    decreases fuel, 1, e, 1
  {
    match e
    case CQuote(d) => Ok(Inject(d), s)
    case CVar(x) =>
      (match Lookup(s, env, x)
       case Some(v) => Ok(v, s)
       case None => Unbound(x, false))
    case CSet(x, e1) =>
      (match Eval(e1, env, s, fuel)
       case Ok(v, s1) =>
         (match Update(s1, env, x, v)
          case Some(s2) => Ok(Undef, s2)
          case None => Unbound(x, true))
       case o => o)
    case CIf(c, t, el) =>
      (match Eval(c, env, s, fuel)
       case Ok(v, s1) => Eval(if v == Bool(false) then el else t, env, s1, fuel)
       case o => o)
    case CBegin(a, b) =>
      (match Eval(a, env, s, fuel)
       case Ok(_, s1) => Eval(b, env, s1, fuel)
       case o => o)
    case CDefine(x, e1) =>
      (match Eval(e1, env, s, fuel)
       case Ok(v, s1) => Ok(Undef, Bind(s1, env, x, v))
       case o => o)
    case CLambda(_, _, _) => Ok(Proc(Closure(e, env)), s)
    case CCall(fn, args) =>
      (match Eval(fn, env, s, fuel)
       case Ok(v, s1) =>
         (match EvalArgs(args, env, s1, fuel)
          case ArgsOk(vs, s2) => ApplyProc(v, vs, s2, fuel)
          case ArgsUnbound(x, w) => Unbound(x, w)
          case ArgsError => Error
          case ArgsTimeout => Timeout)
       case o => o)
  }

  function EvalArgs(es: seq<Core>, env: nat, s: Store, fuel: nat): (r: ArgsOutcome)
    ensures r.ArgsOk? ==> |r.vs| == |es|
    decreases fuel, 1, es, 0
  {
    if es == [] then ArgsOk([], s)
    else
      match Eval(es[0], env, s, fuel)
      case Ok(v, s1) =>
        (match EvalArgs(es[1..], env, s1, fuel)
         case ArgsOk(vs, s2) => ArgsOk([v] + vs, s2)
         case o => o)
      case Unbound(x, w) => ArgsUnbound(x, w)
      case Error => ArgsError
      case Timeout => ArgsTimeout
  }

  function ApplyProc(v: DVal, vs: seq<DVal>, s: Store, fuel: nat): Outcome
    decreases fuel, 0
  {
    match v
    case Builtin(p) =>
      (match Builtins.Apply(p, vs)
       case Some(r) => Ok(r, s)
       case None => Error)
    case Proc(Closure(lam, env)) =>
      if !lam.CLambda? || !Source.ArityOk(|lam.params|, lam.rest.Some?, |vs|) then Error
      else if fuel == 0 then Timeout
      else
        Eval(lam.body, |s.frames|, s.(frames := s.frames + [NewFrame(lam, env, vs)]), fuel - 1)
    case _ => Error
  }

  /** A program runs in a top-level frame of its own. */
  function EvalProgram(e: Core, s: Store, fuel: nat): Outcome {
    Eval(e, |s.frames|, s.(frames := s.frames + [TOP_FRAME]), fuel)
  }
}
