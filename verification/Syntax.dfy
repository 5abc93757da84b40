/** The languages of the compiler pipeline: core forms after normalization, analyzed forms
    with lexical addresses, and the bytecode of the virtual machine. */
module Syntax {
  import opened Util

  type Name = string

  /** The procedures that have an instruction of their own, and `EscapeWith`, which stands for
      a native procedure that comes back through an escape (so that every live context has
      been torn off). */
  datatype Prim =
    | Cons | Car | Cdr | NullP | SymbolP | PairP | Not
    | NumEq | NumLt | NumLe | NumGt | NumGe | Add | Sub | Mul
    | EscapeWith

  /** Scheme values, over the representation `C` of compiled or interpreted closures. */
  datatype Value<+C> =
    | Undef
    | Bool(b: bool)
    | Int(i: int)
    | Flo(r: real)
    | Char(c: int)
    | Nil
    | Eof
    | Sym(s: Name)
    | Pair(car: Value<C>, cdr: Value<C>)
    | Builtin(p: Prim)
    | Proc(closure: C)

  /** Quoted constants: values without procedures. */
  datatype Datum =
    | DUndef | DBool(b: bool) | DInt(i: int) | DFlo(r: real) | DChar(c: int)
    | DNil | DEof | DSym(s: Name) | DPair(car: Datum, cdr: Datum)

  function Inject<C>(d: Datum): Value<C> {
    match d
    case DUndef => Undef
    case DBool(b) => Bool(b)
    case DInt(i) => Int(i)
    case DFlo(r) => Flo(r)
    case DChar(c) => Char(c)
    case DNil => Nil
    case DEof => Eof
    case DSym(s) => Sym(s)
    case DPair(a, b) => Pair(Inject(a), Inject(b))
  }

  /** Core forms after `normalize`: every lambda lists its hoisted internal definitions. */
  datatype Expr =
    | Quote(d: Datum)
    | Var(x: Name)
    | Set(x: Name, e: Expr)
    | If(c: Expr, t: Expr, f: Expr)
    | Begin(e1: Expr, e2: Expr)
    | Lambda(params: seq<Name>, rest: Option<Name>, locals: seq<Name>, body: Expr)
    | Call(fn: Expr, args: seq<Expr>)

  /** Variable references after `analyze`. */
  datatype Ref =
    | LRef(x: Name)
    | CRef(depth: nat, x: Name)
    | GRef(x: Name)

  datatype AExpr =
    | AQuote(d: Datum)
    | AVar(ref: Ref)
    | ASet(ref: Ref, e: AExpr)
    | AIf(c: AExpr, t: AExpr, f: AExpr)
    | ABegin(e1: AExpr, e2: AExpr)
    | ALambda(params: seq<Name>, rest: Option<Name>, locals: seq<Name>, captures: seq<Name>, body: AExpr)
    | ACall(fn: AExpr, args: seq<AExpr>)

  datatype Insn =
    | PushUndef | PushNil | PushTrue | PushFalse | PushEof
    | PushInt(k: nat) | PushFloat(k: nat) | PushChar(k: nat) | PushConst(k: nat)
    | Pop
    | GRefI(k: nat) | GSetI(k: nat)
    | LRefI(n: nat) | LSetI(n: nat)
    | CRefI(depth: nat, i: nat) | CSetI(depth: nat, i: nat)
    | Jmp(off: int) | JmpIf(off: int)
    | CallI(n: nat) | TailCallI(n: nat) | RetI
    | LambdaI(k: nat)
    | PrimI(p: Prim)
    | Stop

  datatype Irep = Irep(
    argc: nat, localc: nat, capturec: nat, varg: bool,
    code: seq<Insn>, ireps: seq<Irep>, ints: seq<int>, nums: seq<real>, pool: seq<Datum>)

  /** One lexical scope of the compiler, linked to the scope around it. */
  datatype Scope = Scope(
    params: seq<Name>, rest: Option<Name>, locals: seq<Name>, captures: seq<Name>, up: Option<Scope>)

  /** Frame slots in the order of the activation record: parameters, rest list, locals. */
  function FrameNames(params: seq<Name>, rest: Option<Name>, locals: seq<Name>): seq<Name> {
    params + (if rest.Some? then [rest.value] else []) + locals
  }

  function Names(s: Scope): seq<Name> {
    FrameNames(s.params, s.rest, s.locals)
  }
}
