/** Abstract syntax of the host language, cut down to the node kinds the
    `explicit!` rewriter inspects, rebuilds or walks through. Everything
    else is kept as an opaque node that still lists its sub-expressions,
    so that the tree walker can descend into it. */
module Syntax {

  datatype Option<T> = None | Some(value: T)

  /** One path segment: an identifier, possibly followed by generic
      arguments (as in `Vec::<u8>`). */
  datatype Segment = Segment(ident: string, hasGenericArgs: bool)

  /** A path such as `take`, `m::take` or `::take`. */
  datatype Path = Path(leadingColon: bool, segments: seq<Segment>)

  /** The path made of one bare identifier, the only shape a tag or a
      pseudo-operation is recognised in. */
  function BarePath(name: string): Path {
    Path(false, [Segment(name, false)])
  }

  /** The path `Box::new`, the callee the heap pseudo-operation lowers to. */
  function BoxNewPath(): Path {
    Path(false, [Segment("Box", false), Segment("new", false)])
  }

  /** Binding patterns (the left-hand side of a `let`). */
  datatype Pat =
    | TupleStruct(path: Path, elems: seq<Pat>)                          // `owner(x)`, `Some(y, z)`
    | Ident(byRef: bool, mutable: bool, name: string, subpat: Option<Pat>) // `ref mut x @ p`
    | TuplePat(elems: seq<Pat>)                                       // `(p, q)`
    | ParenPat(inner: Pat)                                            // `(p)`
    | Typed(pat: Pat, ty: string)                                     // `p: T`
    | Wild                                                            // `_`
    | OtherPat(text: string)                                          // literals, ranges, slices, ...

  /** A plain binding of `name`: no `ref`, no `@` sub-pattern. */
  function Binding(name: string, mutable: bool): Pat {
    Ident(false, mutable, name, None)
  }

  datatype UnOp = Deref | Not | Neg

  /** Expressions. `OtherExpr` stands for every other node kind (binary
      operators, assignments, field accesses, closures, `if`, ...) with the
      sub-expressions a visitor reaches; a macro invocation is an
      `OtherExpr` without children, since its tokens are never visited. */
  datatype Expr =
    | Call(callee: Expr, args: seq<Expr>)                      // `f(a, b)`
    | PathExpr(path: Path)                                     // `x`, `m::f`
    | Tuple(elems: seq<Expr>)                                  // `(a, b)`
    | Paren(inner: Expr)                                       // `(a)`
    | Unary(op: UnOp, operand: Expr)                           // `*a`, `!a`, `-a`
    | Reference(mutable: bool, referent: Expr)                 // `&a`, `&mut a`
    | MethodCall(receiver: Expr, methodName: string, margs: seq<Expr>) // `a.m(b)`
    | Lit(token: string)                                       // `5`, `"hi"`
    | Block(stmts: seq<Stmt>)                                  // `{ ... }`
    | OtherExpr(kind: string, children: seq<Expr>)

  /** The initializer of a `let`: `= expr`, and `else { ... }` for let-else. */
  datatype LocalInit = LocalInit(expr: Expr, diverge: Option<Expr>)

  datatype Stmt =
    | Local(pat: Pat, init: Option<LocalInit>)   // `let pat = init;`
    | ExprStmt(expr: Expr, semi: bool)           // `e;` or a trailing `e`
    | Item(header: string, body: seq<Stmt>)      // a nested item, with the statements of its body
    | MacroStmt(text: string)                    // `println!(...);`, never entered

  /** Node counts, the measure under which the tree walker terminates. */
  function Size(e: Expr): nat {
    match e
    case Call(c, args) => 1 + Size(c) + SizeAll(args)
    case PathExpr(_) => 1
    case Tuple(es) => 1 + SizeAll(es)
    case Paren(x) => 1 + Size(x)
    case Unary(_, x) => 1 + Size(x)
    case Reference(_, x) => 1 + Size(x)
    case MethodCall(recv, _, args) => 1 + Size(recv) + SizeAll(args)
    case Lit(_) => 1
    case Block(ss) => 1 + SizeStmts(ss)
    case OtherExpr(_, cs) => 1 + SizeAll(cs)
  }

  /** The size of a list bounds the size of each of its elements. */
  function SizeAll(es: seq<Expr>): (n: nat)
    ensures forall i :: 0 <= i < |es| ==> Size(es[i]) <= n
  {
    if es == [] then 0 else Size(es[0]) + SizeAll(es[1..])
  }

  function SizeOpt(d: Option<Expr>): nat {
    if d.Some? then Size(d.value) else 0
  }

  function SizeStmt(s: Stmt): nat {
    match s
    case Local(_, init) =>
      1 + (if init.Some? then
             Size(init.value.expr) + (if init.value.diverge.Some? then Size(init.value.diverge.value) else 0)
           else 0)
    case ExprStmt(e, _) => 1 + Size(e)
    case Item(_, body) => 1 + SizeStmts(body)
    case MacroStmt(_) => 1
  }

  function SizeStmts(ss: seq<Stmt>): (n: nat)
    ensures forall i :: 0 <= i < |ss| ==> SizeStmt(ss[i]) <= n
  {
    if ss == [] then 0 else SizeStmt(ss[0]) + SizeStmts(ss[1..])
  }
}
