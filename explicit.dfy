/** The `explicit!` declaration rewriter: the pattern rewriter, the
    expression rewriter, the name-matching helpers and the tree walker
    that drives them over a block of statements. */
module Explicit {
  import opened Syntax

  // ---------------------------------------------------------------------
  // Name matching
  // ---------------------------------------------------------------------

  /** The identifier a path consists of, when it is one bare identifier:
      no leading `::`, exactly one segment, no generic arguments. */
  function GetIdent(p: Path): (r: Option<string>)
    ensures r.Some? ==> p == BarePath(r.value)
    ensures forall n :: p == BarePath(n) ==> r == Some(n)
  {
    if !p.leadingColon && |p.segments| == 1 && !p.segments[0].hasGenericArgs
    then Some(p.segments[0].ident)
    else None
  }

  /** Whether `path` is exactly the bare identifier `name`. */
  predicate IsPathIdent(path: Path, name: string)
    ensures IsPathIdent(path, name) <==> path == BarePath(name)
  {
    GetIdent(path) == Some(name)
  }

  /** The name of a callee, when the callee is a path of one bare identifier. */
  function GetIdentName(e: Expr): (r: Option<string>)
    ensures r.Some? ==> e == PathExpr(BarePath(r.value))
    ensures forall n :: e == PathExpr(BarePath(n)) ==> r == Some(n)
  {
    if e.PathExpr? then GetIdent(e.path) else None
  }

  // ---------------------------------------------------------------------
  // The rule table
  // ---------------------------------------------------------------------

  datatype PseudoOp =
    | CoordShared | CoordExclusive | CoordHeap
    | MemCopy | Take | TakeOrMemCopy
    | CloneCopy | At

  /** The spelling of each pseudo-operation in the explicit syntax. */
  function OpName(op: PseudoOp): string {
    match op
    case CoordShared => "coord_shared"
    case CoordExclusive => "coord_exclusive"
    case CoordHeap => "coord_heap"
    case MemCopy => "mem_copy"
    case Take => "take"
    case TakeOrMemCopy => "take_or_mem_copy"
    case CloneCopy => "clone_copy"
    case At => "at"
  }

  /** The rule table: the pseudo-operation a callee name denotes, if any.
      It is the inverse of `OpName`. */
  function PseudoOpNamed(name: string): (r: Option<PseudoOp>)
    ensures r.Some? ==> OpName(r.value) == name
    ensures forall op :: OpName(op) == name ==> r == Some(op)
  {
    if name == "coord_shared" then Some(CoordShared)
    else if name == "coord_exclusive" then Some(CoordExclusive)
    else if name == "coord_heap" then Some(CoordHeap)
    else if name == "mem_copy" then Some(MemCopy)
    else if name == "take" then Some(Take)
    else if name == "take_or_mem_copy" then Some(TakeOrMemCopy)
    else if name == "clone_copy" then Some(CloneCopy)
    else if name == "at" then Some(At)
    else None
  }

  /** The pseudo-operation a callee expression denotes: exactly a bare
      identifier spelling one of the table's names denotes one. */
  function CalleeOp(callee: Expr): (r: Option<PseudoOp>)
    ensures r.Some? ==> callee == PathExpr(BarePath(OpName(r.value)))
    ensures forall op :: callee == PathExpr(BarePath(OpName(op))) ==> r == Some(op)
  {
    match GetIdentName(callee)
    case None => None
    case Some(n) => PseudoOpNamed(n)
  }

  /** The real syntax a pseudo-operation lowers to, given its (already
      rewritten) argument. The three moving and copying operations leave
      the argument itself; every other one wraps it in at most two nodes. */
  function Lower(op: PseudoOp, a: Expr): (r: Expr)
    ensures r == a <==> op == MemCopy || op == Take || op == TakeOrMemCopy
    ensures Size(r) <= Size(a) + 2
  {
    match op
    case CoordShared => Reference(false, a)
    case CoordExclusive => assert Size(Reference(true, a)) > Size(a); Reference(true, a)
    case CoordHeap =>
      assert SizeAll([a]) == Size(a) + SizeAll([]);
      Call(PathExpr(BoxNewPath()), [a])
    case MemCopy => a
    case Take => a
    case TakeOrMemCopy => a
    case CloneCopy => MethodCall(a, "clone", [])
    case At => Unary(Deref, a)
  }

  // ---------------------------------------------------------------------
  // Pattern rewriter
  // ---------------------------------------------------------------------

  /** `owner` and `name`, the two tags a declaration target may carry. */
  predicate IsBindingTag(path: Path) {
    IsPathIdent(path, "owner") || IsPathIdent(path, "name")
  }

  /** `owner(x)` and `name(x)` become the binding `x`; `owner(rebindable(x))`
      and `name(rebindable(x))` become `mut x`; tuple patterns are rewritten
      element by element and parenthesised ones inside their parentheses.
      Only the first element of a tag is looked at, and only the name of
      the identifier found there is kept. Anything else is left as it is. */
  function RewritePat(p: Pat): (r: Pat)
    ensures p.TupleStruct? ==> r == p || (r.Ident? && !r.byRef && r.subpat.None?)
    ensures p.TuplePat? ==> r.TuplePat? && |r.elems| == |p.elems|
    ensures p.ParenPat? ==> r.ParenPat?
    ensures !(p.TupleStruct? || p.TuplePat? || p.ParenPat?) ==> r == p
  {
    match p
    case TupleStruct(path, elems) =>
      if IsBindingTag(path) && elems != [] then
        match elems[0]
        case TupleStruct(inner, innerElems) =>
          if IsPathIdent(inner, "rebindable") && innerElems != [] && innerElems[0].Ident?
          then Binding(innerElems[0].name, true)
          else p
        case Ident(_, _, x, _) => Binding(x, false)
        case _ => p
      else p
    case TuplePat(elems) => TuplePat(RewritePats(elems))
    case ParenPat(inner) => ParenPat(RewritePat(inner))
    case _ => p
  }

  /** The element-wise rewrite of a tuple pattern's elements. */
  function RewritePats(ps: seq<Pat>): (r: seq<Pat>)
    ensures |r| == |ps|
    ensures forall i :: 0 <= i < |ps| ==> r[i] == RewritePat(ps[i])
  {
    if ps == [] then [] else [RewritePat(ps[0])] + RewritePats(ps[1..])
  }

  // ---------------------------------------------------------------------
  // Expression rewriter
  // ---------------------------------------------------------------------

  /** A recognised pseudo-operation called with at least one argument:
      exactly the calls the expression rewriter replaces. */
  predicate Pending(e: Expr) {
    e.Call? && e.args != [] && CalleeOp(e.callee).Some?
  }

  /** A recognised callee with an argument is replaced by its lowering of
      its first argument, rewritten first; other calls keep their callee
      and have their arguments rewritten; tuples, parentheses, unary and
      reference expressions are rewritten inside; the rest is untouched.
      The rewrite never makes the tree larger, and a call it does not lower
      stays a call on the same callee with as many arguments. */
  function RewriteExpr(e: Expr): (r: Expr)
    ensures Size(r) <= Size(e)
    ensures e.Call? && (e.args == [] || CalleeOp(e.callee).None?) ==>
              r.Call? && r.callee == e.callee && |r.args| == |e.args|
  {
    match e
    case Call(callee, args) =>
      (match CalleeOp(callee)
       case Some(op) =>
         if args == [] then e
         else Lower(op, RewriteExpr(args[0]))
       case None => Call(callee, RewriteAll(args)))
    case Tuple(es) => Tuple(RewriteAll(es))
    case Paren(x) => Paren(RewriteExpr(x))
    case Unary(op, x) => Unary(op, RewriteExpr(x))
    case Reference(m, x) => Reference(m, RewriteExpr(x))
    case _ => e
  }

  /** The element-wise rewrite of an argument or element list. */
  function RewriteAll(es: seq<Expr>): (r: seq<Expr>)
    ensures |r| == |es|
    ensures forall i :: 0 <= i < |es| ==> r[i] == RewriteExpr(es[i])
    ensures SizeAll(r) <= SizeAll(es)
  {
    if es == [] then [] else [RewriteExpr(es[0])] + RewriteAll(es[1..])
  }

  // ---------------------------------------------------------------------
  // Tree walker
  // ---------------------------------------------------------------------

  /** `r` is a node of the same kind as `e`, with the same operator, name
      or token and as many children; only its children may differ. */
  predicate SameNode(e: Expr, r: Expr) {
    match e
    case Call(_, args) => r.Call? && |r.args| == |args|
    case PathExpr(_) => r == e
    case Tuple(es) => r.Tuple? && |r.elems| == |es|
    case Paren(_) => r.Paren?
    case Unary(op, _) => r.Unary? && r.op == op
    case Reference(m, _) => r.Reference? && r.mutable == m
    case MethodCall(_, name, args) => r.MethodCall? && r.methodName == name && |r.margs| == |args|
    case Lit(_) => r == e
    case Block(ss) => r.Block? && |r.stmts| == |ss|
    case OtherExpr(k, cs) => r.OtherExpr? && r.kind == k && |r.children| == |cs|
  }

  /** Visiting an expression: rewrite the node, then visit every child of
      the result. The node the rewrite produced is final: visiting its
      children never replaces it. */
  function Visit(e: Expr): (r: Expr)
    ensures SameNode(RewriteExpr(e), r)
    decreases Size(e), 1
  {
    Descend(RewriteExpr(e))
  }

  /** The generic descent: every sub-expression, and every statement of a
      block, is visited; the node itself is kept. */
  function Descend(e: Expr): (r: Expr)
    ensures SameNode(e, r)
    decreases Size(e), 0
  {
    match e
    case Call(c, args) => Call(Visit(c), VisitAll(args))
    case PathExpr(_) => e
    case Tuple(es) => Tuple(VisitAll(es))
    case Paren(x) => Paren(Visit(x))
    case Unary(op, x) => Unary(op, Visit(x))
    case Reference(m, x) => Reference(m, Visit(x))
    case MethodCall(recv, name, args) => MethodCall(Visit(recv), name, VisitAll(args))
    case Lit(_) => e
    case Block(ss) => Block(VisitStmts(ss))
    case OtherExpr(k, cs) => OtherExpr(k, VisitAll(cs))
  }

  function VisitAll(es: seq<Expr>): (r: seq<Expr>)
    ensures |r| == |es|
    ensures forall i :: 0 <= i < |es| ==> r[i] == Visit(es[i])
    decreases SizeAll(es), 2
  {
    if es == [] then [] else [Visit(es[0])] + VisitAll(es[1..])
  }

  function VisitOpt(d: Option<Expr>): Option<Expr>
    decreases SizeOpt(d), 2
  {
    if d.Some? then Some(Visit(d.value)) else None
  }

  /** Visiting a statement. A `let` has its pattern rewritten and its
      initializer rewritten and then visited; a let-else's `else` part and
      an expression statement are visited; a nested item's body is walked;
      a macro statement is left alone. */
  function VisitStmt(s: Stmt): (r: Stmt)
    ensures s.Local? ==> r.Local? && r.pat == RewritePat(s.pat) && (r.init.Some? <==> s.init.Some?)
    ensures s.ExprStmt? ==> r.ExprStmt? && r.semi == s.semi
    ensures s.Item? ==> r.Item? && r.header == s.header && |r.body| == |s.body|
    ensures s.MacroStmt? ==> r == s
    decreases SizeStmt(s), 2
  {
    match s
    case Local(p, init) =>
      if init.Some? then
        Local(RewritePat(p), Some(LocalInit(Visit(RewriteExpr(init.value.expr)), VisitOpt(init.value.diverge))))
      else Local(RewritePat(p), None)
    case ExprStmt(e, semi) => ExprStmt(Visit(e), semi)
    case Item(h, body) => Item(h, VisitStmts(body))
    case MacroStmt(_) => s
  }

  /** Walking a statement list keeps its length and order, each statement
      being visited in its place. */
  function VisitStmts(ss: seq<Stmt>): (r: seq<Stmt>)
    ensures |r| == |ss|
    ensures forall i :: 0 <= i < |ss| ==> r[i] == VisitStmt(ss[i])
    decreases SizeStmts(ss), 3
  {
    if ss == [] then [] else [VisitStmt(ss[0])] + VisitStmts(ss[1..])
  }

  /** The macro's statement loop: every statement of the block is visited
      in place, in order. */
  method ExplicitBlock(block: array<Stmt>)
    modifies block
    ensures block[..] == VisitStmts(old(block[..]))
  {
    var i := 0;
    while i < block.Length
      invariant 0 <= i <= block.Length
      invariant forall k :: 0 <= k < i ==> block[k] == VisitStmt(old(block[k]))
      invariant forall k :: i <= k < block.Length ==> block[k] == old(block[k])
    {
      block[i] := VisitStmt(block[i]);
      i := i + 1;
    }
  }

  // ---------------------------------------------------------------------
  // The rewriters as procedures over the trees, element lists updated in
  // place, as the source does it
  // ---------------------------------------------------------------------

  method TransformPat(p: Pat) returns (q: Pat)
    ensures q == RewritePat(p)
    decreases p
  {
    match p {
      case TupleStruct(path, elems) =>
        q := p;
        if IsBindingTag(path) && elems != [] {
          match elems[0] {
            case TupleStruct(inner, innerElems) =>
              if IsPathIdent(inner, "rebindable") && innerElems != [] && innerElems[0].Ident? {
                q := Binding(innerElems[0].name, true);
              }
            case Ident(_, _, x, _) =>
              q := Binding(x, false);
            case _ =>
          }
        }
      case TuplePat(elems) =>
        var out := elems;
        var i := 0;
        while i < |out|
          invariant 0 <= i <= |out| == |elems|
          invariant forall k :: 0 <= k < i ==> out[k] == RewritePat(elems[k])
          invariant forall k :: i <= k < |out| ==> out[k] == elems[k]
        {
          var t := TransformPat(elems[i]);
          out := out[i := t];
          i := i + 1;
        }
        q := TuplePat(out);
      case ParenPat(inner) =>
        var t := TransformPat(inner);
        q := ParenPat(t);
      case _ =>
        q := p;
    }
  }

  method TransformExprs(es: seq<Expr>) returns (out: seq<Expr>)
    ensures out == RewriteAll(es)
    decreases es
  {
    out := es;
    var i := 0;
    while i < |out|
      invariant 0 <= i <= |out| == |es|
      invariant forall k :: 0 <= k < i ==> out[k] == RewriteExpr(es[k])
      invariant forall k :: i <= k < |out| ==> out[k] == es[k]
    {
      var t := TransformExpr(es[i]);
      out := out[i := t];
      i := i + 1;
    }
  }

  method TransformExpr(e: Expr) returns (q: Expr)
    ensures q == RewriteExpr(e)
    decreases e
  {
    match e {
      case Call(callee, args) =>
        var op := CalleeOp(callee);
        if op.Some? {
          q := e;
          if args != [] {
            var a := TransformExpr(args[0]);
            q := Lower(op.value, a);
          }
        } else {
          var out := TransformExprs(args);
          q := Call(callee, out);
        }
      case Tuple(es) =>
        var out := TransformExprs(es);
        q := Tuple(out);
      case Paren(x) =>
        var t := TransformExpr(x);
        q := Paren(t);
      case Unary(op, x) =>
        var t := TransformExpr(x);
        q := Unary(op, t);
      case Reference(m, x) =>
        var t := TransformExpr(x);
        q := Reference(m, t);
      case _ =>
        q := e;
    }
  }
}
