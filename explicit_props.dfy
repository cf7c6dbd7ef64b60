/** Properties of the `explicit!` rewriter: the binding forms the pattern
    rewriter produces, the lowering table, the fall-back rules, idempotence
    of the expression rewriter, and what one walk over a tree achieves.
    Every lemma switches automatic induction off and writes out the
    inductive steps it needs. */
module ExplicitProps {
  import opened Syntax
  import opened Explicit

  // ---------------------------------------------------------------------
  // Patterns
  // ---------------------------------------------------------------------

  /** `owner(x)` / `name(x)` give the immutable binding `x` and
      `owner(rebindable(x))` / `name(rebindable(x))` the mutable binding
      `mut x`, whatever `ref`, `mut` or `@` the inner identifier carried and
      whatever elements follow the first. */
  lemma {:induction false} BindingForms(tag: string, x: string, byRef: bool, mutable: bool, sub: Option<Pat>,
                     rest: seq<Pat>, innerRest: seq<Pat>)
    requires tag == "owner" || tag == "name"
    ensures RewritePat(TupleStruct(BarePath(tag), [Ident(byRef, mutable, x, sub)] + rest))
         == Binding(x, false)
    ensures RewritePat(TupleStruct(BarePath(tag),
              [TupleStruct(BarePath("rebindable"), [Ident(byRef, mutable, x, sub)] + innerRest)] + rest))
         == Binding(x, true)
  {
  }

  /** A tuple-struct pattern is rewritten exactly when its tag is a bare
      `owner` or `name` and its first element is an identifier or a bare
      `rebindable` whose own first element is an identifier; in every
      other case (no elements, another first element, another inner tag,
      an inner tag without identifier, any other tag) it is left as it is. */
  lemma {:induction false} TaggedPatternRewritten(path: Path, elems: seq<Pat>)
    ensures RewritePat(TupleStruct(path, elems)) != TupleStruct(path, elems)
        <==> IsBindingTag(path) && elems != [] &&
             (elems[0].Ident? ||
              (elems[0].TupleStruct? && IsPathIdent(elems[0].path, "rebindable") &&
               elems[0].elems != [] && elems[0].elems[0].Ident?))
  {
  }

  /** Tuple patterns are rewritten element by element, keeping length and
      order; parenthesised patterns keep their parentheses. */
  lemma {:induction false} TuplePatternDistributes(elems: seq<Pat>, inner: Pat)
    ensures RewritePat(TuplePat(elems)).elems == RewritePats(elems)
    ensures |RewritePats(elems)| == |elems|
    ensures forall i :: 0 <= i < |elems| ==> RewritePats(elems)[i] == RewritePat(elems[i])
    ensures RewritePat(ParenPat(inner)) == ParenPat(RewritePat(inner))
  {
  }

  /** Rewriting a pattern twice is rewriting it once. */
  lemma {:induction false} RewritePatIdempotent(p: Pat)
    ensures RewritePat(RewritePat(p)) == RewritePat(p)
  {
    match p
    case TuplePat(elems) =>
      forall i | 0 <= i < |elems|
        ensures RewritePat(RewritePats(elems)[i]) == RewritePats(elems)[i]
      {
        RewritePatIdempotent(elems[i]);
      }
      assert RewritePats(RewritePats(elems)) == RewritePats(elems);
    case ParenPat(inner) =>
      RewritePatIdempotent(inner);
    case _ =>
  }

  /** No `owner` or `name` tag anywhere in the pattern. */
  predicate PlainPat(p: Pat) {
    match p
    case TupleStruct(path, elems) =>
      !IsBindingTag(path) && forall i :: 0 <= i < |elems| ==> PlainPat(elems[i])
    case Ident(_, _, _, sub) => sub.Some? ==> PlainPat(sub.value)
    case TuplePat(elems) => forall i :: 0 <= i < |elems| ==> PlainPat(elems[i])
    case ParenPat(inner) => PlainPat(inner)
    case Typed(q, _) => PlainPat(q)
    case Wild => true
    case OtherPat(_) => true
  }

  /** A pattern without tags is returned unchanged. */
  lemma {:induction false} PlainPatFixed(p: Pat)
    requires PlainPat(p)
    ensures RewritePat(p) == p
  {
    match p
    case TuplePat(elems) =>
      forall i | 0 <= i < |elems| ensures RewritePats(elems)[i] == elems[i] {
        PlainPatFixed(elems[i]);
      }
      assert RewritePats(elems) == elems;
    case ParenPat(inner) =>
      PlainPatFixed(inner);
    case _ =>
  }

  /** A type ascription hides the tag: `let owner(x): T = e` keeps its
      pattern as written. */
  lemma {:induction false} TypedPatternKept(x: string, ty: string)
    ensures var p := Typed(TupleStruct(BarePath("owner"), [Binding(x, false)]), ty);
            RewritePat(p) == p
  {
  }

  // ---------------------------------------------------------------------
  // Name matching and the lowering table
  // ---------------------------------------------------------------------

  /** Each table entry is recognised when written as a bare identifier. */
  lemma {:induction false} BareNameRecognised(op: PseudoOp)
    ensures CalleeOp(PathExpr(BarePath(OpName(op)))) == Some(op)
  {
  }

  /** A callee written as a qualified or prefixed path (`m::take`,
      `::take`) or with generic arguments (`take::<T>`) is an ordinary
      call: its callee is kept and only its arguments are rewritten. */
  lemma {:induction false} QualifiedCalleeIsOrdinary(path: Path, args: seq<Expr>)
    requires path.leadingColon || |path.segments| != 1 || path.segments[0].hasGenericArgs
    ensures RewriteExpr(Call(PathExpr(path), args)) == Call(PathExpr(path), RewriteAll(args))
  {
  }

  /** Any call whose callee is not recognised (an unknown bare name, a
      qualified path, a closure or call expression, ...) is an ordinary
      call: its callee is kept as written and its arguments rewritten. */
  lemma {:induction false} OrdinaryCallRewritesArguments(c: Expr, args: seq<Expr>)
    requires CalleeOp(c).None?
    ensures RewriteExpr(Call(c, args)) == Call(c, RewriteAll(args))
  {
  }

  /** A recognised callee with at least one argument is replaced by the
      lowering of its first argument, rewritten first; further arguments
      are dropped. */
  lemma {:induction false} LowersFirstArgument(op: PseudoOp, a: Expr, rest: seq<Expr>)
    ensures RewriteExpr(Call(PathExpr(BarePath(OpName(op))), [a] + rest)) == Lower(op, RewriteExpr(a))
  {
    BareNameRecognised(op);
    assert ([a] + rest)[0] == a;
  }

  // The lowering table; `a'` is the rewritten first argument, and any
  // further arguments are dropped.

  /** `coord_shared(a, ..)` becomes `&a'`. */
  lemma {:induction false} SharedReferenceLowering(a: Expr, rest: seq<Expr>)
    ensures RewriteExpr(Call(PathExpr(BarePath("coord_shared")), [a] + rest)) == Reference(false, RewriteExpr(a))
  {
    assert OpName(CoordShared) == "coord_shared";
    LowersFirstArgument(CoordShared, a, rest);
  }

  /** `coord_exclusive(a, ..)` becomes `&mut a'`. */
  lemma {:induction false} ExclusiveReferenceLowering(a: Expr, rest: seq<Expr>)
    ensures RewriteExpr(Call(PathExpr(BarePath("coord_exclusive")), [a] + rest)) == Reference(true, RewriteExpr(a))
  {
    assert OpName(CoordExclusive) == "coord_exclusive";
    LowersFirstArgument(CoordExclusive, a, rest);
  }

  /** `coord_heap(a, ..)` becomes `Box::new(a')`. */
  lemma {:induction false} HeapLowering(a: Expr, rest: seq<Expr>)
    ensures RewriteExpr(Call(PathExpr(BarePath("coord_heap")), [a] + rest)) == Call(PathExpr(BoxNewPath()), [RewriteExpr(a)])
  {
    assert OpName(CoordHeap) == "coord_heap";
    LowersFirstArgument(CoordHeap, a, rest);
  }

  /** `clone_copy(a, ..)` becomes `a'.clone()`. */
  lemma {:induction false} CloneLowering(a: Expr, rest: seq<Expr>)
    ensures RewriteExpr(Call(PathExpr(BarePath("clone_copy")), [a] + rest)) == MethodCall(RewriteExpr(a), "clone", [])
  {
    assert OpName(CloneCopy) == "clone_copy";
    LowersFirstArgument(CloneCopy, a, rest);
  }

  /** `at(a, ..)` becomes `*a'`. */
  lemma {:induction false} DerefLowering(a: Expr, rest: seq<Expr>)
    ensures RewriteExpr(Call(PathExpr(BarePath("at")), [a] + rest)) == Unary(Deref, RewriteExpr(a))
  {
    assert OpName(At) == "at";
    LowersFirstArgument(At, a, rest);
  }

  /** `mem_copy`, `take` and `take_or_mem_copy` are indistinguishable after
      the rewrite: each leaves just its rewritten argument. */
  lemma {:induction false} CollapsingEquivalence(a: Expr, rest: seq<Expr>)
    ensures RewriteExpr(Call(PathExpr(BarePath("mem_copy")), [a] + rest)) == RewriteExpr(a)
    ensures RewriteExpr(Call(PathExpr(BarePath("take")), [a] + rest)) == RewriteExpr(a)
    ensures RewriteExpr(Call(PathExpr(BarePath("take_or_mem_copy")), [a] + rest)) == RewriteExpr(a)
  {
    assert OpName(MemCopy) == "mem_copy";
    assert OpName(Take) == "take";
    assert OpName(TakeOrMemCopy) == "take_or_mem_copy";
    LowersFirstArgument(MemCopy, a, rest);
    LowersFirstArgument(Take, a, rest);
    LowersFirstArgument(TakeOrMemCopy, a, rest);
  }

  /** A recognised callee applied to no argument is left as it is. */
  lemma {:induction false} ZeroArgumentCallKept(op: PseudoOp)
    ensures RewriteExpr(Call(PathExpr(BarePath(OpName(op))), [])) == Call(PathExpr(BarePath(OpName(op))), [])
  {
  }

  /** Tuples, parentheses, unary and reference expressions keep their
      shape, with their children rewritten; shapes the rewriter does not
      know are left untouched. */
  lemma {:induction false} WrappersKeepShape(e: Expr)
    ensures e.Tuple? ==> RewriteExpr(e) == Tuple(RewriteAll(e.elems))
    ensures e.Paren? ==> RewriteExpr(e) == Paren(RewriteExpr(e.inner))
    ensures e.Unary? ==> RewriteExpr(e) == Unary(e.op, RewriteExpr(e.operand))
    ensures e.Reference? ==> RewriteExpr(e) == Reference(e.mutable, RewriteExpr(e.referent))
    ensures e.PathExpr? || e.MethodCall? || e.Lit? || e.Block? || e.OtherExpr? ==> RewriteExpr(e) == e
  {
  }

  // ---------------------------------------------------------------------
  // Idempotence of the expression rewriter
  // ---------------------------------------------------------------------

  /** No pending pseudo-operation call in any position the expression
      rewriter inspects. */
  predicate Settled(e: Expr) {
    match e
    case Call(c, args) =>
      if CalleeOp(c).Some? then args == []
      else forall i :: 0 <= i < |args| ==> Settled(args[i])
    case Tuple(es) => forall i :: 0 <= i < |es| ==> Settled(es[i])
    case Paren(x) => Settled(x)
    case Unary(_, x) => Settled(x)
    case Reference(_, x) => Settled(x)
    case _ => true
  }

  /** The lowerings introduce no recognised callee: `Box::new` is a
      qualified path and `.clone()` a method call. */
  lemma {:induction false} LowerSettled(op: PseudoOp, a: Expr)
    requires Settled(a)
    ensures Settled(Lower(op, a))
  {
    if op == CoordHeap {
      assert GetIdentName(PathExpr(BoxNewPath())) == None;
    }
  }

  /** Whatever the input, the rewriter leaves nothing for itself to do. */
  lemma {:induction false} RewriteSettles(e: Expr)
    ensures Settled(RewriteExpr(e))
  {
    match e
    case Call(c, args) =>
      if CalleeOp(c).Some? {
        if args != [] {
          RewriteSettles(args[0]);
          LowerSettled(CalleeOp(c).value, RewriteExpr(args[0]));
        }
      } else {
        forall i | 0 <= i < |args| ensures Settled(RewriteAll(args)[i]) {
          RewriteSettles(args[i]);
        }
      }
    case Tuple(es) =>
      forall i | 0 <= i < |es| ensures Settled(RewriteAll(es)[i]) {
        RewriteSettles(es[i]);
      }
    case Paren(x) => RewriteSettles(x);
    case Unary(_, x) => RewriteSettles(x);
    case Reference(_, x) => RewriteSettles(x);
    case _ =>
  }

  /** A settled expression is returned unchanged. */
  lemma {:induction false} SettledFixed(e: Expr)
    requires Settled(e)
    ensures RewriteExpr(e) == e
  {
    match e
    case Call(c, args) =>
      if CalleeOp(c).None? {
        forall i | 0 <= i < |args| ensures RewriteAll(args)[i] == args[i] {
          SettledFixed(args[i]);
        }
        assert RewriteAll(args) == args;
      }
    case Tuple(es) =>
      forall i | 0 <= i < |es| ensures RewriteAll(es)[i] == es[i] {
        SettledFixed(es[i]);
      }
      assert RewriteAll(es) == es;
    case Paren(x) => SettledFixed(x);
    case Unary(_, x) => SettledFixed(x);
    case Reference(_, x) => SettledFixed(x);
    case _ =>
  }

  /** The expression rewriter is idempotent. */
  lemma {:induction false} RewriteIdempotent(e: Expr)
    ensures RewriteExpr(RewriteExpr(e)) == RewriteExpr(e)
  {
    RewriteSettles(e);
    SettledFixed(RewriteExpr(e));
  }

  // ---------------------------------------------------------------------
  // The walker
  // ---------------------------------------------------------------------

  /** The initializer of a `let` is rewritten and then visited; since the
      visit starts by rewriting again, and the rewrite is idempotent, the
      result is one plain visit of the initializer. */
  lemma {:induction false} LetInitializerVisitedOnce(p: Pat, e: Expr, d: Option<Expr>)
    ensures VisitStmt(Local(p, Some(LocalInit(e, d))))
         == Local(RewritePat(p), Some(LocalInit(Visit(e), VisitOpt(d))))
  {
    RewriteIdempotent(e);
  }

  /** `P` holds of every expression and `Q` of every statement in a tree. */
  predicate Everywhere(e: Expr, P: Expr -> bool, Q: Stmt -> bool)
    decreases Size(e)
  {
    P(e) &&
    match e
    case Call(c, args) =>
      Everywhere(c, P, Q) && forall i :: 0 <= i < |args| ==> Everywhere(args[i], P, Q)
    case PathExpr(_) => true
    case Tuple(es) => forall i :: 0 <= i < |es| ==> Everywhere(es[i], P, Q)
    case Paren(x) => Everywhere(x, P, Q)
    case Unary(_, x) => Everywhere(x, P, Q)
    case Reference(_, x) => Everywhere(x, P, Q)
    case MethodCall(recv, _, args) =>
      Everywhere(recv, P, Q) && forall i :: 0 <= i < |args| ==> Everywhere(args[i], P, Q)
    case Lit(_) => true
    case Block(ss) => forall i :: 0 <= i < |ss| ==> EverywhereStmt(ss[i], P, Q)
    case OtherExpr(_, cs) => forall i :: 0 <= i < |cs| ==> Everywhere(cs[i], P, Q)
  }

  predicate EverywhereStmt(s: Stmt, P: Expr -> bool, Q: Stmt -> bool)
    decreases SizeStmt(s)
  {
    Q(s) &&
    match s
    case Local(_, init) =>
      init.Some? ==>
        Everywhere(init.value.expr, P, Q) &&
        (init.value.diverge.Some? ==> Everywhere(init.value.diverge.value, P, Q))
    case ExprStmt(e, _) => Everywhere(e, P, Q)
    case Item(_, body) => forall i :: 0 <= i < |body| ==> EverywhereStmt(body[i], P, Q)
    case MacroStmt(_) => true
  }

  predicate NotPending(e: Expr) { !Pending(e) }

  /** A call with arguments whose callee is not recognised as written is
      not recognised once that callee has been rewritten either. The walker
      classifies a call before it rewrites the callee, so this is what one
      walk needs of every call (`CalleeRewrittenTooLate` shows the failure). */
  predicate CalleeStaysPlain(e: Expr) {
    e.Call? && e.args != [] && CalleeOp(e.callee).None? ==> CalleeOp(RewriteExpr(e.callee)).None?
  }

  predicate CallsPseudoOp(e: Expr) { e.Call? && CalleeOp(e.callee).Some? }

  predicate NoPseudoCall(e: Expr) { !CallsPseudoOp(e) }

  predicate AnyStmt(s: Stmt) { true }

  predicate LetPatPlain(s: Stmt) { s.Local? ==> PlainPat(s.pat) }

  predicate LetPatSettled(s: Stmt) { s.Local? ==> RewritePat(s.pat) == s.pat }

  /** The tree holds no pending pseudo-operation call and no `let` whose
      pattern the pattern rewriter would still change. */
  predicate Lowered(e: Expr) { Everywhere(e, NotPending, LetPatSettled) }

  /** No call anywhere has a callee that only its rewrite turns into a
      recognised name. */
  predicate SafeCallees(e: Expr) { Everywhere(e, CalleeStaysPlain, AnyStmt) }

  /** The tree mentions no recognised callee and no `owner`/`name` tag. */
  predicate Plain(e: Expr) { Everywhere(e, NoPseudoCall, LetPatPlain) }

  /** No lowering puts a pending call in callee position. */
  lemma {:induction false} LowerKeepsSafeCallees(op: PseudoOp, a: Expr)
    requires SafeCallees(a)
    ensures SafeCallees(Lower(op, a))
  {
    if op == CoordHeap {
      assert Everywhere(Call(PathExpr(BoxNewPath()), [a]), CalleeStaysPlain, AnyStmt);
    }
  }

  /** The expression rewriter keeps callees free of pending calls. */
  lemma {:induction false} RewriteKeepsSafeCallees(e: Expr)
    requires SafeCallees(e)
    ensures SafeCallees(RewriteExpr(e))
    decreases Size(e)
  {
    match e
    case Call(c, args) =>
      if CalleeOp(c).Some? {
        if args != [] {
          RewriteKeepsSafeCallees(args[0]);
          LowerKeepsSafeCallees(CalleeOp(c).value, RewriteExpr(args[0]));
        }
      } else {
        var r := RewriteAll(args);
        forall i | 0 <= i < |r| ensures Everywhere(r[i], CalleeStaysPlain, AnyStmt) {
          RewriteKeepsSafeCallees(args[i]);
        }
      }
    case Tuple(es) =>
      var r := RewriteAll(es);
      forall i | 0 <= i < |r| ensures Everywhere(r[i], CalleeStaysPlain, AnyStmt) {
        RewriteKeepsSafeCallees(es[i]);
      }
    case Paren(x) => RewriteKeepsSafeCallees(x);
    case Unary(_, x) => RewriteKeepsSafeCallees(x);
    case Reference(_, x) => RewriteKeepsSafeCallees(x);
    case _ =>
  }

  /** A callee whose rewrite is not recognised is not recognised after
      it has been visited either: the descent keeps the rewritten node. */
  lemma {:induction false} CalleeStaysOrdinary(c: Expr)
    requires CalleeOp(RewriteExpr(c)).None?
    ensures CalleeOp(Visit(c)).None?
  {
  }

  /** One walk rewrites every pseudo-operation call, however deep, and
      every `let` pattern in the tree, provided no callee turns into a
      recognised name only when it is rewritten (see
      `CalleeRewrittenTooLate`). */
  lemma {:induction false} VisitLowers(e: Expr)
    requires SafeCallees(e)
    ensures Lowered(Visit(e))
    decreases Size(e), 1
  {
    RewriteSettles(e);
    RewriteKeepsSafeCallees(e);
    DescendLowers(RewriteExpr(e));
  }

  lemma {:induction false} DescendLowers(e: Expr)
    requires SafeCallees(e) && Settled(e)
    ensures Lowered(Descend(e))
    decreases Size(e), 0
  {
    match e
    case Call(c, args) =>
      VisitLowers(c);
      VisitAllLowers(args);
      if CalleeOp(c).None? && args != [] {
        CalleeStaysOrdinary(c);
      }
    case PathExpr(_) =>
    case Tuple(es) => VisitAllLowers(es);
    case Paren(x) => VisitLowers(x);
    case Unary(_, x) => VisitLowers(x);
    case Reference(_, x) => VisitLowers(x);
    case MethodCall(recv, _, args) =>
      VisitLowers(recv);
      VisitAllLowers(args);
    case Lit(_) =>
    case Block(ss) => VisitStmtsLowers(ss);
    case OtherExpr(_, cs) => VisitAllLowers(cs);
  }

  lemma {:induction false} VisitAllLowers(es: seq<Expr>)
    requires forall i :: 0 <= i < |es| ==> SafeCallees(es[i])
    ensures forall i :: 0 <= i < |es| ==> Lowered(VisitAll(es)[i])
    decreases SizeAll(es), 2
  {
    forall i | 0 <= i < |es| ensures Lowered(VisitAll(es)[i]) {
      VisitLowers(es[i]);
    }
  }

  lemma {:induction false} VisitStmtLowers(s: Stmt)
    requires EverywhereStmt(s, CalleeStaysPlain, AnyStmt)
    ensures EverywhereStmt(VisitStmt(s), NotPending, LetPatSettled)
    decreases SizeStmt(s), 2
  {
    match s
    case Local(p, init) =>
      RewritePatIdempotent(p);
      if init.Some? {
        var e := init.value.expr;
        RewriteKeepsSafeCallees(e);
        VisitLowers(RewriteExpr(e));
        if init.value.diverge.Some? {
          VisitLowers(init.value.diverge.value);
        }
      }
    case ExprStmt(e, _) => VisitLowers(e);
    case Item(_, body) => VisitStmtsLowers(body);
    case MacroStmt(_) =>
  }

  lemma {:induction false} VisitStmtsLowers(ss: seq<Stmt>)
    requires forall i :: 0 <= i < |ss| ==> EverywhereStmt(ss[i], CalleeStaysPlain, AnyStmt)
    ensures forall i :: 0 <= i < |ss| ==> EverywhereStmt(VisitStmts(ss)[i], NotPending, LetPatSettled)
    decreases SizeStmts(ss), 3
  {
    forall i | 0 <= i < |ss| ensures EverywhereStmt(VisitStmts(ss)[i], NotPending, LetPatSettled) {
      VisitStmtLowers(ss[i]);
    }
  }

  // ---------------------------------------------------------------------
  // A walked tree is left alone by a second walk
  // ---------------------------------------------------------------------

  lemma {:induction false} LoweredSettled(e: Expr)
    requires Lowered(e)
    ensures Settled(e)
    decreases Size(e)
  {
    match e
    case Call(c, args) =>
      if CalleeOp(c).None? {
        forall i | 0 <= i < |args| ensures Settled(args[i]) {
          LoweredSettled(args[i]);
        }
      }
    case Tuple(es) =>
      forall i | 0 <= i < |es| ensures Settled(es[i]) {
        LoweredSettled(es[i]);
      }
    case Paren(x) => LoweredSettled(x);
    case Unary(_, x) => LoweredSettled(x);
    case Reference(_, x) => LoweredSettled(x);
    case _ =>
  }

  /** Walking a tree that holds nothing left to rewrite changes nothing. */
  lemma {:induction false} LoweredVisitFixed(e: Expr)
    requires Lowered(e)
    ensures Visit(e) == e
    decreases Size(e), 1
  {
    LoweredSettled(e);
    SettledFixed(e);
    match e
    case Call(c, args) =>
      LoweredVisitFixed(c);
      LoweredVisitAllFixed(args);
    case PathExpr(_) =>
    case Tuple(es) => LoweredVisitAllFixed(es);
    case Paren(x) => LoweredVisitFixed(x);
    case Unary(_, x) => LoweredVisitFixed(x);
    case Reference(_, x) => LoweredVisitFixed(x);
    case MethodCall(recv, _, args) =>
      LoweredVisitFixed(recv);
      LoweredVisitAllFixed(args);
    case Lit(_) =>
    case Block(ss) => LoweredStmtsFixed(ss);
    case OtherExpr(_, cs) => LoweredVisitAllFixed(cs);
  }

  lemma {:induction false} LoweredVisitAllFixed(es: seq<Expr>)
    requires forall i :: 0 <= i < |es| ==> Lowered(es[i])
    ensures VisitAll(es) == es
    decreases SizeAll(es), 2
  {
    forall i | 0 <= i < |es| ensures VisitAll(es)[i] == es[i] {
      LoweredVisitFixed(es[i]);
    }
  }

  lemma {:induction false} LoweredStmtFixed(s: Stmt)
    requires EverywhereStmt(s, NotPending, LetPatSettled)
    ensures VisitStmt(s) == s
    decreases SizeStmt(s), 2
  {
    match s
    case Local(p, init) =>
      if init.Some? {
        var e := init.value.expr;
        LoweredSettled(e);
        SettledFixed(e);
        LoweredVisitFixed(e);
        if init.value.diverge.Some? {
          LoweredVisitFixed(init.value.diverge.value);
        }
      }
    case ExprStmt(e, _) => LoweredVisitFixed(e);
    case Item(_, body) => LoweredStmtsFixed(body);
    case MacroStmt(_) =>
  }

  lemma {:induction false} LoweredStmtsFixed(ss: seq<Stmt>)
    requires forall i :: 0 <= i < |ss| ==> EverywhereStmt(ss[i], NotPending, LetPatSettled)
    ensures VisitStmts(ss) == ss
    decreases SizeStmts(ss), 3
  {
    forall i | 0 <= i < |ss| ensures VisitStmts(ss)[i] == ss[i] {
      LoweredStmtFixed(ss[i]);
    }
  }

  /** When no callee turns into a recognised name only when it is
      rewritten, one walk is enough: walking the result again changes
      nothing. */
  lemma {:induction false} VisitIdempotent(e: Expr)
    requires SafeCallees(e)
    ensures Visit(Visit(e)) == Visit(e)
  {
    VisitLowers(e);
    LoweredVisitFixed(Visit(e));
  }

  /** The same for a whole block, as the macro walks it. */
  lemma {:induction false} BlockWalkIdempotent(ss: seq<Stmt>)
    requires forall i :: 0 <= i < |ss| ==> EverywhereStmt(ss[i], CalleeStaysPlain, AnyStmt)
    ensures VisitStmts(VisitStmts(ss)) == VisitStmts(ss)
  {
    VisitStmtsLowers(ss);
    LoweredStmtsFixed(VisitStmts(ss));
  }

  /** A callee that is itself a pseudo-operation call is rewritten only
      after its call has been classified, so `mem_copy(take)(y)` comes out
      as `take(y)`, a pseudo-operation call that one walk leaves in place. */
  lemma {:induction false} CalleeRewrittenTooLate()
    ensures var e := Call(Call(PathExpr(BarePath("mem_copy")), [PathExpr(BarePath("take"))]),
                          [PathExpr(BarePath("y"))]);
            !SafeCallees(e) &&
            Visit(e) == Call(PathExpr(BarePath("take")), [PathExpr(BarePath("y"))]) &&
            Pending(Visit(e))
  {
    var take := PathExpr(BarePath("take"));
    var y := PathExpr(BarePath("y"));
    var inner := Call(PathExpr(BarePath("mem_copy")), [take]);
    assert OpName(MemCopy) == "mem_copy";
    assert OpName(Take) == "take";
    BareNameRecognised(MemCopy);
    BareNameRecognised(Take);
    assert CalleeOp(y) == None;
    assert Pending(inner);
    assert RewriteExpr(Call(inner, [y])) == Call(inner, [y]) by {
      assert RewriteAll([y]) == [y];
    }
    assert Visit(inner) == take by {
      assert RewriteExpr(take) == take;
    }
    assert Visit(y) == y;
    assert VisitAll([y]) == [y];
  }

  /** A pending call in callee position is lowered by one walk when its
      rewrite is an ordinary name: `take(f)(x)` comes out as `f(x)`. */
  lemma {:induction false} PendingCalleeLowered(f: string, x: string)
    requires PseudoOpNamed(f).None? && PseudoOpNamed(x).None?
    ensures var e := Call(Call(PathExpr(BarePath("take")), [PathExpr(BarePath(f))]),
                          [PathExpr(BarePath(x))]);
            Pending(e.callee) && SafeCallees(e) &&
            Visit(e) == Call(PathExpr(BarePath(f)), [PathExpr(BarePath(x))]) &&
            Lowered(Visit(e))
  {
    var fe := PathExpr(BarePath(f));
    var xe := PathExpr(BarePath(x));
    var inner := Call(PathExpr(BarePath("take")), [fe]);
    var e := Call(inner, [xe]);
    assert OpName(Take) == "take";
    assert CalleeOp(fe) == None && CalleeOp(xe) == None;
    assert RewriteExpr(inner) == fe;
    assert SafeCallees(e) by {
      assert Everywhere(fe, CalleeStaysPlain, AnyStmt);
      assert Everywhere(xe, CalleeStaysPlain, AnyStmt);
      assert Everywhere(inner, CalleeStaysPlain, AnyStmt);
    }
    assert RewriteExpr(e) == e by {
      assert RewriteAll([xe]) == [xe];
    }
    assert Visit(inner) == fe by {
      assert RewriteExpr(fe) == fe;
    }
    assert Visit(xe) == xe;
    assert VisitAll([xe]) == [xe];
    VisitLowers(e);
  }

  // ---------------------------------------------------------------------
  // Input without any pseudo-syntax is returned unchanged
  // ---------------------------------------------------------------------

  /** A helper: weakening the properties asked of every node and statement
      keeps `Everywhere`. */
  lemma {:induction false} EverywhereMono(e: Expr, P1: Expr -> bool, Q1: Stmt -> bool,
                                          P2: Expr -> bool, Q2: Stmt -> bool)
    requires forall x :: P1(x) ==> P2(x)
    requires forall s :: Q1(s) ==> Q2(s)
    requires Everywhere(e, P1, Q1)
    ensures Everywhere(e, P2, Q2)
    decreases Size(e)
  {
    match e
    case Call(c, args) =>
      EverywhereMono(c, P1, Q1, P2, Q2);
      forall i | 0 <= i < |args| ensures Everywhere(args[i], P2, Q2) {
        EverywhereMono(args[i], P1, Q1, P2, Q2);
      }
    case PathExpr(_) =>
    case Tuple(es) =>
      forall i | 0 <= i < |es| ensures Everywhere(es[i], P2, Q2) {
        EverywhereMono(es[i], P1, Q1, P2, Q2);
      }
    case Paren(x) => EverywhereMono(x, P1, Q1, P2, Q2);
    case Unary(_, x) => EverywhereMono(x, P1, Q1, P2, Q2);
    case Reference(_, x) => EverywhereMono(x, P1, Q1, P2, Q2);
    case MethodCall(recv, _, args) =>
      EverywhereMono(recv, P1, Q1, P2, Q2);
      forall i | 0 <= i < |args| ensures Everywhere(args[i], P2, Q2) {
        EverywhereMono(args[i], P1, Q1, P2, Q2);
      }
    case Lit(_) =>
    case Block(ss) =>
      forall i | 0 <= i < |ss| ensures EverywhereStmt(ss[i], P2, Q2) {
        EverywhereStmtMono(ss[i], P1, Q1, P2, Q2);
      }
    case OtherExpr(_, cs) =>
      forall i | 0 <= i < |cs| ensures Everywhere(cs[i], P2, Q2) {
        EverywhereMono(cs[i], P1, Q1, P2, Q2);
      }
  }

  lemma {:induction false} EverywhereStmtMono(s: Stmt, P1: Expr -> bool, Q1: Stmt -> bool,
                                              P2: Expr -> bool, Q2: Stmt -> bool)
    requires forall x :: P1(x) ==> P2(x)
    requires forall t :: Q1(t) ==> Q2(t)
    requires EverywhereStmt(s, P1, Q1)
    ensures EverywhereStmt(s, P2, Q2)
    decreases SizeStmt(s)
  {
    match s
    case Local(_, init) =>
      if init.Some? {
        EverywhereMono(init.value.expr, P1, Q1, P2, Q2);
        if init.value.diverge.Some? {
          EverywhereMono(init.value.diverge.value, P1, Q1, P2, Q2);
        }
      }
    case ExprStmt(e, _) => EverywhereMono(e, P1, Q1, P2, Q2);
    case Item(_, body) =>
      forall i | 0 <= i < |body| ensures EverywhereStmt(body[i], P2, Q2) {
        EverywhereStmtMono(body[i], P1, Q1, P2, Q2);
      }
    case MacroStmt(_) =>
  }

  /** Plain patterns are already settled for the pattern rewriter. */
  lemma {:induction false} PlainLetsSettled()
    ensures forall s :: LetPatPlain(s) ==> LetPatSettled(s)
  {
    forall s | LetPatPlain(s) ensures LetPatSettled(s) {
      if s.Local? {
        PlainPatFixed(s.pat);
      }
    }
  }

  /** A tree that mentions no recognised callee and no tag comes out of
      both the expression rewriter and the walk exactly as it went in. */
  lemma {:induction false} PlainInputUnchanged(e: Expr)
    requires Plain(e)
    ensures RewriteExpr(e) == e
    ensures Visit(e) == e
  {
    PlainLetsSettled();
    EverywhereMono(e, NoPseudoCall, LetPatPlain, NotPending, LetPatSettled);
    LoweredSettled(e);
    SettledFixed(e);
    LoweredVisitFixed(e);
  }

  /** The same for a whole block. */
  lemma {:induction false} PlainBlockUnchanged(ss: seq<Stmt>)
    requires forall i :: 0 <= i < |ss| ==> EverywhereStmt(ss[i], NoPseudoCall, LetPatPlain)
    ensures VisitStmts(ss) == ss
  {
    PlainLetsSettled();
    forall i | 0 <= i < |ss| ensures EverywhereStmt(ss[i], NotPending, LetPatSettled) {
      EverywhereStmtMono(ss[i], NoPseudoCall, LetPatPlain, NotPending, LetPatSettled);
    }
    LoweredStmtsFixed(ss);
  }
}
