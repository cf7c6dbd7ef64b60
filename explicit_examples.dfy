/** The exercises' explicit declarations next to the plain declarations
    their exercise asks for, and the walk that turns one into the other.
    Automatic induction is switched off: each example is a direct
    computation. */
module ExplicitExamples {
  import opened Syntax
  import opened Explicit
  import ExplicitProps

  /** A variable or other bare name used as an expression. */
  function Var(name: string): Expr {
    PathExpr(BarePath(name))
  }

  /** A call of a bare name. */
  function CallOf(name: string, args: seq<Expr>): Expr {
    Call(Var(name), args)
  }

  /** A tag applied to one pattern, as in `owner(x)`. */
  function Tag(name: string, p: Pat): Pat {
    TupleStruct(BarePath(name), [p])
  }

  /** The assignment `lhs = rhs`. */
  function Assign(lhs: Expr, rhs: Expr): Expr {
    OtherExpr("=", [lhs, rhs])
  }

  /** A name is left as it is by the walk. */
  lemma {:induction false} VisitName(n: string)
    ensures Visit(Var(n)) == Var(n)
  {
  }

  /** Walking a one-argument pseudo-operation call: the argument is
      rewritten, lowered, and the lowering is then descended into. */
  lemma {:induction false} VisitPseudoCall(op: PseudoOp, a: Expr)
    ensures Visit(CallOf(OpName(op), [a])) == Descend(Lower(op, RewriteExpr(a)))
  {
    assert [a] + [] == [a];
    ExplicitProps.LowersFirstArgument(op, a, []);
  }

  /** `*x`, `&x` and `&mut x` are walked inside. */
  lemma {:induction false} VisitWrapped(op: UnOp, m: bool, x: Expr)
    ensures Visit(Unary(op, x)) == Unary(op, Visit(RewriteExpr(x)))
    ensures Visit(Reference(m, x)) == Reference(m, Visit(RewriteExpr(x)))
  {
  }

  /** A field access `x.0` is walked inside. */
  lemma {:induction false} VisitField(k: string, x: Expr)
    ensures Visit(OtherExpr(k, [x])) == OtherExpr(k, [Visit(x)])
  {
    assert VisitAll([x]) == [Visit(x)];
  }

  /** `lhs = rhs` is walked on both sides. */
  lemma {:induction false} VisitAssign(lhs: Expr, rhs: Expr)
    ensures Visit(Assign(lhs, rhs)) == Assign(Visit(lhs), Visit(rhs))
  {
    assert VisitAll([lhs, rhs]) == [Visit(lhs), Visit(rhs)];
  }

  /** A pseudo-operation applied to an argument the walk leaves alone is
      walked to its lowering. */
  lemma {:induction false} VisitLoweredPlain(op: PseudoOp, a: Expr)
    requires RewriteExpr(a) == a && Visit(a) == a
    ensures Visit(CallOf(OpName(op), [a])) == Lower(op, a)
  {
    VisitPseudoCall(op, a);
    assert Descend(a) == a;
    if op == CoordHeap {
      assert VisitAll([a]) == [a];
    }
  }

  /** `at(n)` is walked to `*n`. */
  lemma {:induction false} VisitAtName(n: string)
    ensures Visit(CallOf("at", [Var(n)])) == Unary(Deref, Var(n))
  {
    VisitName(n);
    VisitLoweredPlain(At, Var(n));
  }

  /** `coord_shared(n)` and `coord_exclusive(n)` are walked to `&n` and `&mut n`. */
  lemma {:induction false} VisitCoordName(n: string)
    ensures Visit(CallOf("coord_shared", [Var(n)])) == Reference(false, Var(n))
    ensures Visit(CallOf("coord_exclusive", [Var(n)])) == Reference(true, Var(n))
  {
    VisitName(n);
    VisitLoweredPlain(CoordShared, Var(n));
    VisitLoweredPlain(CoordExclusive, Var(n));
  }

  /** A two-element list is rewritten, and walked, element by element. */
  lemma {:induction false} RewritePair(x: Expr, y: Expr)
    ensures RewriteAll([x, y]) == [RewriteExpr(x), RewriteExpr(y)]
    ensures VisitAll([x, y]) == [Visit(x), Visit(y)]
  {
    assert RewriteAll([x, y])[1] == RewriteExpr(y);
    assert VisitAll([x, y])[1] == Visit(y);
  }

  /** `owner(x)` / `name(x)` and their `rebindable` forms, as the exercises
      write them. */
  lemma {:induction false} TagForms(tag: string, x: string)
    requires tag == "owner" || tag == "name"
    ensures RewritePat(Tag(tag, Binding(x, false))) == Binding(x, false)
    ensures RewritePat(Tag(tag, Tag("rebindable", Binding(x, false)))) == Binding(x, true)
  {
    assert [Binding(x, false)] + [] == [Binding(x, false)];
    assert [Tag("rebindable", Binding(x, false))] + [] == [Tag("rebindable", Binding(x, false))];
    ExplicitProps.BindingForms(tag, x, false, false, None, [], []);
  }

  /** A `let` without `else` has its pattern rewritten and its initializer
      rewritten and walked. */
  lemma {:induction false} WalkLet(p: Pat, e: Expr)
    ensures VisitStmt(Local(p, Some(LocalInit(e, None))))
         == Local(RewritePat(p), Some(LocalInit(Visit(RewriteExpr(e)), None)))
  {
  }

  /** An assignment statement is walked on both sides. */
  lemma {:induction false} WalkAssign(lhs: Expr, rhs: Expr)
    ensures VisitStmt(ExprStmt(Assign(lhs, rhs), true)) == ExprStmt(Assign(Visit(lhs), Visit(rhs)), true)
  {
    VisitAssign(lhs, rhs);
  }

  /** `let owner(x) = take(at(b));` becomes `let x = *b;` */
  lemma {:induction false} TakeAtExample(x: string, b: string)
    ensures VisitStmts([Local(Tag("owner", Binding(x, false)),
                              Some(LocalInit(CallOf("take", [CallOf("at", [Var(b)])]), None)))])
         == [Local(Binding(x, false), Some(LocalInit(Unary(Deref, Var(b)), None)))]
  {
    var atB := CallOf("at", [Var(b)]);
    assert [atB] + [] == [atB];
    assert [Var(b)] + [] == [Var(b)];
    ExplicitProps.CollapsingEquivalence(atB, []);
    ExplicitProps.DerefLowering(Var(b), []);
    VisitWrapped(Deref, false, Var(b));
    VisitName(b);
    TagForms("owner", x);
    WalkLet(Tag("owner", Binding(x, false)), CallOf("take", [atB]));
  }

  /** A block of statements is walked statement by statement. */
  lemma {:induction false} WalkPair(s1: Stmt, s2: Stmt)
    ensures VisitStmts([s1, s2]) == [VisitStmt(s1), VisitStmt(s2)]
  {
    assert VisitStmts([s1, s2])[1] == VisitStmt(s2);
  }

  lemma {:induction false} WalkTriple(s1: Stmt, s2: Stmt, s3: Stmt)
    ensures VisitStmts([s1, s2, s3]) == [VisitStmt(s1), VisitStmt(s2), VisitStmt(s3)]
  {
    assert VisitStmts([s1, s2, s3])[1] == VisitStmt(s2);
    assert VisitStmts([s1, s2, s3])[2] == VisitStmt(s3);
  }

  lemma {:induction false} WalkQuadruple(s1: Stmt, s2: Stmt, s3: Stmt, s4: Stmt)
    ensures VisitStmts([s1, s2, s3, s4]) == [VisitStmt(s1), VisitStmt(s2), VisitStmt(s3), VisitStmt(s4)]
  {
    assert VisitStmts([s1, s2, s3, s4])[1] == VisitStmt(s2);
    assert VisitStmts([s1, s2, s3, s4])[2] == VisitStmt(s3);
    assert VisitStmts([s1, s2, s3, s4])[3] == VisitStmt(s4);
  }

  /** `let owner(rebindable(x)) = mem_copy(at(r));` becomes `let mut x = *r;` */
  lemma {:induction false} LitmusLet(x: string, r: string)
    ensures VisitStmt(Local(Tag("owner", Tag("rebindable", Binding(x, false))),
                            Some(LocalInit(CallOf("mem_copy", [CallOf("at", [Var(r)])]), None))))
         == Local(Binding(x, true), Some(LocalInit(Unary(Deref, Var(r)), None)))
  {
    var atR := CallOf("at", [Var(r)]);
    assert [atR] + [] == [atR];
    assert [Var(r)] + [] == [Var(r)];
    ExplicitProps.CollapsingEquivalence(atR, []);
    ExplicitProps.DerefLowering(Var(r), []);
    VisitWrapped(Deref, false, Var(r));
    VisitName(r);
    TagForms("owner", x);
    WalkLet(Tag("owner", Tag("rebindable", Binding(x, false))), CallOf("mem_copy", [atR]));
  }

  /** `take_or_mem_copy(v)` is walked to `v`. */
  lemma {:induction false} VisitCopyLiteral(v: string)
    ensures Visit(CallOf("take_or_mem_copy", [Lit(v)])) == Lit(v)
  {
    VisitLoweredPlain(TakeOrMemCopy, Lit(v));
  }

  /** `x = take_or_mem_copy(v);` becomes `x = v;` */
  lemma {:induction false} CopyAssignment(x: string, v: string)
    ensures VisitStmt(ExprStmt(Assign(Var(x), CallOf("take_or_mem_copy", [Lit(v)])), true))
         == ExprStmt(Assign(Var(x), Lit(v)), true)
  {
    VisitCopyLiteral(v);
    VisitName(x);
    WalkAssign(Var(x), CallOf("take_or_mem_copy", [Lit(v)]));
  }

  /** `let owner(rebindable(x)) = mem_copy(at(r)); x = take_or_mem_copy(100);`
      becomes `let mut x = *r; x = 100;` */
  lemma {:induction false} LitmusExample(x: string, r: string, hundred: string)
    ensures VisitStmts([Local(Tag("owner", Tag("rebindable", Binding(x, false))),
                              Some(LocalInit(CallOf("mem_copy", [CallOf("at", [Var(r)])]), None))),
                        ExprStmt(Assign(Var(x), CallOf("take_or_mem_copy", [Lit(hundred)])), true)])
         == [Local(Binding(x, true), Some(LocalInit(Unary(Deref, Var(r)), None))),
             ExprStmt(Assign(Var(x), Lit(hundred)), true)]
  {
    LitmusLet(x, r);
    CopyAssignment(x, hundred);
    WalkPair(Local(Tag("owner", Tag("rebindable", Binding(x, false))),
                   Some(LocalInit(CallOf("mem_copy", [CallOf("at", [Var(r)])]), None))),
             ExprStmt(Assign(Var(x), CallOf("take_or_mem_copy", [Lit(hundred)])), true));
  }

  /** `at(t.k)` is rewritten to `*t.k`, which the walk then leaves alone. */
  lemma {:induction false} DerefOfField(t: string, k: string)
    ensures RewriteExpr(CallOf("at", [OtherExpr(k, [Var(t)])])) == Unary(Deref, OtherExpr(k, [Var(t)]))
    ensures Visit(Unary(Deref, OtherExpr(k, [Var(t)]))) == Unary(Deref, OtherExpr(k, [Var(t)]))
  {
    var f := OtherExpr(k, [Var(t)]);
    assert [f] + [] == [f];
    ExplicitProps.DerefLowering(f, []);
    VisitName(t);
    VisitField(k, Var(t));
    VisitWrapped(Deref, false, f);
  }

  /** `(at(t.0), at(t.1))` is walked to `(*t.0, *t.1)`. */
  lemma {:induction false} PairOfDerefs(t: string)
    ensures Visit(RewriteExpr(Tuple([CallOf("at", [OtherExpr(".0", [Var(t)])]),
                                     CallOf("at", [OtherExpr(".1", [Var(t)])])])))
         == Tuple([Unary(Deref, OtherExpr(".0", [Var(t)])), Unary(Deref, OtherExpr(".1", [Var(t)]))])
  {
    var d0 := Unary(Deref, OtherExpr(".0", [Var(t)]));
    var d1 := Unary(Deref, OtherExpr(".1", [Var(t)]));
    DerefOfField(t, ".0");
    DerefOfField(t, ".1");
    RewritePair(CallOf("at", [OtherExpr(".0", [Var(t)])]), CallOf("at", [OtherExpr(".1", [Var(t)])]));
    RewritePair(d0, d1);
  }

  /** `(owner(a), owner(b))` is rewritten to `(a, b)`. */
  lemma {:induction false} PairOfOwners(a: string, b: string)
    ensures RewritePat(TuplePat([Tag("owner", Binding(a, false)), Tag("owner", Binding(b, false))]))
         == TuplePat([Binding(a, false), Binding(b, false)])
  {
    TagForms("owner", a);
    TagForms("owner", b);
    assert RewritePats([Tag("owner", Binding(a, false)), Tag("owner", Binding(b, false))])
        == [Binding(a, false), Binding(b, false)];
  }

  /** `let (owner(a), owner(b)) = (at(t.0), at(t.1));` becomes
      `let (a, b) = (*t.0, *t.1);` */
  lemma {:induction false} TupleAtExample(a: string, b: string, t: string)
    ensures VisitStmts([Local(TuplePat([Tag("owner", Binding(a, false)), Tag("owner", Binding(b, false))]),
                              Some(LocalInit(Tuple([CallOf("at", [OtherExpr(".0", [Var(t)])]),
                                                    CallOf("at", [OtherExpr(".1", [Var(t)])])]), None)))])
         == [Local(TuplePat([Binding(a, false), Binding(b, false)]),
                   Some(LocalInit(Tuple([Unary(Deref, OtherExpr(".0", [Var(t)])),
                                         Unary(Deref, OtherExpr(".1", [Var(t)]))]), None)))]
  {
    PairOfDerefs(t);
    PairOfOwners(a, b);
    WalkLet(TuplePat([Tag("owner", Binding(a, false)), Tag("owner", Binding(b, false))]),
            Tuple([CallOf("at", [OtherExpr(".0", [Var(t)])]), CallOf("at", [OtherExpr(".1", [Var(t)])])]));
  }

  /** `let name(rebindable(r)) = coord_exclusive(a);` becomes
      `let mut r = &mut a;` and `coord_shared` likewise gives `&a`. */
  lemma {:induction false} RebindableLet(r: string, a: string)
    ensures VisitStmt(Local(Tag("name", Tag("rebindable", Binding(r, false))),
                            Some(LocalInit(CallOf("coord_exclusive", [Var(a)]), None))))
         == Local(Binding(r, true), Some(LocalInit(Reference(true, Var(a)), None)))
    ensures VisitStmt(Local(Tag("name", Tag("rebindable", Binding(r, false))),
                            Some(LocalInit(CallOf("coord_shared", [Var(a)]), None))))
         == Local(Binding(r, true), Some(LocalInit(Reference(false, Var(a)), None)))
  {
    assert [Var(a)] + [] == [Var(a)];
    ExplicitProps.ExclusiveReferenceLowering(Var(a), []);
    ExplicitProps.SharedReferenceLowering(Var(a), []);
    VisitWrapped(Deref, true, Var(a));
    VisitWrapped(Deref, false, Var(a));
    VisitName(a);
    TagForms("name", r);
    WalkLet(Tag("name", Tag("rebindable", Binding(r, false))), CallOf("coord_exclusive", [Var(a)]));
    WalkLet(Tag("name", Tag("rebindable", Binding(r, false))), CallOf("coord_shared", [Var(a)]));
  }

  /** `at(r) = v;` becomes `*r = v;` */
  lemma {:induction false} WriteThrough(r: string, v: string)
    ensures VisitStmt(ExprStmt(Assign(CallOf("at", [Var(r)]), Lit(v)), true))
         == ExprStmt(Assign(Unary(Deref, Var(r)), Lit(v)), true)
  {
    VisitAtName(r);
    WalkAssign(CallOf("at", [Var(r)]), Lit(v));
  }

  /** `r = coord_exclusive(b);` becomes `r = &mut b;` and `r = coord_shared(b);`
      becomes `r = &b;` */
  lemma {:induction false} Retarget(r: string, b: string)
    ensures VisitStmt(ExprStmt(Assign(Var(r), CallOf("coord_exclusive", [Var(b)])), true))
         == ExprStmt(Assign(Var(r), Reference(true, Var(b))), true)
    ensures VisitStmt(ExprStmt(Assign(Var(r), CallOf("coord_shared", [Var(b)])), true))
         == ExprStmt(Assign(Var(r), Reference(false, Var(b))), true)
  {
    VisitCoordName(b);
    VisitName(r);
    WalkAssign(Var(r), CallOf("coord_exclusive", [Var(b)]));
    WalkAssign(Var(r), CallOf("coord_shared", [Var(b)]));
  }

  /** `let name(rebindable(r)) = coord_exclusive(a); at(r) = 100;
      r = coord_exclusive(b); at(r) = 200;` becomes
      `let mut r = &mut a; *r = 100; r = &mut b; *r = 200;` */
  lemma {:induction false} RebindableExclusiveExample(r: string, a: string, b: string, hundred: string, twoHundred: string)
    ensures VisitStmts([Local(Tag("name", Tag("rebindable", Binding(r, false))),
                              Some(LocalInit(CallOf("coord_exclusive", [Var(a)]), None))),
                        ExprStmt(Assign(CallOf("at", [Var(r)]), Lit(hundred)), true),
                        ExprStmt(Assign(Var(r), CallOf("coord_exclusive", [Var(b)])), true),
                        ExprStmt(Assign(CallOf("at", [Var(r)]), Lit(twoHundred)), true)])
         == [Local(Binding(r, true), Some(LocalInit(Reference(true, Var(a)), None))),
             ExprStmt(Assign(Unary(Deref, Var(r)), Lit(hundred)), true),
             ExprStmt(Assign(Var(r), Reference(true, Var(b))), true),
             ExprStmt(Assign(Unary(Deref, Var(r)), Lit(twoHundred)), true)]
  {
    RebindableLet(r, a);
    WriteThrough(r, hundred);
    Retarget(r, b);
    WriteThrough(r, twoHundred);
    WalkQuadruple(Local(Tag("name", Tag("rebindable", Binding(r, false))),
                        Some(LocalInit(CallOf("coord_exclusive", [Var(a)]), None))),
                  ExprStmt(Assign(CallOf("at", [Var(r)]), Lit(hundred)), true),
                  ExprStmt(Assign(Var(r), CallOf("coord_exclusive", [Var(b)])), true),
                  ExprStmt(Assign(CallOf("at", [Var(r)]), Lit(twoHundred)), true));
  }

  /** `let name(rebindable(r)) = coord_shared(x); println!(..);
      r = coord_shared(z);` becomes `let mut r = &x; println!(..); r = &z;`,
      the macro statement passing through untouched. */
  lemma {:induction false} RebindableSharedExample(r: string, x: string, z: string, message: string)
    ensures VisitStmts([Local(Tag("name", Tag("rebindable", Binding(r, false))),
                              Some(LocalInit(CallOf("coord_shared", [Var(x)]), None))),
                        MacroStmt(message),
                        ExprStmt(Assign(Var(r), CallOf("coord_shared", [Var(z)])), true)])
         == [Local(Binding(r, true), Some(LocalInit(Reference(false, Var(x)), None))),
             MacroStmt(message),
             ExprStmt(Assign(Var(r), Reference(false, Var(z))), true)]
  {
    RebindableLet(r, x);
    Retarget(r, z);
    WalkTriple(Local(Tag("name", Tag("rebindable", Binding(r, false))),
                     Some(LocalInit(CallOf("coord_shared", [Var(x)]), None))),
               MacroStmt(message),
               ExprStmt(Assign(Var(r), CallOf("coord_shared", [Var(z)])), true));
  }

  /** `let (owner(rebindable(a)), owner(rebindable(b))) = t;` becomes
      `let (mut a, mut b) = t;` */
  lemma {:induction false} TupleRebindableExample(a: string, b: string, t: string)
    ensures VisitStmts([Local(TuplePat([Tag("owner", Tag("rebindable", Binding(a, false))),
                                        Tag("owner", Tag("rebindable", Binding(b, false)))]),
                              Some(LocalInit(Var(t), None)))])
         == [Local(TuplePat([Binding(a, true), Binding(b, true)]), Some(LocalInit(Var(t), None)))]
  {
    TagForms("owner", a);
    TagForms("owner", b);
    var pat := TuplePat([Tag("owner", Tag("rebindable", Binding(a, false))),
                         Tag("owner", Tag("rebindable", Binding(b, false)))]);
    assert RewritePat(pat) == TuplePat([Binding(a, true), Binding(b, true)]) by {
      assert RewritePats(pat.elems) == [Binding(a, true), Binding(b, true)];
    }
    VisitName(t);
    WalkLet(pat, Var(t));
  }
}
