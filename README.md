# explicit! declarations, a counted pointer and an observer list, in Dafny

This project models three pieces of the `spelled` teaching repository.

1. **The `explicit!` declaration rewriter** (`spelled/src/lib.rs`). The macro
   accepts declarations written in an explicit vocabulary and rewrites them
   into ordinary Rust:
   - `let owner(x) = take(at(b));` becomes `let x = *b;`;
   - `let name(rebindable(r)) = coord_exclusive(a);` becomes `let mut r = &mut a;`.

   It has two parts. A pattern rewriter turns the `owner`/`name` tags (and
   `rebindable` inside them) into plain or `mut` bindings. An expression
   rewriter turns the eight pseudo-operations into real syntax:
   - `coord_shared` becomes `&`, `coord_exclusive` becomes `&mut`, and
     `coord_heap` becomes `Box::new`;
   - `mem_copy`, `take` and `take_or_mem_copy` leave only their argument;
   - `clone_copy` becomes `.clone()`, and `at` becomes `*`.

   A tree walker drives both over every statement of the block.
   - The syntax tree is a Dafny datatype (`Syntax`).
   - The rewriters are functions on it, with procedures that loop over
     element lists (`Explicit`). The block's statement loop updates an
     array in place.
   - `ExplicitProps` holds the properties, and `ExplicitExamples` holds the
     exercises' declarations next to the plain Rust their exercises ask for.

   The walker visits a node by rewriting it first and then visiting every
   child of the result, the callee of a call included. So a callee is
   rewritten only after its call has been classified. For example,
   `mem_copy(take)(y)` is walked to `take(y)`, a pseudo-operation call that
   the walk leaves in place (`ExplicitProps.CalleeRewrittenTooLate`). The
   completeness and idempotence results of the walker therefore assume
   that no call has a callee that is an ordinary expression as written and
   a pseudo-operation name only once rewritten (`SafeCallees`). A callee
   that is itself a pseudo-operation call is allowed: `take(f)(x)` is
   walked to `f(x)` in one visit (`ExplicitProps.PendingCalleeLowered`).

2. **`MyRc`** (`exercises/06-synthesis/src/bin/05_custom_rc.rs`). This is a
   single-threaded reference-counted pointer.
   - The shared cell is a class `Inner` with a `count` and a `freed` flag.
   - A ghost set records the handles that refer to the cell. Its
     invariant says that while the cell is allocated, the count is the
     number of live handles.

3. **`Subject`** (`exercises/06-synthesis/src/bin/07_observer.rs`). A
   subject holds weak references to observers. Setting its value notifies
   the live observers and removes the dead ones, in one pass.
   - An observer is an identifier.
   - Whether its weak reference still upgrades is given by a set of live
     identifiers.
   - Every call of `on_change` is recorded in a `delivered` log.

## Model

| member | source | states |
|---|---|---|
| Explicit.GetIdent | spelled/src/lib.rs:138-140 | a path yields a name exactly when it is one bare identifier (no leading `::`, one segment, no generic arguments), and then that name |
| Explicit.IsPathIdent | spelled/src/lib.rs:138-140 | true exactly when the path is the bare identifier `name` |
| Explicit.GetIdentName | spelled/src/lib.rs:222-228 | an expression yields a name exactly when it is a path expression of one bare identifier |
| Explicit.PseudoOpNamed | spelled/src/lib.rs:147-196 | the rule table recognises exactly the eight names; it is the inverse of their spelling |
| Explicit.CalleeOp | spelled/src/lib.rs:145-147 | a callee is recognised exactly when it is the bare path of one of the eight names, and then as that operation; `BareNameRecognised` and `QualifiedCalleeIsOrdinary` are its partners |
| Explicit.Lower | spelled/src/lib.rs:148-195 | a lowering returns its argument itself exactly for `mem_copy`, `take` and `take_or_mem_copy`, and adds at most two nodes; what every case builds is stated by `LowersFirstArgument` and the lowering lemmas beneath it |
| Explicit.RewritePat | spelled/src/lib.rs:90-136 | a tagged pattern is kept or becomes a binding with no `ref` and no sub-pattern; tuples keep their length; parentheses are kept; every other pattern is unchanged |
| Explicit.RewritePats | spelled/src/lib.rs:126-130 | the tuple elements are rewritten one by one, in place, with the length kept |
| Explicit.RewriteExpr | spelled/src/lib.rs:142-220 | the rewrite never makes the tree larger, and a call it does not lower (no argument, or an unrecognised callee) stays a call on the same callee with as many arguments; each branch's exact result is stated by `LowersFirstArgument`, `ZeroArgumentCallKept`, `OrdinaryCallRewritesArguments` and `WrappersKeepShape`, and idempotence by `RewriteIdempotent` |
| Explicit.RewriteAll | spelled/src/lib.rs:196-208 | the arguments or elements are rewritten one by one, with the length kept |
| Explicit.Visit | spelled/src/lib.rs:84-87 | a visited node is a node of the same kind as the node's rewrite, with the same operator, mutability or method name and as many children; that one visit leaves nothing pending is `VisitLowers`, and that it fixes a lowered tree is `LoweredVisitFixed` |
| Explicit.Descend | spelled/src/lib.rs:86 | the default descent keeps the node's kind, operator, mutability or method name and child count; what it leaves beneath the node is `DescendLowers` |
| Explicit.VisitStmt | spelled/src/lib.rs:72-82 | a `let` gets its rewritten pattern and keeps whether it has an initializer; an expression statement keeps its semicolon; a nested item keeps its header and statement count; a macro statement is untouched; `LetInitializerVisitedOnce` and `VisitStmtLowers` state what happens to the parts |
| Explicit.VisitStmts | spelled/src/lib.rs:71-88 | the walk keeps the statement count and order, visiting each statement in its place |
| Explicit.ExplicitBlock | spelled/src/lib.rs:60-63 | the loop leaves the block array holding the walk of its old contents |
| Explicit.TransformPat | spelled/src/lib.rs:90-136 | the in-place pattern procedure, including its loop over tuple elements, computes `RewritePat` |
| Explicit.TransformExprs | spelled/src/lib.rs:198-200 | the loop over call arguments computes `RewriteAll` |
| Explicit.TransformExpr | spelled/src/lib.rs:142-220 | the in-place expression procedure, including its loops over arguments and tuple elements, computes `RewriteExpr` |
| ExplicitProps.BindingForms | spelled/src/lib.rs:94-120 | `owner(x)` and `name(x)` give the binding `x`, and their `rebindable(x)` forms give `mut x`, whatever `ref`, `mut`, `@` or further elements were written |
| ExplicitProps.TaggedPatternRewritten | spelled/src/lib.rs:94-124 | a tuple-struct pattern changes if and only if its tag is `owner`/`name` and its first element is an identifier or a `rebindable` whose first element is an identifier |
| ExplicitProps.TuplePatternDistributes | spelled/src/lib.rs:126-133 | tuple patterns are rewritten element by element, with order and length kept; parenthesised ones keep their parentheses |
| ExplicitProps.RewritePatIdempotent | spelled/src/lib.rs:90-136 | rewriting a pattern twice is rewriting it once |
| ExplicitProps.PlainPatFixed | spelled/src/lib.rs:134 | a pattern with no `owner`/`name` tag is returned unchanged |
| ExplicitProps.TypedPatternKept | spelled/src/lib.rs:134 | a type-ascribed tagged pattern (`owner(x): T`) is left as written |
| ExplicitProps.BareNameRecognised | spelled/src/lib.rs:145-147 | each pseudo-operation written as a bare identifier is recognised |
| ExplicitProps.QualifiedCalleeIsOrdinary | spelled/src/lib.rs:196-201 | a qualified, `::`-prefixed or generic callee is an ordinary call: its callee is kept and its arguments rewritten |
| ExplicitProps.OrdinaryCallRewritesArguments | spelled/src/lib.rs:196-201 | a call on any unrecognised callee keeps that callee as written and has every argument rewritten, in order |
| ExplicitProps.LowersFirstArgument | spelled/src/lib.rs:148-195 | a recognised call with arguments becomes the lowering of its first argument, rewritten first; the other arguments are dropped |
| ExplicitProps.SharedReferenceLowering | spelled/src/lib.rs:148-155 | `coord_shared(a, ..)` becomes `&a'` |
| ExplicitProps.ExclusiveReferenceLowering | spelled/src/lib.rs:156-163 | `coord_exclusive(a, ..)` becomes `&mut a'` |
| ExplicitProps.HeapLowering | spelled/src/lib.rs:164-171 | `coord_heap(a, ..)` becomes `Box::new(a')` |
| ExplicitProps.CollapsingEquivalence | spelled/src/lib.rs:172-179 | `mem_copy`, `take` and `take_or_mem_copy` all leave just `a'` |
| ExplicitProps.CloneLowering | spelled/src/lib.rs:180-187 | `clone_copy(a, ..)` becomes `a'.clone()` |
| ExplicitProps.DerefLowering | spelled/src/lib.rs:188-195 | `at(a, ..)` becomes `*a'` |
| ExplicitProps.ZeroArgumentCallKept | spelled/src/lib.rs:150 | a recognised callee with no argument is left as it is |
| ExplicitProps.WrappersKeepShape | spelled/src/lib.rs:204-218 | tuple, paren, unary and reference nodes keep their shape with their children rewritten; every other shape is untouched |
| ExplicitProps.LowerSettled | spelled/src/lib.rs:148-195 | no lowering introduces a recognised callee |
| ExplicitProps.RewriteSettles | spelled/src/lib.rs:142-220 | after one rewrite, no position the rewriter inspects holds a pending pseudo-operation call |
| ExplicitProps.SettledFixed | spelled/src/lib.rs:142-220 | a tree with nothing pending is returned unchanged |
| ExplicitProps.RewriteIdempotent | spelled/src/lib.rs:142-220 | the expression rewriter is idempotent |
| ExplicitProps.LetInitializerVisitedOnce | spelled/src/lib.rs:72-82 | rewriting a `let` initializer before the walk visits it again gives the same result as a single visit |
| ExplicitProps.RewriteKeepsSafeCallees | spelled/src/lib.rs:142-220 | rewriting keeps `SafeCallees`: it never creates a call whose unrecognised callee becomes recognised once rewritten |
| ExplicitProps.CalleeStaysOrdinary | spelled/src/lib.rs:84-87 | a callee whose rewrite is not a recognised name is not recognised after it is visited either |
| ExplicitProps.VisitLowers | spelled/src/lib.rs:84-87 | if no call has a callee that only its rewrite turns into a recognised name (`SafeCallees`), one visit leaves no pending pseudo-operation call and no rewritable `let` pattern anywhere in the tree |
| ExplicitProps.DescendLowers | spelled/src/lib.rs:86 | under `SafeCallees`, the default descent into a rewritten node leaves nothing pending beneath it |
| ExplicitProps.VisitStmtLowers | spelled/src/lib.rs:72-82 | under `SafeCallees`, the walk rewrites every `let` pattern and initializer of a statement, however deeply nested |
| ExplicitProps.VisitStmtsLowers | spelled/src/lib.rs:61-63 | under `SafeCallees`, the statement loop leaves every statement of the block fully rewritten |
| ExplicitProps.LoweredSettled | spelled/src/lib.rs:142-220 | a fully rewritten tree has nothing pending for the expression rewriter |
| ExplicitProps.LoweredVisitFixed | spelled/src/lib.rs:84-87 | the walk leaves a fully rewritten tree unchanged |
| ExplicitProps.LoweredStmtsFixed | spelled/src/lib.rs:61-63 | the walk leaves a fully rewritten block unchanged |
| ExplicitProps.VisitIdempotent | spelled/src/lib.rs:84-87 | under `SafeCallees`, walking twice is walking once |
| ExplicitProps.BlockWalkIdempotent | spelled/src/lib.rs:61-63 | under `SafeCallees`, the same holds for a whole block |
| ExplicitProps.CalleeRewrittenTooLate | spelled/src/lib.rs:84-87 | `mem_copy(take)(y)` is walked to `take(y)`, which is still a pending call, and it is the case `SafeCallees` excludes |
| ExplicitProps.PendingCalleeLowered | spelled/src/lib.rs:84-87 | `take(f)(x)`, whose callee is itself a pending call, satisfies `SafeCallees` and is walked to `f(x)`, fully lowered, in one visit |
| ExplicitProps.PlainInputUnchanged | spelled/src/lib.rs:196-218 | a tree with no recognised callee and no tag leaves both the rewriter and the walk unchanged |
| ExplicitProps.PlainBlockUnchanged | spelled/src/lib.rs:61-63 | a block without explicit syntax is emitted unchanged |
| ExplicitExamples.VisitPseudoCall | spelled/src/lib.rs:84-87 | a one-argument pseudo-operation call is walked to the descent into the lowering of its rewritten argument |
| ExplicitExamples.TagForms | spelled/src/lib.rs:94-120 | `owner(x)` gives `x`, and `owner(rebindable(x))` gives `mut x` |
| ExplicitExamples.TakeAtExample | exercises/00-declarations/src/bin/14_at_take.rs:23-33 | `let owner(x) = take(at(b));` walks to `let x = *b;` |
| ExplicitExamples.LitmusLet | exercises/00-declarations/src/bin/21_litmus_test.rs:21-34 | `let owner(rebindable(x)) = mem_copy(at(r));` walks to `let mut x = *r;` |
| ExplicitExamples.CopyAssignment | exercises/00-declarations/src/bin/21_litmus_test.rs:22-35 | `x = take_or_mem_copy(100);` walks to `x = 100;` |
| ExplicitExamples.LitmusExample | exercises/00-declarations/src/bin/21_litmus_test.rs:21-35 | the two statements together walk to the two plain ones |
| ExplicitExamples.TupleAtExample | exercises/00-declarations/src/bin/18_tuple_at_both.rs:10-21 | `let (owner(a), owner(b)) = (at(t.0), at(t.1));` walks to `let (a, b) = (*t.0, *t.1);` |
| ExplicitExamples.RebindableLet | exercises/00-declarations/src/bin/11_rebindable_coord_exclusive.rs:21-36 | `let name(rebindable(r)) = coord_exclusive(a);` walks to `let mut r = &mut a;`, and the shared form to `&a` |
| ExplicitExamples.WriteThrough | exercises/00-declarations/src/bin/11_rebindable_coord_exclusive.rs:22-37 | `at(r) = 100;` walks to `*r = 100;` |
| ExplicitExamples.Retarget | exercises/00-declarations/src/bin/11_rebindable_coord_exclusive.rs:23-38 | `r = coord_exclusive(b);` walks to `r = &mut b;` |
| ExplicitExamples.RebindableExclusiveExample | exercises/00-declarations/src/bin/11_rebindable_coord_exclusive.rs:21-39 | the four statements walk to `let mut r = &mut a; *r = 100; r = &mut b; *r = 200;` |
| ExplicitExamples.RebindableSharedExample | exercises/00-declarations/src/bin/09_rebindable_coord_shared.rs:18-31 | the shared declaration and its retargeting walk to `&x` and `&z`; the `println!` statement passes through untouched |
| ExplicitExamples.TupleRebindableExample | exercises/00-declarations/src/bin/20_tuple_rebindable.rs:11-24 | `let (owner(rebindable(a)), owner(rebindable(b))) = t;` walks to `let (mut a, mut b) = t;` |
| CustomRc.Inner.constructor | exercises/06-synthesis/src/bin/05_custom_rc.rs:20-23 | a new cell holds the value with count 1 |
| CustomRc.MyRc.constructor | exercises/06-synthesis/src/bin/05_custom_rc.rs:19-27 | a fresh cell holding the value, with count 1 and this handle its only owner |
| CustomRc.MyRc.Count | exercises/06-synthesis/src/bin/05_custom_rc.rs:29-31 | returns the count, which equals the number of live handles and is at least 1; nothing changes |
| CustomRc.MyRc.Clone | exercises/06-synthesis/src/bin/05_custom_rc.rs:35-41 | a new handle on the same cell; the count rises by exactly 1; every handle stays valid |
| CustomRc.MyRc.Drop | exercises/06-synthesis/src/bin/05_custom_rc.rs:45-56 | at count 1 the cell is freed; otherwise the count falls by exactly 1 and the cell stays allocated; it is freed exactly when the dropped handle was the last |
| CustomRc.MyRc.Deref | exercises/06-synthesis/src/bin/05_custom_rc.rs:59-63 | returns the value stored when the cell was made, which no clone or drop changes |
| CustomRc.Example | exercises/06-synthesis/src/bin/05_custom_rc.rs:66-78 | the counts go 1, 2, 1; both handles read 42; the cell ends freed |
| ObserverPattern.Survivors | exercises/06-synthesis/src/bin/07_observer.rs:29-36 | every kept entry belongs to a live observer, and the list never grows |
| ObserverPattern.Notifications | exercises/06-synthesis/src/bin/07_observer.rs:30-31 | every notification carries the new value and goes to a live observer |
| ObserverPattern.Subject.constructor | exercises/06-synthesis/src/bin/07_observer.rs:17-19 | the initial value, with no observers |
| ObserverPattern.Subject.Subscribe | exercises/06-synthesis/src/bin/07_observer.rs:21-23 | exactly one entry is appended at the end; the rest of the state is unchanged |
| ObserverPattern.Subject.SetValue | exercises/06-synthesis/src/bin/07_observer.rs:25-37 | the value is stored; the list becomes the survivors; the log grows by the notifications of the live entries, in order |
| ObserverPattern.FilterStep | exercises/06-synthesis/src/bin/07_observer.rs:29-36 | each entry is kept and notified when its observer is alive, and dropped silently otherwise |
| ObserverPattern.SurvivorsAppend | exercises/06-synthesis/src/bin/07_observer.rs:29-36 | filtering distributes over concatenation, so surviving entries keep their relative order |
| ObserverPattern.SurvivorsMembers | exercises/06-synthesis/src/bin/07_observer.rs:29-36 | an identifier stays in the list exactly when it was subscribed and its observer is alive |
| ObserverPattern.SurvivorsMultiplicity | exercises/06-synthesis/src/bin/07_observer.rs:29-36 | a live observer keeps every one of its entries, and a dead one keeps none |
| ObserverPattern.AllAliveKeepsList | exercises/06-synthesis/src/bin/07_observer.rs:29-36 | when every observer is alive, nothing is removed |
| ObserverPattern.SurvivorsIdempotent | exercises/06-synthesis/src/bin/07_observer.rs:29-36 | a second clean-up with the same live observers removes nothing |
| ObserverPattern.NotificationsMatchSurvivors | exercises/06-synthesis/src/bin/07_observer.rs:29-35 | the notifications are the surviving entries, in list order, each sent the new value |
| ObserverPattern.NotifiedOncePerEntry | exercises/06-synthesis/src/bin/07_observer.rs:29-35 | a live observer is notified once per entry it has in the list, and a dead one never |
| ObserverPattern.Example | exercises/06-synthesis/src/bin/07_observer.rs:48-66 | both observers see 10; after observer 1 is dropped only observer 2 sees 20; only its entry remains |

## Left out

- Token-stream handling of the macro is not modelled. This covers turning the input into text and parsing it as a block, error reporting on a parse failure, and re-emitting the statements. These are compiler plumbing with no logic of their own.
- The span attached to the introduced `mut` token is not modelled. It affects only diagnostics.
- `parse_quote!` re-parses each lowering as tokens. The model builds the lowered node directly, so a spliced argument keeps its own grouping, and the re-parse is not modelled.
- `Explicit.RewriteExpr`: attributes on expressions and qualified-self paths (`<T as Tr>::f`) are not represented. Such a path counts as a non-bare path, so it is never recognised.
- Expressions inside patterns and types are not represented. The walk does reach them: its default descent goes through a pattern's type into array lengths and const-generic arguments, so `let owner(x): [u8; take(3)] = e;` has `take(3)` rewritten to `3`. The model omits those positions; a type is kept as text. Items other than their statement bodies are left out in the same way: a nested item is represented only by the statements of its body.
- `ExplicitProps.VisitLowers`: completeness is proved only under `SafeCallees`. A call such as `mem_copy(take)(y)`, whose callee becomes a pseudo-operation name only once rewritten, is left pending by the walk itself (`CalleeRewrittenTooLate`).
- `ExplicitProps.DescendLowers`: proved under `SafeCallees`, for the same reason as `VisitLowers`.
- `ExplicitProps.VisitStmtLowers`: proved under `SafeCallees`, for the same reason as `VisitLowers`.
- `ExplicitProps.VisitStmtsLowers`: proved under `SafeCallees`, for the same reason as `VisitLowers`.
- `ExplicitProps.VisitIdempotent`: proved under `SafeCallees`. On `mem_copy(take)(y)` a second walk turns the left-over `take(y)` into `y`, so walking twice differs from walking once.
- `ExplicitProps.BlockWalkIdempotent`: proved under `SafeCallees`, for the same reason as `VisitIdempotent`.
- `Explicit.TransformPat` / `Explicit.TransformExpr`: the source mutates the trees in place through `&mut` references. The model returns the new tree instead. Only the block's statement list is updated in place, as an array.
- `CustomRc.MyRc.Clone`: the count is unbounded. The model does not capture `usize` overflow of `count + 1`, which would need more than 2^64 live handles.
- Raw-pointer mechanics in `MyRc` (`NonNull`, `Box::into_raw`/`from_raw`, `unsafe`) are replaced by an object reference and the `freed` flag. Rust's ownership rules ensure that a dropped handle is never used again. In the model that guarantee is the `Valid()` precondition of every handle operation.
- The `println!` calls in the `MyRc` and observer demonstrations are not modelled. The observer's printing `on_change` is recorded as a `Notification` in the subject's log instead.
- `Rc`/`Weak` internals are not modelled. Whether a weak reference upgrades is given by the set of live observer identifiers, which is passed to `SetValue`.
- `ObserverPattern.Subject.SetValue` builds the kept list and then assigns it. `retain` filters in place. The resulting list and the order of the calls are the same.
- The exercises' `exercise()` functions end in `todo!()` and are not part of this model, beyond the plain declarations their comments give, which the `ExplicitExamples` lemmas state. The weak-count extension they propose for `MyRc` and the thread-safe observer are also not part of this model.
