# Constraint IR and refinement types of liquid-rust, in Dafny

This project models two parts of the liquid-rust refinement type checker.

**The fixpoint constraint language** (`liquid-rust-fixpoint/src/constraint.rs`).
- The tree: a `Constraint` is `Pred | Conj | Guard | ForAll`; a `Pred` is `And | KVar | Expr`; an `Expr` is `Variable | Constant | BinaryOp | UnaryOp`.
- `Constraint::join`.
- The s-expression emission, in `fixpoint_constraint.dfy`. The emission context is the nesting depth, and a `ForAll` at depth d binds `v{d}`. Infix expressions are parenthesised by the operator precedence table. The emission also covers k-variable declarations `(var $kN ((sort) …))` and qualifiers `(qualif name ((v0 sort) …)(pred))`.
- Every emitter that writes an expression (`EmitExpr`, `EmitPred`, `EmitPreds`, `EmitConstraint`, `EmitConstraints`, `EmitQualifier`) takes a `ParenRule`. `AsWritten` is the source's operand rule and gives the source's text. `LeftAssociative` is the corrected rule of the first finding below.
- The k-variable gathering pass, in `fixpoint_gather.dfy`. It walks the tree with a stack of in-scope sorts and records the argument sorts of each k-variable at its first application.

**The refinement-type data model** (`liquid-rust-lrir/src/ty/mod.rs`), in `ty.dfy`.
- Types: refined base types, dependent tuples, references and uninitialised memory.
- Refinement predicates over paths, ghost variables and tuple fields.
- The tuple operations and `Path::extend`/`Path::from`.
- The human-readable renderings of types, predicates, paths, regions and the five index families.
- `TyStr` takes a `LabelRule` for tuple entries. `AsWritten` gives the source's text `@@N: ty`, at every nesting level. `FieldLabel` is the corrected label `@N` of the second finding below.

How the emission is checked:
- `Expr` emission is modelled as a token stream (`Fixpoint.ExprTokens`). `Fixpoint.Spell` turns the tokens into text.
- `fixpoint_reader.dfy` defines a conventional precedence reader for that stream. It is the reference the parenthesisation rule is judged against.
- `fixpoint_balanced.dfy` proves that every emitted expression, predicate, constraint and k-variable declaration has balanced parentheses, under either operand rule. The same holds for every qualifier whose name has no parentheses. The name is an arbitrary string and is written verbatim.

Gathering is modelled two ways:
- The source's imperative walk: class `KVarGatherCtx`, whose methods push and pop the scope and insert into the map.
- Pure reference functions (`AfterConstraint` and its siblings). The methods are proved equal to these functions, which are themselves characterised without the walk. The characterisation uses the list of k-variable applications in visiting order (`Occurrences`).

Three details of the source that the model keeps:
- A k-variable declaration is written `(var $kN ((sort) …))`.
- A k-variable met again with different argument sorts keeps its first signature; gathering does not fail.
- A qualifier has no space between its parameter list and its predicate, as in `(qualif name ((v0 int))(pred))`.

## Model

| member | source | states |
|---|---|---|
| Fixpoint.Join | liquid-rust-fixpoint/src/constraint.rs:18-24 | No constraint exactly for an empty list. A singleton gives its sole element. Two or more give `Conj` of all of them in their original order. |
| Fixpoint.TrueEmit | liquid-rust-fixpoint/src/constraint.rs:16 | `Constraint::TRUE`, the predicate constraint over the constant `true`, is written `((true))` at every depth and under either operand rule. |
| Fixpoint.SortStr | liquid-rust-fixpoint/src/constraint.rs:62-71 | Definition of `Sort`'s `Display`, also its `Emit`. It is used by `EmitConstraint`, `EmitKVar` and `QualifierParams`; its texts are shown free of parentheses in `FixpointBalanced.AtomsNoParens`. |
| Fixpoint.KVidStr | liquid-rust-fixpoint/src/constraint.rs:82-86 | Definition of `KVid`'s `Display`, `$k` then the number. It is used by `EmitPred` and `EmitKVar`; its properties are in `FixpointBalanced.AtomsNoParens`. |
| Fixpoint.ConstantStr | liquid-rust-fixpoint/src/constraint.rs:169-176 | Definition of `Constant`'s `Display`, `true`/`false` or the decimal number. It is used by `EmitExpr`; its properties are in `FixpointBalanced.AtomsNoParens` and `TrueEmit`. |
| Fixpoint.PrecedenceLevels | liquid-rust-fixpoint/src/constraint.rs:310-323 | Mul/Div/Rem are level 5, Add/Sub 4, comparisons 3, And 2, Or 1. The comparisons are the only non-associative level. |
| Fixpoint.Precedence | liquid-rust-fixpoint/src/constraint.rs:311-320 | Definition of `BinOp::precedence`; its properties are in `PrecedenceLevels`. |
| Fixpoint.Associative | liquid-rust-fixpoint/src/constraint.rs:321-323 | Definition of `BinOp::associative`; its properties are in `PrecedenceLevels`. |
| Fixpoint.EmitVersusDisplay | liquid-rust-fixpoint/src/constraint.rs:326-380 | The solver spelling equals the display spelling for every binary operator except `Rem` (`mod`). `Eq` emits `=`. Unary `Not` emits `~` while it displays `!`, and `Neg` is `-` in both. No two binary operators share a solver spelling. |
| Fixpoint.BinOpDisplay | liquid-rust-fixpoint/src/constraint.rs:326-344 | Definition of `BinOp`'s `Display`; it is compared with the solver spelling in `EmitVersusDisplay`. |
| Fixpoint.UnOpDisplay | liquid-rust-fixpoint/src/constraint.rs:364-371 | Definition of `UnOp`'s `Display`; it is compared with the solver spelling in `EmitVersusDisplay`. |
| Fixpoint.BinOpEmit | liquid-rust-fixpoint/src/constraint.rs:346-353 | Definition of the solver spelling of a binary operator; its properties are in `EmitVersusDisplay`. |
| Fixpoint.UnOpEmit | liquid-rust-fixpoint/src/constraint.rs:373-380 | Definition of the solver spelling of a unary operator; its properties are in `EmitVersusDisplay`. |
| Fixpoint.ShouldParenthesizeAsWritten | liquid-rust-fixpoint/src/constraint.rs:127-135 | Definition of the source's `should_parenthesize`; its consequence is in `FixpointReader.AsWrittenLosesRightNesting`. |
| Fixpoint.ExprTokens | liquid-rust-fixpoint/src/constraint.rs:136-159 | Definition of `Expr::emit` as a token stream under either operand rule; its properties are in `FixpointReader.ReadBack` and `FixpointBalanced.ExprBalanced`. |
| Fixpoint.EmitExpr | liquid-rust-fixpoint/src/constraint.rs:125-162 | Definition of the text of `Expr::emit`, the spelled token stream; its properties are in `FixpointBalanced.ExprBalanced`. |
| Fixpoint.EmitPred | liquid-rust-fixpoint/src/constraint.rs:94-116 | Definition of `Pred::emit`; its properties are in `FixpointBalanced.PredBalanced`. |
| Fixpoint.EmitConstraint | liquid-rust-fixpoint/src/constraint.rs:27-54 | Definition of `Constraint::emit` at a depth; its properties are in `FixpointBalanced.ConstraintBalanced` and `DepthOnlyAtForAll`. |
| Fixpoint.EmitQualifier | liquid-rust-fixpoint/src/constraint.rs:184-197 | Definition of `Qualifier::emit`; its properties are in `QualifierParams` and `FixpointBalanced.QualifierBalanced`. |
| Fixpoint.EmitKVar | liquid-rust-fixpoint/src/constraint.rs:204-215 | Definition of `KVar::emit`; its properties are in `SortParams` and `FixpointBalanced.KVarDeclBalanced`. |
| Fixpoint.VarNames | liquid-rust-fixpoint/src/constraint.rs:97-104 | The arguments of a k-variable application are named `v{a}`, one per argument, in order. |
| Fixpoint.QualifierParams | liquid-rust-fixpoint/src/constraint.rs:186-193 | One parameter per sort, in order, and the `enumerate` counter paired with each sort is its position: parameter i is `(v{i} sort_i)`, so the names run `v0 … v(n-1)`. |
| Fixpoint.QualifierParamsFrom | liquid-rust-fixpoint/src/constraint.rs:187-193 | Walking the sorts with a counter that starts at `start` and goes up by one per sort pairs sort i with the counter value `start + i`. |
| Fixpoint.SortParams | liquid-rust-fixpoint/src/constraint.rs:207-212 | Walking the sorts one by one gives exactly one `(sort)` per argument sort, and the i-th is that of the i-th sort. |
| Fixpoint.DepthOnlyAtForAll | liquid-rust-fixpoint/src/constraint.rs:27-54 | Only `ForAll` reads the depth. A constraint without a `ForAll`, `Guard`s included, renders identically at every depth, under either operand rule. |
| FixpointReader.RoundTrip | liquid-rust-fixpoint/src/constraint.rs:136-159 | Corrected rule: when `e`'s top operator has precedence at least k (variables, constants and unary applications count as level 6), reading at level k the tokens of `e`, followed by any tokens that stop at that level, yields `e` and those tokens. |
| FixpointReader.ReadBack | liquid-rust-fixpoint/src/constraint.rs:125-162 | With the corrected operand rule, every emitted expression reads back under the left-associative precedence reader as the very tree it came from. |
| FixpointReader.TokensInjective | liquid-rust-fixpoint/src/constraint.rs:125-162 | Corrected rule: distinct expression trees are emitted as distinct token streams. Under the source's rule this fails (see `AsWrittenLosesRightNesting`). |
| FixpointReader.AsWrittenLosesRightNesting | liquid-rust-fixpoint/src/constraint.rs:127-135 | Under the rule as written, `v0 - (v1 - v2)` and `(v0 - v1) - v2` are emitted as the same text `v0 - v1 - v2`, which reads as the second tree. The constraints asserting the two are emitted alike too. |
| FixpointBalanced.ExprBalanced | liquid-rust-fixpoint/src/constraint.rs:125-162 | The emitted text of every expression has balanced parentheses, under either operand rule. |
| FixpointBalanced.PredBalanced | liquid-rust-fixpoint/src/constraint.rs:94-116 | Under either operand rule, every predicate, including a k-variable application `($kN vA …)` and `(and …)`, is emitted balanced. |
| FixpointBalanced.ConstraintBalanced | liquid-rust-fixpoint/src/constraint.rs:27-54 | Under either operand rule, every constraint is emitted balanced at every depth, including the `ForAll` binder `((v{d} sort) …)` and the guard binder `((_ int) …)`. |
| FixpointBalanced.KVarDeclBalanced | liquid-rust-fixpoint/src/constraint.rs:204-215 | Every k-variable declaration is emitted balanced. |
| FixpointBalanced.QualifierBalanced | liquid-rust-fixpoint/src/constraint.rs:184-197 | Under either operand rule, every qualifier whose name has no parentheses is emitted balanced. |
| FixpointGather.Resolve | liquid-rust-fixpoint/src/constraint.rs:271 | Looking up the argument sorts succeeds exactly when every argument index is below the scope length (otherwise the source panics). On success there is one sort per argument, and element i is `scope[args[i]]`. |
| FixpointGather.Record | liquid-rust-fixpoint/src/constraint.rs:267-272 | Definition of one step of `Pred::gather_kvars` on a k-variable application; its properties are in `AfterPred`, `FoldFirst` and `FoldKeys`. |
| FixpointGather.AfterPred | liquid-rust-fixpoint/src/constraint.rs:260-275 | Visiting a predicate never changes or removes a signature already recorded. |
| FixpointGather.AfterConstraint | liquid-rust-fixpoint/src/constraint.rs:237-257 | Visiting a constraint never changes or removes a signature already recorded. |
| FixpointGather.ConstraintIsFold | liquid-rust-fixpoint/src/constraint.rs:237-275 | The walk is the same as recording its k-variable applications one at a time, in visiting order. The premise and conclusion of a `ForAll` are visited with its sort pushed; `Guard` and `Conj` push nothing; `Expr` leaves contribute nothing. |
| FixpointGather.FoldSome | liquid-rust-fixpoint/src/constraint.rs:267-272 | Recording succeeds exactly when the first application of every not-yet-recorded k-variable has its arguments in scope. |
| FixpointGather.FoldKeys | liquid-rust-fixpoint/src/constraint.rs:267-272 | The recorded k-variables are those recorded before, plus every k-variable applied. |
| FixpointGather.FoldFirst | liquid-rust-fixpoint/src/constraint.rs:267-272 | The first application of a k-variable fixes its signature, and later applications leave it unchanged. Signatures recorded earlier are kept. |
| FixpointGather.GatheredSignatures | liquid-rust-fixpoint/src/constraint.rs:223-233 | Gathering a whole tree succeeds exactly when every first application is in scope. It then records one entry per k-variable of the tree. That entry's length equals the arity of the first application, and element i is the scope sort at argument i. |
| FixpointGather.OccurrenceDepths | liquid-rust-fixpoint/src/constraint.rs:237-257 | Suppose the scope length, the number of binders and the emission depth agree, and binder i was emitted at depth i with sort `scope[i]`. Then this agreement holds at every k-variable application below. The depth is the walk's own counter, which advances exactly where `EmitConstraint` advances its depth: +1 into a `ForAll`, unchanged at `Guard` and `Conj` (see `DepthOnlyAtForAll`). |
| FixpointGather.RootDepthsAgree | liquid-rust-fixpoint/src/constraint.rs:38-51 | From the root, at every k-variable application the scope stack has exactly one sort per enclosing `ForAll`, outermost first. Scope entry i comes from the `ForAll` at depth i, which `EmitConstraint` writes as the binder `v{i}`. The depth is counted as `EmitConstraint` counts it; the walk does not call the emitter. |
| FixpointGather.KVarGatherCtx.constructor | liquid-rust-fixpoint/src/constraint.rs:224-227 | The context starts with an empty scope and no signatures. |
| FixpointGather.KVarGatherCtx.GatherConstraint | liquid-rust-fixpoint/src/constraint.rs:237-257 | The scope stack is left as it was found (a `ForAll` pushes one sort and pops it). The new map is the reference `AfterConstraint` of the old scope and map. |
| FixpointGather.KVarGatherCtx.GatherPred | liquid-rust-fixpoint/src/constraint.rs:260-275 | The scope is unchanged. The new map is the reference `AfterPred`: an already-recorded k-variable is left alone, otherwise it gets `scope[var]` for each argument. |
| FixpointGather.GatherKVars | liquid-rust-fixpoint/src/constraint.rs:223-233 | Returns one `KVar` per recorded k-variable, carrying its recorded sorts. The identifiers are exactly those applied anywhere in the tree, and no two results share an identifier. |
| RefinementTy.IsEmpty | liquid-rust-lrir/src/ty/mod.rs:90-96 | A tuple is empty exactly when its length is 0. |
| RefinementTy.TyAt | liquid-rust-lrir/src/ty/mod.rs:114-116 | Definition of `Tuple::ty_at`; it is what `Types` and `MapTyAt` are stated against. |
| RefinementTy.Types | liquid-rust-lrir/src/ty/mod.rs:114-120 | Walking the entries gives one type per entry, in order, and element i is `ty_at(i)`. |
| RefinementTy.Fields | liquid-rust-lrir/src/ty/mod.rs:122-124 | Walking the entries gives one field per entry, in order, and element i is the field of entry i. |
| RefinementTy.FieldsTypes | liquid-rust-lrir/src/ty/mod.rs:118-124 | Zipping `fields()` with `types()` rebuilds the tuple. |
| RefinementTy.Map | liquid-rust-lrir/src/ty/mod.rs:98-106 | The result has the same length, and the counter `enumerate` hands to `f` with entry i is i: entry i becomes `f(i, field_i, ty_i)`. |
| RefinementTy.MapFrom | liquid-rust-lrir/src/ty/mod.rs:100-104 | Walking the entries with a counter that starts at `start` hands entry i to `f` with the counter value `start + i`. |
| RefinementTy.MapTyAt | liquid-rust-lrir/src/ty/mod.rs:108-112 | Requires n < len. The result has the same length and the same fields, the type at n is `f(old type at n)`, and every other entry is unchanged. |
| RefinementTy.MapIdentity | liquid-rust-lrir/src/ty/mod.rs:98-106 | Mapping with a function that returns each entry unchanged gives back the tuple. |
| RefinementTy.MapTyAtIsMap | liquid-rust-lrir/src/ty/mod.rs:98-112 | `map_ty_at(n, f)` is the `map` that applies `f` to the type at position n and leaves every other entry alone. |
| RefinementTy.MapTyAtCommute | liquid-rust-lrir/src/ty/mod.rs:108-112 | Rewrites at two different positions commute. |
| RefinementTy.MapTyAtTwice | liquid-rust-lrir/src/ty/mod.rs:108-112 | Two rewrites at the same position compose. |
| RefinementTy.FromVar | liquid-rust-lrir/src/ty/mod.rs:202-206 | `Path::from(base)` has that base and no projections, and renders as the variable alone. |
| RefinementTy.Extend | liquid-rust-lrir/src/ty/mod.rs:195-199 | `extend(n)` keeps the base and every existing projection, and appends exactly n at the end. |
| RefinementTy.PathStrExtend | liquid-rust-lrir/src/ty/mod.rs:195-216 | Extending a path by n appends `.n` to its rendering, so a path renders as its base followed by `.k` per projection, in order. |
| RefinementTy.PathStr | liquid-rust-lrir/src/ty/mod.rs:208-216 | Definition of `Path`'s `Display`; its properties are in `FromVar` and `PathStrExtend`. |
| RefinementTy.PredStr | liquid-rust-lrir/src/ty/mod.rs:152-161 | Definition of `PredS`'s `Display`; its properties are in `PredBalanced`. |
| RefinementTy.IndexRoundTrip | liquid-rust-lrir/src/ty/mod.rs:409-461 | Each index renders as its family prefix (`$k`, `$r`, `@`, `'`, `g`) followed by its number in decimal, and reads back as the same family and number. |
| RefinementTy.IndexStrInjective | liquid-rust-lrir/src/ty/mod.rs:409-461 | Indices of different families, or with different numbers, never render alike. |
| RefinementTy.IndexStr | liquid-rust-lrir/src/ty/mod.rs:409-461 | Definition of the rendering of an index of any of the five families; its properties are in `IndexRoundTrip` and `IndexStrInjective`. |
| RefinementTy.KVidStr | liquid-rust-lrir/src/ty/mod.rs:409-413 | Definition of `KVid`'s `Display`, `$kN`; its properties are in `IndexRoundTrip`. |
| RefinementTy.RegionVidStr | liquid-rust-lrir/src/ty/mod.rs:420-424 | Definition of `RegionVid`'s `Display`, `$rN`; its properties are in `IndexRoundTrip`. |
| RefinementTy.FieldStr | liquid-rust-lrir/src/ty/mod.rs:431-435 | Definition of `Field`'s `Display`, `@N`; its properties are in `IndexRoundTrip` and `EntryLabel`. |
| RefinementTy.UniversalRegionStr | liquid-rust-lrir/src/ty/mod.rs:442-446 | Definition of `UniversalRegion`'s `Display`, `'N`; its properties are in `IndexRoundTrip`. |
| RefinementTy.GhostVarStr | liquid-rust-lrir/src/ty/mod.rs:457-461 | Definition of `GhostVar`'s `Display`, `gN`; its properties are in `IndexRoundTrip`. |
| RefinementTy.VarStrInjective | liquid-rust-lrir/src/ty/mod.rs:244-252 | `Nu` renders `v`, ghost variables `gN` and fields `@N`. No two variables render alike. |
| RefinementTy.VarStr | liquid-rust-lrir/src/ty/mod.rs:244-252 | Definition of `Var`'s `Display`; its properties are in `VarStrInjective`. |
| RefinementTy.BinOpRead | liquid-rust-lrir/src/ty/mod.rs:285-304 | Every operator's rendering reads back as that operator, with the base type of `==`/`!=` forgotten. |
| RefinementTy.BinOpStrAlike | liquid-rust-lrir/src/ty/mod.rs:285-304 | Two operators render alike exactly when they agree up to the base type of `Eq`/`Neq`. So `Eq(_)`/`Neq(_)` render `==`/`!=` whatever the base type, and nothing else collides. |
| RefinementTy.BinOpStr | liquid-rust-lrir/src/ty/mod.rs:285-304 | Definition of `BinOp`'s `Display`; its properties are in `BinOpRead` and `BinOpStrAlike`. |
| RefinementTy.UnOpStr | liquid-rust-lrir/src/ty/mod.rs:315-323 | Definition of `UnOp`'s `Display`, `!` and `-`; it is used by `PredStr`, and its texts are shown free of parentheses in `PredBalanced`. |
| RefinementTy.BaseTyStr | liquid-rust-lrir/src/ty/mod.rs:332-339 | Definition of `BaseTy`'s `Display`, `int` and `bool`; its properties are in `RefinedStr`. |
| RefinementTy.PredBalanced | liquid-rust-lrir/src/ty/mod.rs:152-161 | A predicate whose constants print without parentheses renders balanced. Binary operations are fully parenthesised; unary ones are prefixed. |
| RefinementTy.FromPlace | liquid-rust-lrir/src/ty/mod.rs:352-356 | `Region::from(place)` is `Concrete([place])`, rendered `{ place }`. |
| RefinementTy.RegionStr | liquid-rust-lrir/src/ty/mod.rs:358-373 | Definition of `Region`'s `Display`; its properties are in `FromPlace`. |
| RefinementTy.KvarStr | liquid-rust-lrir/src/ty/mod.rs:392-402 | Definition of `Kvar`'s `Display`; its properties are in `KvarStrId`. |
| RefinementTy.KvarStrId | liquid-rust-lrir/src/ty/mod.rs:392-402 | A k-variable renders as its identifier and then its variables in brackets. The text before `[` reads back as the identifier, and with no variables the text is `$kN[]`. |
| RefinementTy.TyStr | liquid-rust-lrir/src/ty/mod.rs:46-71 | Definition of `TyS`'s `Display`, with tuple entries labelled under a `LabelRule`. Its properties are in `RefinedStr`, `EntryLabel`, `EntryLabelAsWritten` and `TupleStrAsWrittenExample`. |
| RefinementTy.RefinedStr | liquid-rust-lrir/src/ty/mod.rs:60-68 | Under either label rule, a refined type renders as its bare base type exactly when its refinement is a constant that is `true`. Otherwise, including every `Infer`, it renders in `{ … }`. |
| RefinementTy.EntryLabel | liquid-rust-lrir/src/ty/mod.rs:51-58 | Corrected label rule: a tuple entry is labelled `@N`, the same text that names field N in a path, and the label reads back as that field. |
| RefinementTy.EntryLabelAsWritten | liquid-rust-lrir/src/ty/mod.rs:54 | Label rule as written: an entry is labelled `@@N`, which is not the rendering of any index or variable. |
| RefinementTy.TupleStrAsWrittenExample | liquid-rust-lrir/src/ty/mod.rs:51-58 | The tuple with field 0 of type `uninit(1)` prints `(@@0: uninit(1))` under the label rule as written, and `(@0: uninit(1))` under the corrected one. |

## Left out

- Interning: hash-consed `Ty`/`Pred` handles (`HConsed`) and the `TyCtxt` interner are left out. They are an external library and a module not shown. Types and predicates are plain values with structural equality.
- The `emit` module, `Ctx` and the `emit!`/`impl_emit_by_display!` macros are not shown. `Ctx` is a depth (`nat`), writing is string concatenation, and `fmt::Result` errors are ignored.
- Reading text back: the reader works on the emitter's token stream, and `Fixpoint.Spell` gives that stream's text. Lexing text into tokens is not modelled.
- Result order: `gather_kvars` returns its declarations in `HashMap` order, which is unspecified. `FixpointGather.GatherKVars` returns a set.
- `FixpointGather.GatherKVars` requires that gathering succeeds. An argument index out of scope makes the source panic, which the pure functions model as `None`.
- Integer widths: `Constant::Int` is a `u128`, and indices, projections and `Uninit` sizes are `usize`. All are unbounded naturals here, because no operation of the core does arithmetic on them.
- RefinementTy.Map: `f` is a pure function of (index, field, type). The `FnMut` closure's own state is not modelled, so the order in which it is called is not observable.
- RefinementTy.PredBalanced: stated only for constants that print without parentheses. The rendering of MIR constants is not part of this model.
- MIR places and constants (`mir::Place`, `mir::Constant`, `Constant::is_true`) belong to a layer not shown. They are records of their rendered text, plus an `isTrue` flag for constants.
- `FnDecl` is modelled as a record only. The file defines no operation on it, and its well-formedness conditions appear only in comments.
- `Tuple::iter` and `Tuple::len` are the entry sequence and its length, with no contract of their own.
- liquid-rust-tycheck/src/check/bblock.rs is not part of this model. It only delegates to the synthesiser, the subtyping and terminator checks, and the environment and emitter.
- liquid-rust-mir/src/operand.rs is not part of this model. It converts into types that are not shown.
- liquid-rust-lrir/src/mir/mod.rs is not part of this model. It only declares modules and re-exports compiler types.

## Findings

| source | as written | input that shows it | evidently intended | confidence | as-written member | corrected member |
|---|---|---|---|---|---|---|
| liquid-rust-fixpoint/src/constraint.rs:127-135 | The right operand of a binary operator is not parenthesised when it has the same precedence at an associative level. The solver reads infix chains left-associatively. | `BinaryOp(Sub, v0, BinaryOp(Sub, v1, v2))` is written `v0 - v1 - v2`, which reads as `(v0 - v1) - v2`. `Div`, `Rem`, and `v0 - (v1 + v2)` go wrong the same way. | Also parenthesise a right operand of equal precedence, so the text reads back as the same tree. | likely; not executed | FixpointReader.AsWrittenLosesRightNesting | FixpointReader.ReadBack |
| liquid-rust-lrir/src/ty/mod.rs:54 | The tuple entry format puts `@` before the field, but a field already displays as `@N`. | The tuple with field 0 of type `uninit(1)` prints `(@@0: uninit(1))`. | `(@0: uninit(1))`: the label is the same text that names the field in a path. | likely; not executed | RefinementTy.EntryLabelAsWritten | RefinementTy.EntryLabel |
