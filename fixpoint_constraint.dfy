/** The constraint language handed to the fixpoint solver
    (liquid-rust-fixpoint/src/constraint.rs): a Horn-clause-like tree of
    constraints, predicates and expressions, and its s-expression emission.

    The emission context `Ctx` is the nesting depth, a `nat`; writing to a
    `fmt::Write` is string concatenation. Only `Constraint` emission reads the
    depth (it names the variable a `ForAll` binds), so `Pred` and `Expr`
    emission take no depth parameter. */
module Fixpoint {
  import Text
  import opened Parens
  import opened Wrappers

  // ---------------------------------------------------------------------
  // Sorts, constants, operators
  // ---------------------------------------------------------------------

  datatype Sort = Int | Bool

  function SortStr(s: Sort): string
  {
    match s
    case Bool => "bool"
    case Int => "int"
  }

  /** Identifier of an unknown predicate (a k-variable). */
  datatype KVid = KVid(index: nat)

  function KVidStr(k: KVid): string
  {
    "$k" + Text.NatStr(k.index)
  }

  /** `Constant::Int` holds a `u128`; it is an unbounded `nat` here. */
  datatype Constant = Bool(b: bool) | Int(n: nat)

  function ConstantStr(c: Constant): string
  {
    match c
    case Bool(b) => if b then "true" else "false"
    case Int(n) => Text.NatStr(n)
  }

  datatype BinOp = Add | Sub | Mul | Div | Rem | Eq | Neq | Lt | Gt | Lte | Gte | And | Or

  datatype UnOp = Not | Neg

  function Precedence(op: BinOp): nat
  {
    match op
    case Mul | Div | Rem => 5
    case Add | Sub => 4
    case Eq | Neq | Lt | Gt | Lte | Gte => 3
    case And => 2
    case Or => 1
  }

  /** Whether the operators of a precedence level chain without parentheses. */
  predicate Associative(precedence: nat)
  {
    precedence != 3
  }

  /** The precedence table: five levels, comparisons the only level that
      does not chain. */
  lemma PrecedenceLevels(op: BinOp)
    ensures 1 <= Precedence(op) <= 5
    ensures Precedence(op) == 5 <==> op in {Mul, Div, Rem}
    ensures Precedence(op) == 4 <==> op in {Add, Sub}
    ensures Precedence(op) == 3 <==> op in {Eq, Neq, Lt, Gt, Lte, Gte}
    ensures Precedence(op) == 2 <==> op == BinOp.And
    ensures Precedence(op) == 1 <==> op == Or
    ensures !Associative(Precedence(op)) <==> op in {Eq, Neq, Lt, Gt, Lte, Gte}
  {
  }

  /** Human-readable rendering (`Display`). */
  function BinOpDisplay(op: BinOp): string
  {
    match op
    case Eq => "="
    case Add => "+"
    case Sub => "-"
    case Mul => "*"
    case Div => "/"
    case Rem => "%"
    case Neq => "!="
    case Lt => "<"
    case Gt => ">"
    case Lte => "<="
    case Gte => ">="
    case And => "&&"
    case Or => "||"
  }

  /** Solver rendering (`Emit`): remainder is `mod`, everything else as displayed. */
  function BinOpEmit(op: BinOp): string
  {
    match op
    case Rem => "mod"
    case _ => BinOpDisplay(op)
  }

  function UnOpDisplay(op: UnOp): string
  {
    match op
    case Not => "!"
    case Neg => "-"
  }

  function UnOpEmit(op: UnOp): string
  {
    match op
    case Not => "~"
    case Neg => "-"
  }

  /** The solver syntax differs from the display syntax exactly at `Rem`
      (`mod` versus `%`) and at `Not` (`~` versus `!`), and no two binary
      operators share a solver spelling. */
  lemma {:induction false} EmitVersusDisplay(op: BinOp, op': BinOp, u: UnOp)
    ensures BinOpEmit(op) == BinOpDisplay(op) <==> op != Rem
    ensures BinOpEmit(Rem) == "mod" && BinOpEmit(Eq) == "="
    ensures UnOpEmit(u) == UnOpDisplay(u) <==> u == Neg
    ensures UnOpEmit(Not) == "~" && UnOpDisplay(Not) == "!"
    ensures BinOpEmit(op) == BinOpEmit(op') ==> op == op'
  {
    match op
    case Rem => assert BinOpEmit(op) != BinOpDisplay(op);
    case _ =>
  }

  // ---------------------------------------------------------------------
  // The constraint tree
  // ---------------------------------------------------------------------

  /** An expression; `Variable(i)` names the variable bound at depth `i`. */
  datatype Expr =
    | Variable(index: nat)
    | Constant(c: Constant)
    | BinaryOp(op: BinOp, lhs: Expr, rhs: Expr)
    | UnaryOp(uop: UnOp, arg: Expr)

  datatype Pred =
    | And(preds: seq<Pred>)
    | KVar(id: KVid, args: seq<nat>)
    | Expr(e: Expr)

  datatype Constraint =
    | Pred(pred: Pred)
    | Conj(constraints: seq<Constraint>)
    | Guard(premise: Pred, body: Constraint)
    | ForAll(sort: Sort, premise: Pred, conclusion: Constraint)

  /** `Constraint::TRUE`. */
  const TRUE: Constraint := Constraint.Pred(Pred.Expr(Expr.Constant(Constant.Bool(true))))

  /** `Constraint::join`: no constraint for an empty list, the sole element
      of a singleton, otherwise the conjunction of all of them in order. */
  function Join(constraints: seq<Constraint>): (r: Option<Constraint>)
    ensures r.None? <==> |constraints| == 0
    ensures |constraints| == 1 ==> r == Some(constraints[0])
    ensures |constraints| >= 2 ==> r == Some(Conj(constraints))
  {
    match |constraints|
    case 0 => None
    case 1 => Some(constraints[0])
    case _ => Some(Conj(constraints))
  }

  // ---------------------------------------------------------------------
  // Expression emission, as a sequence of tokens
  // ---------------------------------------------------------------------

  /** The pieces an expression is written out of; `Spell` glues their texts. */
  datatype Token =
    | TVar(index: nat)
    | TConst(c: Constant)
    | TBin(op: BinOp)
    | TUn(uop: UnOp)
    | LParen
    | RParen

  function VarName(index: nat): string
  {
    "v" + Text.NatStr(index)
  }

  function TokenText(t: Token): string
  {
    match t
    case TVar(i) => VarName(i)
    case TConst(c) => ConstantStr(c)
    case TBin(op) => " " + BinOpEmit(op) + " "
    case TUn(u) => UnOpEmit(u)
    case LParen => "("
    case RParen => ")"
  }

  function Spell(ts: seq<Token>): string
  {
    if ts == [] then "" else TokenText(ts[0]) + Spell(ts[1..])
  }

  lemma {:induction false} SpellAppend(a: seq<Token>, b: seq<Token>)
    ensures Spell(a + b) == Spell(a) + Spell(b)
  {
    if a == [] {
      assert a + b == b;
    } else {
      assert (a + b)[0] == a[0] && (a + b)[1..] == a[1..] + b;
      SpellAppend(a[1..], b);
    }
  }

  /** The rule the source applies to an operand of a binary operator:
      parenthesise a binary child of strictly lower precedence, or of equal
      precedence at a level that does not chain. */
  predicate ShouldParenthesizeAsWritten(parent: BinOp, child: Expr)
  {
    child.BinaryOp? &&
      (Precedence(child.op) < Precedence(parent) ||
       (Precedence(child.op) == Precedence(parent) && !Associative(Precedence(parent))))
  }

  /** The rule the emitter of this model applies: as written, and also a
      right operand of equal precedence, so that a left-associative reader
      rebuilds the same tree. */
  predicate ShouldParenthesize(parent: BinOp, child: Expr, isRight: bool)
  {
    ShouldParenthesizeAsWritten(parent, child) ||
      (isRight && child.BinaryOp? && Precedence(child.op) == Precedence(parent))
  }

  /** Which of the two operand rules an emission follows. */
  datatype ParenRule = AsWritten | LeftAssociative

  predicate ParenthesizeOperand(rule: ParenRule, parent: BinOp, child: Expr, isRight: bool)
  {
    match rule
    case AsWritten => ShouldParenthesizeAsWritten(parent, child)
    case LeftAssociative => ShouldParenthesize(parent, child, isRight)
  }

  function Paren(wrap: bool, ts: seq<Token>): seq<Token>
  {
    if wrap then [LParen] + ts + [RParen] else ts
  }

  predicate IsAtom(e: Expr)
  {
    e.Variable? || e.Constant?
  }

  /** `Expr::emit`, token by token: operands of a binary operator are
      parenthesised as the rule says, the operand of a unary operator unless
      it is a variable or a constant. */
  function ExprTokens(e: Expr, rule: ParenRule): seq<Token>
  {
    match e
    case Variable(i) => [TVar(i)]
    case Constant(c) => [TConst(c)]
    case BinaryOp(op, l, r) =>
      Paren(ParenthesizeOperand(rule, op, l, false), ExprTokens(l, rule))
      + [TBin(op)]
      + Paren(ParenthesizeOperand(rule, op, r, true), ExprTokens(r, rule))
    case UnaryOp(u, x) => [TUn(u)] + Paren(!IsAtom(x), ExprTokens(x, rule))
  }

  function EmitExpr(e: Expr, rule: ParenRule): string
  {
    Spell(ExprTokens(e, rule))
  }

  // ---------------------------------------------------------------------
  // Predicate and constraint emission
  // ---------------------------------------------------------------------

  function VarNames(args: seq<nat>): (names: seq<string>)
    ensures |names| == |args|
    ensures forall i :: 0 <= i < |args| ==> names[i] == VarName(args[i])
  {
    if args == [] then [] else [VarName(args[0])] + VarNames(args[1..])
  }

  /** `Pred::emit`: a k-variable application is `($kN vA vB …)`; the
      expressions inside are written under `rule` (`AsWritten` gives the
      source's text). */
  function EmitPred(p: Pred, rule: ParenRule): string
  {
    match p
    case KVar(k, args) => "(" + KVidStr(k) + " " + Text.Join(" ", VarNames(args)) + ")"
    case And(ps) => "(and" + EmitPreds(ps, rule) + ")"
    case Expr(e) => "(" + EmitExpr(e, rule) + ")"
  }

  function EmitPreds(ps: seq<Pred>, rule: ParenRule): string
  {
    if ps == [] then "" else " " + EmitPred(ps[0], rule) + EmitPreds(ps[1..], rule)
  }

  /** `Constraint::emit` at nesting depth `depth`: a `ForAll` binds
      `v{depth}` and writes its premise and conclusion one level deeper; a
      `Guard` binds the anonymous `_` of sort `int` and stays at `depth`. */
  function EmitConstraint(c: Constraint, depth: nat, rule: ParenRule): string
  {
    match c
    case Pred(p) => "(" + EmitPred(p, rule) + ")"
    case Conj(cs) => "(and" + EmitConstraints(cs, depth, rule) + ")"
    case ForAll(s, p, k) =>
      "(forall ((" + VarName(depth) + " " + SortStr(s) + ") " + EmitPred(p, rule) + ") "
      + EmitConstraint(k, depth + 1, rule) + ")"
    case Guard(p, k) =>
      "(forall ((_ int) " + EmitPred(p, rule) + ") " + EmitConstraint(k, depth, rule) + ")"
  }

  function EmitConstraints(cs: seq<Constraint>, depth: nat, rule: ParenRule): string
  {
    if cs == [] then "" else " " + EmitConstraint(cs[0], depth, rule) + EmitConstraints(cs[1..], depth, rule)
  }

  /** `Constraint::TRUE` is written `((true))` at every depth and under
      either operand rule. */
  lemma TrueEmit(depth: nat, rule: ParenRule)
    ensures EmitConstraint(TRUE, depth, rule) == "((true))"
  {
    assert ExprTokens(Expr.Constant(Constant.Bool(true)), rule) == [TConst(Constant.Bool(true))];
    assert EmitExpr(Expr.Constant(Constant.Bool(true)), rule) == "true";
  }

  /** Whether a `ForAll` occurs anywhere in `c`. */
  predicate HasForAll(c: Constraint)
  {
    match c
    case Pred(_) => false
    case Conj(cs) => AnyHasForAll(cs)
    case Guard(_, k) => HasForAll(k)
    case ForAll(_, _, _) => true
  }

  predicate AnyHasForAll(cs: seq<Constraint>)
  {
    cs != [] && (HasForAll(cs[0]) || AnyHasForAll(cs[1..]))
  }

  /** Only a `ForAll` looks at the depth: a constraint without one, guards
      included, renders the same at every depth. */
  lemma {:induction false} DepthOnlyAtForAll(c: Constraint, d: nat, d': nat, rule: ParenRule)
    requires !HasForAll(c)
    ensures EmitConstraint(c, d, rule) == EmitConstraint(c, d', rule)
  {
    match c
    case Pred(_) =>
    case Conj(cs) => DepthOnlyAtForAllList(cs, d, d', rule);
    case Guard(_, k) => DepthOnlyAtForAll(k, d, d', rule);
  }

  lemma {:induction false} DepthOnlyAtForAllList(cs: seq<Constraint>, d: nat, d': nat, rule: ParenRule)
    requires !AnyHasForAll(cs)
    ensures EmitConstraints(cs, d, rule) == EmitConstraints(cs, d', rule)
  {
    if cs != [] {
      DepthOnlyAtForAll(cs[0], d, d', rule);
      DepthOnlyAtForAllList(cs[1..], d, d', rule);
    }
  }

  // ---------------------------------------------------------------------
  // Qualifiers and k-variable declarations
  // ---------------------------------------------------------------------

  /** A named predicate template over parameters of the given sorts. */
  datatype Qualifier = Qualifier(name: string, vars: seq<Sort>, pred: Expr)

  /** The `enumerate`d parameter list from counter `start` on: each sort
      paired with the counter, which goes up by one per sort. */
  function QualifierParamsFrom(vars: seq<Sort>, start: nat): (params: seq<string>)
    ensures |params| == |vars|
    ensures forall i :: 0 <= i < |vars| ==> params[i] == "(" + VarName(start + i) + " " + SortStr(vars[i]) + ")"
  {
    if vars == [] then []
    else ["(" + VarName(start) + " " + SortStr(vars[0]) + ")"] + QualifierParamsFrom(vars[1..], start + 1)
  }

  /** Qualifier parameters are numbered `v0 … v(n-1)` in order: the counter
      of the parameter at position i is i itself. */
  function QualifierParams(vars: seq<Sort>): (params: seq<string>)
    ensures |params| == |vars|
    ensures forall i :: 0 <= i < |vars| ==> params[i] == "(" + VarName(i) + " " + SortStr(vars[i]) + ")"
  {
    QualifierParamsFrom(vars, 0)
  }

  function EmitQualifier(q: Qualifier, rule: ParenRule): string
  {
    "(qualif " + q.name + " (" + Text.Join(" ", QualifierParams(q.vars)) + ")"
    + "(" + EmitExpr(q.pred, rule) + "))"
  }

  /** A gathered k-variable: its identifier and its argument sorts. */
  datatype KVar = KVar(id: KVid, sorts: seq<Sort>)

  /** One `(sort)` per argument sort, in the order of the sorts. */
  function SortParams(sorts: seq<Sort>): (params: seq<string>)
    ensures |params| == |sorts|
    ensures forall i :: 0 <= i < |sorts| ==> params[i] == "(" + SortStr(sorts[i]) + ")"
  {
    if sorts == [] then [] else ["(" + SortStr(sorts[0]) + ")"] + SortParams(sorts[1..])
  }

  /** `KVar::emit`: the declaration `(var $kN ((sortA) (sortB) …))`. */
  function EmitKVar(k: KVar): string
  {
    "(var " + KVidStr(k.id) + " (" + Text.Join(" ", SortParams(k.sorts)) + "))"
  }
}
