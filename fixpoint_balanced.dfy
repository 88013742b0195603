/** Every text the constraint emitter writes is a well-formed s-expression:
    its parentheses are balanced. */
module FixpointBalanced {
  import Text
  import opened Parens
  import opened Fixpoint

  lemma NatStrNoParens(n: nat)
    ensures NoParens(Text.NatStr(n))
  {
    var s := Text.NatStr(n);
    assert forall i :: 0 <= i < |s| ==> Text.IsDigit(s[i]);
  }

  lemma AtomsNoParens(n: nat, s: Sort, k: KVid, c: Constant)
    ensures NoParens(VarName(n)) && NoParens(SortStr(s))
    ensures NoParens(KVidStr(k)) && NoParens(ConstantStr(c))
  {
    NatStrNoParens(n);
    NatStrNoParens(k.index);
    if c.Int? {
      NatStrNoParens(c.n);
    }
  }

  lemma {:induction false} JoinNoParens(sep: string, parts: seq<string>)
    requires NoParens(sep) && forall i :: 0 <= i < |parts| ==> NoParens(parts[i])
    ensures NoParens(Text.Join(sep, parts))
  {
    if |parts| > 1 {
      JoinNoParens(sep, parts[1..]);
    }
  }

  lemma {:induction false} JoinBalanced(sep: string, parts: seq<string>)
    requires NoParens(sep) && forall i :: 0 <= i < |parts| ==> Balanced(parts[i])
    ensures Balanced(Text.Join(sep, parts))
  {
    if parts == [] {
      NoParensBalanced("");
    } else if |parts| > 1 {
      JoinBalanced(sep, parts[1..]);
      NoParensBalanced(sep);
      BalancedAppend(parts[0], sep);
      BalancedAppend(parts[0] + sep, Text.Join(sep, parts[1..]));
    }
  }

  lemma TokenNoParens(t: Token)
    requires t != LParen && t != RParen
    ensures NoParens(TokenText(t))
  {
    match t
    case TVar(i) => AtomsNoParens(i, Sort.Int, KVid(0), Constant.Int(0));
    case TConst(c) => AtomsNoParens(0, Sort.Int, KVid(0), c);
    case TBin(op) =>
    case TUn(u) =>
  }

  lemma SingleTokenBalanced(t: Token)
    requires t != LParen && t != RParen
    ensures Balanced(Spell([t]))
  {
    TokenNoParens(t);
    assert Spell([t]) == TokenText(t) + Spell([]);
    assert Spell([t]) == TokenText(t);
    NoParensBalanced(TokenText(t));
  }

  lemma SpellParen(wrap: bool, ts: seq<Token>)
    requires Balanced(Spell(ts))
    ensures Balanced(Spell(Paren(wrap, ts)))
  {
    if wrap {
      SpellAppend([LParen] + ts, [RParen]);
      SpellAppend([LParen], ts);
      assert Spell([LParen]) == "(";
      assert Spell([RParen]) == ")";
      BalancedWrap(Spell(ts));
    }
  }

  /** The token stream of an expression spells a balanced text, under
      either operand rule. */
  lemma {:induction false} ExprBalanced(e: Expr, rule: ParenRule)
    ensures Balanced(Spell(ExprTokens(e, rule)))
  {
    match e
    case Variable(i) =>
      SingleTokenBalanced(TVar(i));
    case Constant(c) =>
      SingleTokenBalanced(TConst(c));
    case BinaryOp(op, l, r) =>
      ExprBalanced(l, rule);
      ExprBalanced(r, rule);
      var lt := Paren(ParenthesizeOperand(rule, op, l, false), ExprTokens(l, rule));
      var rt := Paren(ParenthesizeOperand(rule, op, r, true), ExprTokens(r, rule));
      SpellParen(ParenthesizeOperand(rule, op, l, false), ExprTokens(l, rule));
      SpellParen(ParenthesizeOperand(rule, op, r, true), ExprTokens(r, rule));
      SingleTokenBalanced(TBin(op));
      SpellAppend(lt, [TBin(op)]);
      SpellAppend(lt + [TBin(op)], rt);
      BalancedAppend(Spell(lt), Spell([TBin(op)]));
      BalancedAppend(Spell(lt + [TBin(op)]), Spell(rt));
    case UnaryOp(u, x) =>
      ExprBalanced(x, rule);
      SpellParen(!IsAtom(x), ExprTokens(x, rule));
      SingleTokenBalanced(TUn(u));
      SpellAppend([TUn(u)], Paren(!IsAtom(x), ExprTokens(x, rule)));
      BalancedAppend(Spell([TUn(u)]), Spell(Paren(!IsAtom(x), ExprTokens(x, rule))));
  }

  /** `(and c1 c2 …)`. */
  lemma AndShape(body: string)
    requires Balanced(body)
    ensures Balanced("(and" + body + ")")
  {
    assert Scan("(and", 0) == 1;
    Extend("(and", body, 1);
    ExtendLiteral("(and" + body, ")", 1, 0);
  }

  lemma {:induction false} PredBalanced(p: Pred, rule: ParenRule)
    ensures Balanced(EmitPred(p, rule))
  {
    match p
    case KVar(k, args) =>
      AtomsNoParens(0, Sort.Int, k, Constant.Int(0));
      forall i | 0 <= i < |args| ensures NoParens(VarNames(args)[i]) {
        AtomsNoParens(args[i], Sort.Int, k, Constant.Int(0));
      }
      JoinNoParens(" ", VarNames(args));
      KVarAppShape(KVidStr(k), Text.Join(" ", VarNames(args)));
    case And(ps) =>
      PredsBalanced(ps, rule);
      AndShape(EmitPreds(ps, rule));
    case Expr(e) =>
      ExprBalanced(e, rule);
      BalancedWrap(EmitExpr(e, rule));
  }

  /** `($kN vA vB …)`. */
  lemma KVarAppShape(kvid: string, vars: string)
    requires NoParens(kvid) && NoParens(vars)
    ensures Balanced("(" + kvid + " " + vars + ")")
  {
    assert Scan("(", 0) == 1;
    Extend("(", kvid, 1);
    Extend("(" + kvid, " ", 1);
    Extend("(" + kvid + " ", vars, 1);
    ExtendLiteral("(" + kvid + " " + vars, ")", 1, 0);
  }

  lemma {:induction false} PredsBalanced(ps: seq<Pred>, rule: ParenRule)
    ensures Balanced(EmitPreds(ps, rule))
  {
    if ps == [] {
      NoParensBalanced("");
    } else {
      PredBalanced(ps[0], rule);
      PredsBalanced(ps[1..], rule);
      ListShape(EmitPred(ps[0], rule), EmitPreds(ps[1..], rule));
    }
  }

  /** `" " + item + rest`, the shape of the children of `and`. */
  lemma ListShape(item: string, rest: string)
    requires Balanced(item) && Balanced(rest)
    ensures Balanced(" " + item + rest)
  {
    assert Scan(" ", 0) == 0;
    Extend(" ", item, 0);
    Extend(" " + item, rest, 0);
  }

  /** Every constraint, at every depth and under either operand rule, is
      written as a balanced text. */
  lemma {:induction false} ConstraintBalanced(c: Constraint, depth: nat, rule: ParenRule)
    ensures Balanced(EmitConstraint(c, depth, rule))
  {
    match c
    case Pred(p) =>
      PredBalanced(p, rule);
      BalancedWrap(EmitPred(p, rule));
    case Conj(cs) =>
      ConstraintsBalanced(cs, depth, rule);
      AndShape(EmitConstraints(cs, depth, rule));
    case ForAll(s, p, k) =>
      PredBalanced(p, rule);
      ConstraintBalanced(k, depth + 1, rule);
      AtomsNoParens(depth, s, KVid(0), Constant.Int(0));
      ForAllShape(VarName(depth), SortStr(s), EmitPred(p, rule), EmitConstraint(k, depth + 1, rule));
    case Guard(p, k) =>
      PredBalanced(p, rule);
      ConstraintBalanced(k, depth, rule);
      GuardShape(EmitPred(p, rule), EmitConstraint(k, depth, rule));
  }

  /** `(forall ((v sort) premise) conclusion)`. */
  lemma ForAllShape(v: string, sort: string, premise: string, conclusion: string)
    requires NoParens(v) && NoParens(sort) && Balanced(premise) && Balanced(conclusion)
    ensures Balanced("(forall ((" + v + " " + sort + ") " + premise + ") " + conclusion + ")")
  {
    assert Scan("(forall ((", 0) == 3;
    Extend("(forall ((", v, 3);
    Extend("(forall ((" + v, " ", 3);
    Extend("(forall ((" + v + " ", sort, 3);
    assert Scan(") ", 3) == 2;
    ExtendLiteral("(forall ((" + v + " " + sort, ") ", 3, 2);
    Extend("(forall ((" + v + " " + sort + ") ", premise, 2);
    assert Scan(") ", 2) == 1;
    ExtendLiteral("(forall ((" + v + " " + sort + ") " + premise, ") ", 2, 1);
    Extend("(forall ((" + v + " " + sort + ") " + premise + ") ", conclusion, 1);
    ExtendLiteral("(forall ((" + v + " " + sort + ") " + premise + ") " + conclusion, ")", 1, 0);
  }

  lemma GuardHead()
    ensures Scan("(forall ((_ int) ", 0) == 2
  {
    assert Scan("(forall ((", 0) == 3;
    Extend("(forall ((", "_ int", 3);
    assert Scan(") ", 3) == 2;
    ExtendLiteral("(forall ((" + "_ int", ") ", 3, 2);
    assert "(forall ((" + "_ int" + ") " == "(forall ((_ int) ";
  }

  /** `(forall ((_ int) premise) body)`. */
  lemma GuardShape(premise: string, body: string)
    requires Balanced(premise) && Balanced(body)
    ensures Balanced("(forall ((_ int) " + premise + ") " + body + ")")
  {
    GuardHead();
    Extend("(forall ((_ int) ", premise, 2);
    assert Scan(") ", 2) == 1;
    ExtendLiteral("(forall ((_ int) " + premise, ") ", 2, 1);
    Extend("(forall ((_ int) " + premise + ") ", body, 1);
    ExtendLiteral("(forall ((_ int) " + premise + ") " + body, ")", 1, 0);
  }

  lemma {:induction false} ConstraintsBalanced(cs: seq<Constraint>, depth: nat, rule: ParenRule)
    ensures Balanced(EmitConstraints(cs, depth, rule))
  {
    if cs == [] {
      NoParensBalanced("");
    } else {
      ConstraintBalanced(cs[0], depth, rule);
      ConstraintsBalanced(cs[1..], depth, rule);
      ListShape(EmitConstraint(cs[0], depth, rule), EmitConstraints(cs[1..], depth, rule));
    }
  }

  lemma SortParamsBalanced(sorts: seq<Sort>)
    ensures forall i :: 0 <= i < |sorts| ==> Balanced(SortParams(sorts)[i])
  {
    forall i | 0 <= i < |sorts| ensures Balanced(SortParams(sorts)[i]) {
      AtomsNoParens(0, sorts[i], KVid(0), Constant.Int(0));
      NoParensBalanced(SortStr(sorts[i]));
      BalancedWrap(SortStr(sorts[i]));
    }
  }

  /** A k-variable declaration is balanced. */
  lemma KVarDeclBalanced(k: KVar)
    ensures Balanced(EmitKVar(k))
  {
    SortParamsBalanced(k.sorts);
    JoinBalanced(" ", SortParams(k.sorts));
    AtomsNoParens(0, Sort.Int, k.id, Constant.Int(0));
    KVarDeclShape(KVidStr(k.id), Text.Join(" ", SortParams(k.sorts)));
  }

  /** `(var $kN (sorts))`. */
  lemma KVarDeclShape(kvid: string, sorts: string)
    requires NoParens(kvid) && Balanced(sorts)
    ensures Balanced("(var " + kvid + " (" + sorts + "))")
  {
    assert Scan("(var ", 0) == 1;
    Extend("(var ", kvid, 1);
    assert Scan(" (", 1) == 2;
    ExtendLiteral("(var " + kvid, " (", 1, 2);
    Extend("(var " + kvid + " (", sorts, 2);
    assert Scan("))", 2) == 0;
    ExtendLiteral("(var " + kvid + " (" + sorts, "))", 2, 0);
  }

  lemma QualifierParamsBalanced(vars: seq<Sort>)
    ensures forall i :: 0 <= i < |vars| ==> Balanced(QualifierParams(vars)[i])
  {
    forall i | 0 <= i < |vars| ensures Balanced(QualifierParams(vars)[i]) {
      AtomsNoParens(i, vars[i], KVid(0), Constant.Int(0));
      KVarAppShape(VarName(i), SortStr(vars[i]));
    }
  }

  /** A qualifier is balanced when its name has no parentheses. */
  lemma QualifierBalanced(q: Qualifier, rule: ParenRule)
    requires NoParens(q.name)
    ensures Balanced(EmitQualifier(q, rule))
  {
    QualifierParamsBalanced(q.vars);
    JoinBalanced(" ", QualifierParams(q.vars));
    ExprBalanced(q.pred, rule);
    QualifierShape(q.name, Text.Join(" ", QualifierParams(q.vars)), EmitExpr(q.pred, rule));
  }

  /** `(qualif name (params)(pred))`. */
  lemma QualifierShape(name: string, params: string, pred: string)
    requires NoParens(name) && Balanced(params) && Balanced(pred)
    ensures Balanced("(qualif " + name + " (" + params + ")" + "(" + pred + "))")
  {
    assert Scan("(qualif ", 0) == 1;
    Extend("(qualif ", name, 1);
    assert Scan(" (", 1) == 2;
    ExtendLiteral("(qualif " + name, " (", 1, 2);
    Extend("(qualif " + name + " (", params, 2);
    assert Scan(")", 2) == 1;
    ExtendLiteral("(qualif " + name + " (" + params, ")", 2, 1);
    assert Scan("(", 1) == 2;
    ExtendLiteral("(qualif " + name + " (" + params + ")", "(", 1, 2);
    Extend("(qualif " + name + " (" + params + ")" + "(", pred, 2);
    assert Scan("))", 2) == 0;
    ExtendLiteral("(qualif " + name + " (" + params + ")" + "(" + pred, "))", 2, 0);
  }
}
