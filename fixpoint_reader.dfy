/** A conventional reader for the infix expressions the emitter writes:
    five binary precedence levels (`Fixpoint.Precedence`), every level
    left-associative except comparisons, which do not chain; prefix `~`/`-`
    applying to a variable, a constant or a parenthesised expression.

    It is the reference against which the parenthesisation rule of
    `Expr::emit` is judged: the emitter's token stream must read back as the
    very tree it was written from. */
module FixpointReader {
  import opened Fixpoint
  import opened Wrappers

  type Parse = Option<(Expr, seq<Token>)>

  /** Reads an expression of precedence at least `k` (6: a unary or atomic
      one) from the front of `ts`, returning it and the tokens left over. */
  function ParseLevel(k: nat, ts: seq<Token>): (r: Parse)
    requires 1 <= k <= 6
    ensures r.Some? ==> |r.value.1| < |ts|
    decreases |ts|, 8 - k
  {
    if k == 6 then ParseUnary(ts)
    else
      match ParseLevel(k + 1, ts)
      case None => None
      case Some((lhs, rest)) => ParseTail(k, lhs, rest)
  }

  /** After a left operand `lhs`, reads `op operand` pairs of level `k`
      (at most one at the comparison level). */
  function ParseTail(k: nat, lhs: Expr, ts: seq<Token>): (r: Parse)
    requires 1 <= k <= 5
    ensures r.Some? ==> |r.value.1| <= |ts|
    decreases |ts|, 0
  {
    if ts != [] && ts[0].TBin? && Precedence(ts[0].op) == k then
      match ParseLevel(k + 1, ts[1..])
      case None => None
      case Some((rhs, rest)) =>
        if k == 3 then Some((BinaryOp(ts[0].op, lhs, rhs), rest))
        else ParseTail(k, BinaryOp(ts[0].op, lhs, rhs), rest)
    else Some((lhs, ts))
  }

  function ParseUnary(ts: seq<Token>): (r: Parse)
    ensures r.Some? ==> |r.value.1| < |ts|
    decreases |ts|, 1
  {
    if ts != [] && ts[0].TUn? then
      match ParsePrimary(ts[1..])
      case None => None
      case Some((x, rest)) => Some((UnaryOp(ts[0].uop, x), rest))
    else ParsePrimary(ts)
  }

  function ParsePrimary(ts: seq<Token>): (r: Parse)
    ensures r.Some? ==> |r.value.1| < |ts|
    decreases |ts|, 0
  {
    if ts == [] then None
    else
      match ts[0]
      case TVar(i) => Some((Variable(i), ts[1..]))
      case TConst(c) => Some((Expr.Constant(c), ts[1..]))
      case LParen =>
        (match ParseLevel(1, ts[1..])
         case Some((e, rest)) =>
           if rest != [] && rest[0] == RParen then Some((e, rest[1..])) else None
         case None => None)
      case _ => None
  }

  /** The whole token stream is one expression. */
  function Read(ts: seq<Token>): Option<Expr>
  {
    match ParseLevel(1, ts)
    case Some((e, rest)) => if rest == [] then Some(e) else None
    case None => None
  }

  /** The precedence of an expression's top operator (6 for the others). */
  function Level(e: Expr): nat
  {
    if e.BinaryOp? then Precedence(e.op) else 6
  }

  /** `rest` cannot extend an expression read at level `k`. */
  predicate StopsAt(rest: seq<Token>, k: nat)
  {
    rest == [] || !(rest[0].TBin? && Precedence(rest[0].op) >= k)
  }

  function Tokens(e: Expr): seq<Token>
  {
    ExprTokens(e, LeftAssociative)
  }

  lemma {:induction false} RoundTrip(e: Expr, k: nat, rest: seq<Token>)
    requires 1 <= k <= 6 && Level(e) >= k && StopsAt(rest, k)
    ensures ParseLevel(k, Tokens(e) + rest) == Some((e, rest))
    decreases e, 2, 6 - k
  {
    if k < 6 && Level(e) > k {
      RoundTrip(e, k + 1, rest);
      UnfoldLevel(k, Tokens(e) + rest);
    } else if k < 6 && k != 3 {
      Spine(e, k, rest);
    } else if k < 6 {
      Comparison(e, rest);
    } else {
      Atomic(e, rest);
    }
  }

  /** Both operands of a comparison are read one level up, once. */
  lemma {:induction false} Comparison(e: Expr, rest: seq<Token>)
    requires e.BinaryOp? && Precedence(e.op) == 3 && StopsAt(rest, 3)
    ensures ParseLevel(3, Tokens(e) + rest) == Some((e, rest))
    decreases e, 1
  {
    var BinaryOp(op, l, r) := e;
    var pl := ShouldParenthesize(op, l, false);
    var pr := ShouldParenthesize(op, r, true);
    var rest1 := [TBin(op)] + Paren(pr, Tokens(r)) + rest;
    TokensBinary(op, l, r, rest);
    OperandLevels(op, l, r);
    OperatorFirst(op, Paren(pr, Tokens(r)), rest);
    Operand(l, 4, pl, rest1);
    LeftStep(3, l, Paren(pl, Tokens(l)), rest1);
    Operand(r, 4, pr, rest);
    TailStep(3, op, l, r, Paren(pr, Tokens(r)), rest);
  }

  /** Variables, constants and unary applications are read at level 6. */
  lemma {:induction false} Atomic(e: Expr, rest: seq<Token>)
    requires !e.BinaryOp?
    ensures ParseLevel(6, Tokens(e) + rest) == Some((e, rest))
    decreases e, 1
  {
    if e.UnaryOp? {
      Applied(e.uop, e.arg, rest);
    } else {
      Primary(e, rest);
      assert Tokens(e) + rest == [Tokens(e)[0]] + rest;
    }
  }

  /** A variable or a constant is read as a primary. */
  lemma Primary(x: Expr, rest: seq<Token>)
    requires IsAtom(x)
    ensures |Tokens(x)| == 1
    ensures ParsePrimary(Tokens(x) + rest) == Some((x, rest))
    ensures ParseLevel(6, Tokens(x) + rest) == Some((x, rest))
  {
    var ts := Tokens(x) + rest;
    assert ts[0] == (if x.Variable? then TVar(x.index) else TConst(x.c));
    assert ts[1..] == rest;
    assert ParseLevel(6, ts) == ParseUnary(ts);
  }

  /** A unary operator applies to the primary after it. */
  lemma {:induction false} Applied(u: UnOp, x: Expr, rest: seq<Token>)
    ensures ParseLevel(6, Tokens(UnaryOp(u, x)) + rest) == Some((UnaryOp(u, x), rest))
    decreases UnaryOp(u, x), 0
  {
    var ts := Tokens(UnaryOp(u, x)) + rest;
    UnaryTokens(u, x, rest);
    UnaryOperand(x, rest);
    assert ParseUnary(ts) == Some((UnaryOp(u, x), rest));
  }

  lemma UnaryTokens(u: UnOp, x: Expr, rest: seq<Token>)
    ensures (Tokens(UnaryOp(u, x)) + rest)[0] == TUn(u)
    ensures (Tokens(UnaryOp(u, x)) + rest)[1..] == Paren(!IsAtom(x), Tokens(x)) + rest
  {
  }

  lemma {:induction false} UnaryOperand(x: Expr, rest: seq<Token>)
    ensures ParsePrimary(Paren(!IsAtom(x), Tokens(x)) + rest) == Some((x, rest))
    decreases x, 4
  {
    if IsAtom(x) {
      Primary(x, rest);
    } else {
      Parenthesised(x, rest);
    }
  }

  /** An operand, parenthesised or not, reads back at level `k`. */
  lemma {:induction false} Operand(c: Expr, k: nat, wrap: bool, rest: seq<Token>)
    requires 1 <= k <= 6 && (wrap || Level(c) >= k) && StopsAt(rest, k)
    ensures ParseLevel(k, Paren(wrap, Tokens(c)) + rest) == Some((c, rest))
    decreases c, 3, 7 - k
  {
    if !wrap {
      RoundTrip(c, k, rest);
    } else if k < 6 {
      Operand(c, k + 1, true, rest);
      UnfoldLevel(k, Paren(wrap, Tokens(c)) + rest);
    } else {
      Parenthesised(c, rest);
      var ts := Paren(true, Tokens(c)) + rest;
      assert ts[0] == LParen;
      assert ParseLevel(k, ts) == ParseUnary(ts);
    }
  }

  /** A parenthesised expression is a primary. */
  lemma {:induction false} Parenthesised(c: Expr, rest: seq<Token>)
    ensures ParsePrimary(Paren(true, Tokens(c)) + rest) == Some((c, rest))
    decreases c, 3, 0
  {
    var ts := Paren(true, Tokens(c)) + rest;
    assert ts[0] == LParen;
    assert ts[1..] == Tokens(c) + ([RParen] + rest);
    RoundTrip(c, 1, [RParen] + rest);
  }

  /** A left-leaning chain of operators of one chaining level `k` reads as
      that chain: reading at level `k` amounts to continuing the level-`k`
      loop after the whole chain. */
  lemma {:induction false} Spine(e: Expr, k: nat, rest: seq<Token>)
    requires 1 <= k <= 5 && k != 3 && e.BinaryOp? && Precedence(e.op) == k
    requires StopsAt(rest, k + 1)
    ensures ParseLevel(k, Tokens(e) + rest) == ParseTail(k, e, rest)
    decreases e, 1
  {
    var BinaryOp(op, l, r) := e;
    var pl := ShouldParenthesize(op, l, false);
    var pr := ShouldParenthesize(op, r, true);
    var rest1 := [TBin(op)] + Paren(pr, Tokens(r)) + rest;
    TokensBinary(op, l, r, rest);
    OperandLevels(op, l, r);
    OperatorFirst(op, Paren(pr, Tokens(r)), rest);
    if !pl && l.BinaryOp? && Precedence(l.op) == k {
      Spine(l, k, rest1);
    } else {
      Operand(l, k + 1, pl, rest1);
      LeftStep(k, l, Paren(pl, Tokens(l)), rest1);
    }
    Operand(r, k + 1, pr, rest);
    TailStep(k, op, l, r, Paren(pr, Tokens(r)), rest);
  }

  lemma TokensBinary(op: BinOp, l: Expr, r: Expr, rest: seq<Token>)
    ensures Tokens(BinaryOp(op, l, r)) + rest
         == Paren(ShouldParenthesize(op, l, false), Tokens(l))
            + ([TBin(op)] + Paren(ShouldParenthesize(op, r, true), Tokens(r)) + rest)
  {
  }

  /** What the operand rule guarantees about the operands it leaves bare. */
  lemma OperandLevels(op: BinOp, l: Expr, r: Expr)
    ensures ShouldParenthesize(op, r, true) || Level(r) > Precedence(op)
    ensures ShouldParenthesize(op, l, false) || Level(l) > Precedence(op)
            || (l.BinaryOp? && Precedence(l.op) == Precedence(op) && Precedence(op) != 3)
  {
  }

  lemma OperatorFirst(op: BinOp, ts: seq<Token>, rest: seq<Token>)
    ensures ([TBin(op)] + ts + rest)[0] == TBin(op)
    ensures ([TBin(op)] + ts + rest)[1..] == ts + rest
  {
  }

  /** A left operand read one level up becomes the start of the level-`k` loop. */
  lemma LeftStep(k: nat, lhs: Expr, ts: seq<Token>, rest: seq<Token>)
    requires 1 <= k <= 5 && ParseLevel(k + 1, ts + rest) == Some((lhs, rest))
    ensures ParseLevel(k, ts + rest) == ParseTail(k, lhs, rest)
  {
    UnfoldLevel(k, ts + rest);
  }

  /** One `op operand` step of the level-`k` loop. */
  lemma TailStep(k: nat, op: BinOp, lhs: Expr, rhs: Expr, ts: seq<Token>, rest: seq<Token>)
    requires 1 <= k <= 5 && Precedence(op) == k
    requires ParseLevel(k + 1, ts + rest) == Some((rhs, rest))
    ensures ParseTail(k, lhs, [TBin(op)] + ts + rest)
         == if k == 3 then Some((BinaryOp(op, lhs, rhs), rest))
            else ParseTail(k, BinaryOp(op, lhs, rhs), rest)
  {
    OperatorFirst(op, ts, rest);
    UnfoldTail(k, lhs, [TBin(op)] + ts + rest);
  }

  lemma UnfoldLevel(k: nat, ts: seq<Token>)
    requires 1 <= k <= 5 && ParseLevel(k + 1, ts).Some?
    ensures ParseLevel(k, ts) == ParseTail(k, ParseLevel(k + 1, ts).value.0, ParseLevel(k + 1, ts).value.1)
  {
  }

  lemma UnfoldTail(k: nat, lhs: Expr, ts: seq<Token>)
    requires 1 <= k <= 5 && ts != [] && ts[0].TBin? && Precedence(ts[0].op) == k
    requires ParseLevel(k + 1, ts[1..]).Some?
    ensures var (rhs, rest) := ParseLevel(k + 1, ts[1..]).value;
            ParseTail(k, lhs, ts)
            == if k == 3 then Some((BinaryOp(ts[0].op, lhs, rhs), rest))
               else ParseTail(k, BinaryOp(ts[0].op, lhs, rhs), rest)
  {
  }

  /** The emitter's expressions read back as the tree they were written
      from, so distinct trees are written differently. */
  lemma ReadBack(e: Expr)
    ensures Read(Tokens(e)) == Some(e)
  {
    RoundTrip(e, 1, []);
    assert Tokens(e) + [] == Tokens(e);
  }

  lemma TokensInjective(e: Expr, e': Expr)
    ensures Tokens(e) == Tokens(e') ==> e == e'
  {
    ReadBack(e);
    ReadBack(e');
  }

  /** With the source's rule a subtraction whose right operand is itself a
      subtraction is written without parentheses: `v0 - (v1 - v2)` and
      `(v0 - v1) - v2` give the same text, which reads as the second, and
      so do the constraints that assert them. */
  lemma AsWrittenLosesRightNesting()
    ensures var right := BinaryOp(Sub, Variable(0), BinaryOp(Sub, Variable(1), Variable(2)));
            var left := BinaryOp(Sub, BinaryOp(Sub, Variable(0), Variable(1)), Variable(2));
            && right != left
            && ExprTokens(right, AsWritten) == ExprTokens(left, AsWritten)
            && Spell(ExprTokens(right, AsWritten)) == "v0 - v1 - v2"
            && Read(ExprTokens(right, AsWritten)) == Some(left)
            && EmitExpr(right, LeftAssociative) == "v0 - (v1 - v2)"
            && EmitConstraint(Constraint.Pred(Pred.Expr(right)), 0, AsWritten)
               == EmitConstraint(Constraint.Pred(Pred.Expr(left)), 0, AsWritten)
  {
    var left := BinaryOp(Sub, BinaryOp(Sub, Variable(0), Variable(1)), Variable(2));
    SubtractionTokens();
    ReadBack(left);
    SpellFlat();
    SpellNested();
  }

  lemma SubtractionTokens()
    ensures var right := BinaryOp(Sub, Variable(0), BinaryOp(Sub, Variable(1), Variable(2)));
            var left := BinaryOp(Sub, BinaryOp(Sub, Variable(0), Variable(1)), Variable(2));
            && ExprTokens(right, AsWritten) == [TVar(0), TBin(Sub), TVar(1), TBin(Sub), TVar(2)]
            && ExprTokens(left, AsWritten) == [TVar(0), TBin(Sub), TVar(1), TBin(Sub), TVar(2)]
            && Tokens(left) == [TVar(0), TBin(Sub), TVar(1), TBin(Sub), TVar(2)]
            && Tokens(right) == [TVar(0), TBin(Sub), LParen, TVar(1), TBin(Sub), TVar(2), RParen]
  {
    var v0, v1, v2 := Variable(0), Variable(1), Variable(2);
    assert ExprTokens(BinaryOp(Sub, v1, v2), AsWritten) == [TVar(1), TBin(Sub), TVar(2)];
    assert ExprTokens(BinaryOp(Sub, v1, v2), LeftAssociative) == [TVar(1), TBin(Sub), TVar(2)];
    assert ExprTokens(BinaryOp(Sub, v0, v1), AsWritten) == [TVar(0), TBin(Sub), TVar(1)];
    assert ExprTokens(BinaryOp(Sub, v0, v1), LeftAssociative) == [TVar(0), TBin(Sub), TVar(1)];
  }

  lemma SmallNames()
    ensures VarName(0) == "v0" && VarName(1) == "v1" && VarName(2) == "v2"
  {
    assert Text.NatStr(0) == "0" && Text.NatStr(1) == "1" && Text.NatStr(2) == "2";
  }

  lemma SpellCons(t: Token, ts: seq<Token>)
    ensures Spell([t] + ts) == TokenText(t) + Spell(ts)
  {
    assert ([t] + ts)[0] == t && ([t] + ts)[1..] == ts;
  }

  lemma SpellFlat()
    ensures Spell([TVar(0), TBin(Sub), TVar(1), TBin(Sub), TVar(2)]) == "v0 - v1 - v2"
  {
    SmallNames();
    SpellCons(TVar(2), []);
    SpellCons(TBin(Sub), [TVar(2)]);
    SpellCons(TVar(1), [TBin(Sub), TVar(2)]);
    SpellCons(TBin(Sub), [TVar(1), TBin(Sub), TVar(2)]);
    SpellCons(TVar(0), [TBin(Sub), TVar(1), TBin(Sub), TVar(2)]);
  }

  lemma SpellNested()
    ensures Spell([TVar(0), TBin(Sub), LParen, TVar(1), TBin(Sub), TVar(2), RParen]) == "v0 - (v1 - v2)"
  {
    SpellNestedOperator();
    SmallNames();
    SpellCons(TVar(0), [TBin(Sub), LParen, TVar(1), TBin(Sub), TVar(2), RParen]);
  }

  lemma SpellNestedOperator()
    ensures Spell([TBin(Sub), LParen, TVar(1), TBin(Sub), TVar(2), RParen]) == " - (v1 - v2)"
  {
    SpellNestedOperand();
    SpellCons(TBin(Sub), [LParen, TVar(1), TBin(Sub), TVar(2), RParen]);
  }

  lemma SpellNestedOperand()
    ensures Spell([LParen, TVar(1), TBin(Sub), TVar(2), RParen]) == "(v1 - v2)"
  {
    SpellClosed();
    SpellCons(LParen, [TVar(1), TBin(Sub), TVar(2), RParen]);
  }

  lemma SpellClosed()
    ensures Spell([TVar(1), TBin(Sub), TVar(2), RParen]) == "v1 - v2)"
  {
    SpellFlatInner();
    SpellCons(RParen, []);
    SpellAppend([TVar(1), TBin(Sub), TVar(2)], [RParen]);
    assert [TVar(1), TBin(Sub), TVar(2)] + [RParen] == [TVar(1), TBin(Sub), TVar(2), RParen];
  }

  lemma SpellFlatInner()
    ensures Spell([TVar(1), TBin(Sub), TVar(2)]) == "v1 - v2"
  {
    SmallNames();
    SpellCons(TVar(2), []);
    SpellCons(TBin(Sub), [TVar(2)]);
    SpellCons(TVar(1), [TBin(Sub), TVar(2)]);
  }
}
