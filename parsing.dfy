/**
 * The parser builds the intended tree for every expression of the grammar:
 * '+' and '-' bind loosest and group to the left, then '*' and '/' (also to
 * the left), then '^' (grouping to the right), and a leading '-' negates
 * one atom.  Tokens after the expression are left unread as long as they do
 * not start with an operator.
 */
module Parsing {
  import opened Wrappers
  import opened Bytes
  import opened GoArith
  import opened Lexer
  import opened Ast
  import opened Grammar
  import opened Syntax

  /** Everything that can continue an expression: after it, parsing would go on. */
  const Operators: set<TokenType> := {Plus, Minus, Mult, Div, Pow}

  /** A production succeeded, left R unread, and its node reduces to tree. */
  predicate Yields(r: Result<Parsed<AstNode>>, tree: AstNode, R: seq<Token>) {
    r.Ok? && r.value.rest == R && Reduce(r.value.node) == Ok(tree)
  }

  /** The same for powExprTail, whose node is absent when no '^' follows. */
  predicate YieldsTail(r: Result<Parsed<Option<AstNode>>>, tree: Option<AstNode>, R: seq<Token>) {
    && r.Ok? && r.value.rest == R
    && (r.value.node.None? <==> tree.None?)
    && (r.value.node.Some? ==> Reduce(r.value.node.value) == Ok(tree.value))
  }

  // ------------------------------------------- one step of each production

  lemma ReduceWrap(x: AstNode)
    ensures Reduce(Wrap(x)) == Reduce(x)
  {
  }

  lemma ReduceBinary(op: seq<byte>, a: AstNode, b: AstNode, ta: AstNode, tb: AstNode)
    requires op != [] && Reduce(a) == Ok(ta) && Reduce(b) == Ok(tb)
    ensures Reduce(AstNode(op, Some(a), Some(b))) == Ok(AstNode(op, Some(ta), Some(tb)))
  {
    assert ReduceChild(Some(a)) == Ok(Some(ta));
    assert ReduceChild(Some(b)) == Ok(Some(tb));
  }

  lemma ExprStep(toks: seq<Token>, tree: AstNode, R: seq<Token>)
    requires MulDivExpr(toks).Ok?
    requires Yields(AddSubExprTail(MulDivExpr(toks).value.node, MulDivExpr(toks).value.rest), tree, R)
    ensures Yields(Expr(toks), tree, R)
  {
    var first := MulDivExpr(toks).value;
    ReduceWrap(AddSubExprTail(first.node, first.rest).value.node);
  }

  lemma AddSubExprTailStep(acc: AstNode, op: Token, toks: seq<Token>, tree: AstNode, R: seq<Token>)
    requires op.kind in {Plus, Minus} && MulDivExpr(toks).Ok?
    requires
      var right := MulDivExpr(toks).value;
      Yields(AddSubExprTail(AstNode(op.value, Some(acc), Some(right.node)), right.rest), tree, R)
    ensures Yields(AddSubExprTail(acc, [op] + toks), tree, R)
  {
    assert ([op] + toks)[1..] == toks;
  }

  lemma MulDivExprStep(toks: seq<Token>, tree: AstNode, R: seq<Token>)
    requires PowExpr(toks).Ok?
    requires Yields(MulDivExprTail(PowExpr(toks).value.node, PowExpr(toks).value.rest), tree, R)
    ensures Yields(MulDivExpr(toks), tree, R)
  {
    var first := PowExpr(toks).value;
    ReduceWrap(MulDivExprTail(first.node, first.rest).value.node);
  }

  lemma MulDivExprTailStep(acc: AstNode, op: Token, toks: seq<Token>, tree: AstNode, R: seq<Token>)
    requires op.kind in {Mult, Div} && PowExpr(toks).Ok?
    requires
      var right := PowExpr(toks).value;
      Yields(MulDivExprTail(AstNode(op.value, Some(acc), Some(right.node)), right.rest), tree, R)
    ensures Yields(MulDivExprTail(acc, [op] + toks), tree, R)
  {
    assert ([op] + toks)[1..] == toks;
  }

  /** The '^' node joining an operand to the tail, if there is one. */
  function PowNode(left: AstNode, tail: Option<AstNode>): AstNode {
    if tail.None? then left else AstNode(PowLabel, Some(left), Some(tail.value))
  }

  lemma PowExprStep(toks: seq<Token>, leftTree: AstNode, tailTree: Option<AstNode>, R: seq<Token>)
    requires toks != [] && toks[0].kind != Minus && ParenExpr(toks).Ok?
    requires Reduce(ParenExpr(toks).value.node) == Ok(leftTree)
    requires YieldsTail(PowExprTail(ParenExpr(toks).value.rest), tailTree, R)
    ensures Yields(PowExpr(toks), PowNode(leftTree, tailTree), R)
  {
    var left := ParenExpr(toks).value.node;
    var tail := PowExprTail(ParenExpr(toks).value.rest).value.node;
    if tail.Some? {
      ReduceBinary(PowLabel, left, tail.value, leftTree, tailTree.value);
      ReduceWrap(AstNode(PowLabel, Some(left), Some(tail.value)));
    } else {
      ReduceWrap(left);
    }
  }

  lemma PowExprTailStep(op: Token, toks: seq<Token>, leftTree: AstNode, tailTree: Option<AstNode>, R: seq<Token>)
    requires op.kind == Pow && ParenExpr(toks).Ok?
    requires Reduce(ParenExpr(toks).value.node) == Ok(leftTree)
    requires YieldsTail(PowExprTail(ParenExpr(toks).value.rest), tailTree, R)
    ensures YieldsTail(PowExprTail([op] + toks), Some(PowNode(leftTree, tailTree)), R)
  {
    assert ([op] + toks)[1..] == toks;
    var left := ParenExpr(toks).value.node;
    var tail := PowExprTail(ParenExpr(toks).value.rest).value.node;
    if tail.Some? {
      ReduceBinary(PowLabel, left, tail.value, leftTree, tailTree.value);
    }
  }

  // ------------------------------------------------------- the main result

  /** The final parse: the reduced tree of the expression, the trailing tokens untouched. */
  lemma ParseOfSum(e: Sum, R: seq<Token>)
    requires StopsBefore(R, Operators)
    ensures Parse(SumTokens(e) + R) == Ok(Parsed(SumTree(e), R))
  {
    ExprOfSum(e, R);
  }

  lemma {:induction false} ExprOfSum(e: Sum, R: seq<Token>)
    requires StopsBefore(R, Operators)
    ensures Yields(Expr(SumTokens(e) + R), SumTree(e), R)
    decreases e
  {
    var toks := SumTokens(e) + R;
    var R1 := SumTailTokens(e.rest) + R;
    assert toks == TermTokens(e.first) + R1;
    MulDivOfTerm(e.first, R1);
    var first := MulDivExpr(toks).value;
    SumTailParse(first.node, TermTree(e.first), e.rest, R);
    ExprStep(toks, SumTree(e), R);
  }

  lemma {:induction false} SumTailParse(acc: AstNode, accTree: AstNode, t: SumTail, R: seq<Token>)
    requires Reduce(acc) == Ok(accTree)
    requires StopsBefore(R, Operators)
    ensures Yields(AddSubExprTail(acc, SumTailTokens(t) + R), SumFold(accTree, t), R)
    decreases t, 1
  {
    if t.SumLink? {
      SumTailParseLink(acc, accTree, t, R);
    } else {
      assert SumTailTokens(t) + R == R;
    }
  }

  /** One operator of the chain: it makes the node for the tree so far and the next operand. */
  lemma {:induction false} SumTailParseLink(acc: AstNode, accTree: AstNode, t: SumTail, R: seq<Token>)
    requires t.SumLink?
    requires Reduce(acc) == Ok(accTree)
    requires StopsBefore(R, Operators)
    ensures Yields(AddSubExprTail(acc, SumTailTokens(t) + R), SumFold(accTree, t), R)
    decreases t, 0
  {
    var op := t.op;
    var term := t.term;
    var next := t.next;
    var opToken := SymbolToken(AddKind(op));
    var R1 := SumTailTokens(next) + R;
    var toks := TermTokens(term) + R1;
    assert SumTailTokens(t) + R == [opToken] + toks;
    assert Yields(MulDivExpr(toks), TermTree(term), R1) by {
      MulDivOfTerm(term, R1);
    }
    var right := MulDivExpr(toks).value;
    var node := AstNode(opToken.value, Some(acc), Some(right.node));
    var nodeTree := AstNode(AddLabel(op), Some(accTree), Some(TermTree(term)));
    assert Reduce(node) == Ok(nodeTree) by {
      ReduceBinary(AddLabel(op), acc, right.node, accTree, TermTree(term));
    }
    assert Yields(AddSubExprTail(node, R1), SumFold(accTree, t), R) by {
      SumTailParse(node, nodeTree, next, R);
    }
    AddSubExprTailStep(acc, opToken, toks, SumFold(accTree, t), R);
  }


  lemma {:induction false} MulDivOfTerm(t: Term, R: seq<Token>)
    requires StopsBefore(R, {Mult, Div, Pow})
    ensures Yields(MulDivExpr(TermTokens(t) + R), TermTree(t), R)
    decreases t
  {
    var toks := TermTokens(t) + R;
    var R1 := TermTailTokens(t.rest) + R;
    assert toks == FactorTokens(t.first) + R1;
    PowOfFactor(t.first, R1);
    var first := PowExpr(toks).value;
    TermTailParse(first.node, FactorTree(t.first), t.rest, R);
    MulDivExprStep(toks, TermTree(t), R);
  }

  lemma {:induction false} TermTailParse(acc: AstNode, accTree: AstNode, t: TermTail, R: seq<Token>)
    requires Reduce(acc) == Ok(accTree)
    requires StopsBefore(R, {Mult, Div, Pow})
    ensures Yields(MulDivExprTail(acc, TermTailTokens(t) + R), TermFold(accTree, t), R)
    decreases t, 1
  {
    if t.TermLink? {
      TermTailParseLink(acc, accTree, t, R);
    } else {
      assert TermTailTokens(t) + R == R;
    }
  }

  /** One operator of the chain: it makes the node for the tree so far and the next operand. */
  lemma {:induction false} TermTailParseLink(acc: AstNode, accTree: AstNode, t: TermTail, R: seq<Token>)
    requires t.TermLink?
    requires Reduce(acc) == Ok(accTree)
    requires StopsBefore(R, {Mult, Div, Pow})
    ensures Yields(MulDivExprTail(acc, TermTailTokens(t) + R), TermFold(accTree, t), R)
    decreases t, 0
  {
    var op := t.op;
    var factor := t.factor;
    var next := t.next;
    var opToken := SymbolToken(MulKind(op));
    var R1 := TermTailTokens(next) + R;
    var toks := FactorTokens(factor) + R1;
    assert TermTailTokens(t) + R == [opToken] + toks;
    assert Yields(PowExpr(toks), FactorTree(factor), R1) by {
      PowOfFactor(factor, R1);
    }
    var right := PowExpr(toks).value;
    var node := AstNode(opToken.value, Some(acc), Some(right.node));
    var nodeTree := AstNode(MulLabel(op), Some(accTree), Some(FactorTree(factor)));
    assert Reduce(node) == Ok(nodeTree) by {
      ReduceBinary(MulLabel(op), acc, right.node, accTree, FactorTree(factor));
    }
    assert Yields(MulDivExprTail(node, R1), TermFold(accTree, t), R) by {
      TermTailParse(node, nodeTree, next, R);
    }
    MulDivExprTailStep(acc, opToken, toks, TermFold(accTree, t), R);
  }


  lemma {:induction false} PowOfFactor(f: Factor, R: seq<Token>)
    requires StopsBefore(R, {Pow})
    ensures Yields(PowExpr(FactorTokens(f) + R), FactorTree(f), R)
    decreases f, 1
  {
    match f
    case Power(base, exponents) =>
      assert FactorTokens(f) + R == AtomTokens(base) + (PowTailTokens(exponents) + R);
      PowerParse(base, exponents, R);
    case Negation(operand) =>
      assert FactorTokens(f) + R == [SymbolToken(Minus)] + (AtomTokens(operand) + R);
      NegationParse(operand, R);
  }

  /** A power chain: the base, then the tail of '^' operands. */
  lemma {:induction false} PowerParse(base: Atom, exponents: PowTail, R: seq<Token>)
    requires StopsBefore(R, {Pow})
    ensures Yields(PowExpr(AtomTokens(base) + (PowTailTokens(exponents) + R)), FactorTree(Power(base, exponents)), R)
    decreases Power(base, exponents), 0
  {
    var R1 := PowTailTokens(exponents) + R;
    var toks := AtomTokens(base) + R1;
    AtomTokensStart(base, R1);
    assert Yields(ParenExpr(toks), AtomTree(base), R1) by {
      AtomParse(base, R1);
    }
    assert YieldsTail(PowExprTail(R1), PowTailTree(exponents), R) by {
      PowTailParse(exponents, R);
    }
    PowExprStep(toks, AtomTree(base), PowTailTree(exponents), R);
    assert FactorTree(Power(base, exponents)) == PowNode(AtomTree(base), PowTailTree(exponents));
  }

  /** A negation takes one atom and no '^' after it. */
  lemma {:induction false} NegationParse(operand: Atom, R: seq<Token>)
    ensures Yields(PowExpr([SymbolToken(Minus)] + (AtomTokens(operand) + R)), FactorTree(Negation(operand)), R)
    decreases Negation(operand), 0
  {
    var toks := AtomTokens(operand) + R;
    assert ([SymbolToken(Minus)] + toks)[1..] == toks;
    assert Yields(ParenExpr(toks), AtomTree(operand), R) by {
      AtomParse(operand, R);
    }
    var operandNode := ParenExpr(toks).value.node;
    var negation := AstNode(MinusLabel, Some(operandNode), None);
    assert ReduceChild(Some(operandNode)) == Ok(Some(AtomTree(operand)));
    assert Reduce(negation) == Ok(FactorTree(Negation(operand)));
    ReduceWrap(negation);
  }

  /** An operand that nothing continues is the whole expression. */
  lemma ParseOfOperand(toks: seq<Token>, tree: AstNode)
    requires toks != [] && toks[0].kind != Minus && ParenExpr(toks).Ok?
    requires Reduce(ParenExpr(toks).value.node) == Ok(tree)
    requires StopsBefore(ParenExpr(toks).value.rest, Operators)
    ensures Parse(toks) == Ok(Parsed(tree, ParenExpr(toks).value.rest))
  {
    var R := ParenExpr(toks).value.rest;
    PowExprStep(toks, tree, None, R);
    MulDivExprStep(toks, tree, R);
    ExprStep(toks, tree, R);
  }

  /**
   * After '(' and an expression, parenExpr pops the next token without
   * looking at it: any token that cannot continue the expression closes the
   * group, not only ')'.
   */
  lemma GroupClosedByAnyToken(inner: Sum, close: Token, R: seq<Token>)
    requires close.kind !in Operators
    ensures Yields(ParenExpr([SymbolToken(OpenParen)] + (SumTokens(inner) + ([close] + R))), SumTree(inner), R)
  {
    var toks := [SymbolToken(OpenParen)] + (SumTokens(inner) + ([close] + R));
    var R1 := [close] + R;
    assert toks[1..] == SumTokens(inner) + R1;
    ExprOfSum(inner, R1);
    assert R1[1..] == R;
  }

  /** A group that is never closed runs off the end of the stream. */
  lemma UnclosedGroupPanics(inner: Sum)
    ensures ParenExpr([SymbolToken(OpenParen)] + SumTokens(inner)) == Panic(IndexOutOfRange)
  {
    var toks := [SymbolToken(OpenParen)] + SumTokens(inner);
    assert toks[1..] == SumTokens(inner) + [];
    ExprOfSum(inner, []);
  }

  /**
   * A negated atom followed by '^' is the whole expression: the parse is the
   * negation alone, and the '^' with everything after it is left unread.
   */
  lemma NegationLeavesPower(operand: Atom, R: seq<Token>)
    requires R != [] && R[0].kind == Pow
    ensures Parse(FactorTokens(Negation(operand)) + R) == Ok(Parsed(FactorTree(Negation(operand)), R))
  {
    var tree := FactorTree(Negation(operand));
    var toks := FactorTokens(Negation(operand)) + R;
    assert toks == [SymbolToken(Minus)] + (AtomTokens(operand) + R);
    NegationParse(operand, R);
    PowExprBeforePow(toks, tree, R);
  }

  /** A power-level operand followed by '^' ends the whole expression. */
  lemma PowExprBeforePow(toks: seq<Token>, tree: AstNode, R: seq<Token>)
    requires Yields(PowExpr(toks), tree, R) && R != [] && R[0].kind == Pow
    ensures Parse(toks) == Ok(Parsed(tree, R))
  {
    MulDivExprStep(toks, tree, R);
    ExprStep(toks, tree, R);
  }

  lemma {:induction false} PowTailParse(t: PowTail, R: seq<Token>)
    requires StopsBefore(R, {Pow})
    ensures YieldsTail(PowExprTail(PowTailTokens(t) + R), PowTailTree(t), R)
    decreases t, 1
  {
    if t.PowLink? {
      PowTailParseLink(t, R);
    } else {
      assert PowTailTokens(t) + R == R;
    }
  }

  /** One '^' of the chain: its operand, then the rest of the chain nested to the right. */
  lemma {:induction false} PowTailParseLink(t: PowTail, R: seq<Token>)
    requires t.PowLink? && StopsBefore(R, {Pow})
    ensures YieldsTail(PowExprTail(PowTailTokens(t) + R), PowTailTree(t), R)
    decreases t, 0
  {
    var exponent, next := t.exponent, t.next;
    var R1 := PowTailTokens(next) + R;
    var toks := AtomTokens(exponent) + R1;
    assert PowTailTokens(t) + R == [SymbolToken(Pow)] + toks;
    assert Yields(ParenExpr(toks), AtomTree(exponent), R1) by {
      AtomParse(exponent, R1);
    }
    assert YieldsTail(PowExprTail(R1), PowTailTree(next), R) by {
      PowTailParse(next, R);
    }
    PowExprTailStep(SymbolToken(Pow), toks, AtomTree(exponent), PowTailTree(next), R);
  }

  /** An atom starts with a number or an opening parenthesis, never with '-'. */
  lemma AtomTokensStart(a: Atom, R: seq<Token>)
    ensures AtomTokens(a) + R != [] && (AtomTokens(a) + R)[0].kind != Minus
  {
    assert (AtomTokens(a) + R)[0] == AtomTokens(a)[0];
  }

  lemma {:induction false} AtomParse(a: Atom, R: seq<Token>)
    ensures Yields(ParenExpr(AtomTokens(a) + R), AtomTree(a), R)
    decreases a
  {
    var toks := AtomTokens(a) + R;
    match a
    case Literal(n) =>
      assert toks[0] == Token(Number, FormatNat(n)) && toks[1..] == R;
    case Group(inner) =>
      var R1 := [SymbolToken(CloseParen)] + R;
      assert toks[0] == SymbolToken(OpenParen);
      assert toks[1..] == SumTokens(inner) + R1;
      ExprOfSum(inner, R1);
  }
}
