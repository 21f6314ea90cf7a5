/**
 * Evaluating the tree the parser builds for an expression gives the
 * expression's value (Syntax.SumValue): the same number, or the same panic.
 */
module Evaluation {
  import opened Wrappers
  import opened Bytes
  import opened GoArith
  import opened Ast
  import opened Syntax

  /** An evaluation seen as the value of a '^' chain: present, or the same panic. */
  function Lift(r: Result<int>): Result<Option<int>> {
    match r
    case Panic(f) => Panic(f)
    case Ok(v) => Ok(Some(v))
  }

  /** A number literal evaluates to the number it prints. */
  lemma LiteralEval(n: nat)
    ensures Eval(Leaf(FormatNat(n))) == Ok(n)
  {
    var d := FormatNat(n);
    assert IsDigit(d[0]);
    assert d != PlusLabel && d != MinusLabel && d != MultLabel && d != DivLabel && d != PowLabel && d != [];
    AtoiOfDigits(d);
    DecimalValueOfFormat(n);
  }

  lemma {:induction false} EvalSum(e: Sum)
    ensures Eval(SumTree(e)) == SumValue(e)
    decreases e
  {
    EvalTerm(e.first);
    EvalSumFold(TermTree(e.first), e.rest);
  }

  lemma {:induction false} EvalSumFold(acc: AstNode, t: SumTail)
    ensures Eval(acc).Panic? ==> Eval(SumFold(acc, t)) == Eval(acc)
    ensures Eval(acc).Ok? ==> Eval(SumFold(acc, t)) == SumFoldValue(Eval(acc).value, t)
    decreases t
  {
    match t
    case SumEnd =>
    case SumLink(op, term, next) =>
      EvalTerm(term);
      var node := AstNode(AddLabel(op), Some(acc), Some(TermTree(term)));
      EvalSumFold(node, next);
  }

  lemma {:induction false} EvalTerm(t: Term)
    ensures Eval(TermTree(t)) == TermValue(t)
    decreases t
  {
    EvalFactor(t.first);
    EvalTermFold(FactorTree(t.first), t.rest);
  }

  lemma {:induction false} EvalTermFold(acc: AstNode, t: TermTail)
    ensures Eval(acc).Panic? ==> Eval(TermFold(acc, t)) == Eval(acc)
    ensures Eval(acc).Ok? ==> Eval(TermFold(acc, t)) == TermFoldValue(Eval(acc).value, t)
    decreases t
  {
    match t
    case TermEnd =>
    case TermLink(op, factor, next) =>
      EvalFactor(factor);
      var node := AstNode(MulLabel(op), Some(acc), Some(FactorTree(factor)));
      EvalTermFold(node, next);
  }

  lemma {:induction false} EvalFactor(f: Factor)
    ensures Eval(FactorTree(f)) == FactorValue(f)
    decreases f
  {
    match f
    case Power(base, exponents) =>
      EvalAtom(base);
      EvalPowTail(exponents);
    case Negation(operand) =>
      EvalAtom(operand);
  }

  /** The '^' chain after a base: no node and no value when empty, else the same value. */
  lemma {:induction false} EvalPowTail(t: PowTail)
    ensures PowTailTree(t).None? <==> t.PowEnd?
    ensures t.PowEnd? ==> PowTailValue(t) == Ok(None)
    ensures t.PowLink? ==> PowTailValue(t) == Lift(Eval(PowTailTree(t).value))
    decreases t
  {
    match t
    case PowEnd =>
    case PowLink(exponent, next) =>
      EvalAtom(exponent);
      EvalPowTail(next);
  }

  lemma {:induction false} EvalAtom(a: Atom)
    ensures Eval(AtomTree(a)) == AtomValue(a)
    decreases a
  {
    match a
    case Literal(n) => LiteralEval(n);
    case Group(inner) => EvalSum(inner);
  }
}
