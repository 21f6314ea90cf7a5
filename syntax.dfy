/**
 * The expressions the grammar at the head of parser.go describes, as an
 * abstract syntax: each expression is its printed token sequence, the
 * reduced tree the parser is meant to build for it, and its value.  These
 * are the reference the parser and evaluator are measured against.
 *
 *   sum    ::= term (('+' | '-') term)*
 *   term   ::= factor (('*' | '/') factor)*
 *   factor ::= atom ('^' atom)* | '-' atom
 *   atom   ::= NUMBER | '(' sum ')'
 */
module Syntax {
  import opened Wrappers
  import opened Bytes
  import opened GoArith
  import opened Lexer
  import opened Ast

  datatype AddOp = Add | Subtract
  datatype MulOp = Multiply | Divide

  datatype Sum = Sum(first: Term, rest: SumTail)
  datatype SumTail = SumEnd | SumLink(op: AddOp, term: Term, next: SumTail)
  datatype Term = Term(first: Factor, rest: TermTail)
  datatype TermTail = TermEnd | TermLink(op: MulOp, factor: Factor, next: TermTail)
  /** A power chain base ^ e1 ^ ... ^ ek (k may be 0), or a negated atom. */
  datatype Factor = Power(base: Atom, exponents: PowTail) | Negation(operand: Atom)
  datatype PowTail = PowEnd | PowLink(exponent: Atom, next: PowTail)
  datatype Atom = Literal(n: nat) | Group(inner: Sum)

  /** The token an operator or parenthesis is lexed to. */
  function SymbolToken(k: TokenType): Token
    requires k != Number
  {
    Token(k, [Symbol(k)])
  }

  function AddKind(op: AddOp): TokenType {
    match op
    case Add => Plus
    case Subtract => Minus
  }

  function MulKind(op: MulOp): TokenType {
    match op
    case Multiply => Mult
    case Divide => Div
  }

  // ---------------------------------------------------------------- tokens

  function SumTokens(e: Sum): seq<Token>
    decreases e
  {
    TermTokens(e.first) + SumTailTokens(e.rest)
  }

  function SumTailTokens(t: SumTail): seq<Token>
    decreases t
  {
    match t
    case SumEnd => []
    case SumLink(op, term, next) => [SymbolToken(AddKind(op))] + TermTokens(term) + SumTailTokens(next)
  }

  function TermTokens(t: Term): seq<Token>
    decreases t
  {
    FactorTokens(t.first) + TermTailTokens(t.rest)
  }

  function TermTailTokens(t: TermTail): seq<Token>
    decreases t
  {
    match t
    case TermEnd => []
    case TermLink(op, factor, next) => [SymbolToken(MulKind(op))] + FactorTokens(factor) + TermTailTokens(next)
  }

  function FactorTokens(f: Factor): seq<Token>
    decreases f
  {
    match f
    case Power(base, exponents) => AtomTokens(base) + PowTailTokens(exponents)
    case Negation(operand) => [SymbolToken(Minus)] + AtomTokens(operand)
  }

  function PowTailTokens(t: PowTail): seq<Token>
    decreases t
  {
    match t
    case PowEnd => []
    case PowLink(exponent, next) => [SymbolToken(Pow)] + AtomTokens(exponent) + PowTailTokens(next)
  }

  function AtomTokens(a: Atom): seq<Token>
    decreases a
  {
    match a
    case Literal(n) => [Token(Number, FormatNat(n))]
    case Group(inner) => [SymbolToken(OpenParen)] + SumTokens(inner) + [SymbolToken(CloseParen)]
  }

  // -------------------------------------------------------------- printing

  /** The expression written out as a byte string, with no spaces. */
  function Print(e: Sum): seq<byte>
    decreases e
  {
    PrintTerm(e.first) + PrintSumTail(e.rest)
  }

  function PrintSumTail(t: SumTail): seq<byte>
    decreases t
  {
    match t
    case SumEnd => []
    case SumLink(op, term, next) => [Symbol(AddKind(op))] + PrintTerm(term) + PrintSumTail(next)
  }

  function PrintTerm(t: Term): seq<byte>
    decreases t
  {
    PrintFactor(t.first) + PrintTermTail(t.rest)
  }

  function PrintTermTail(t: TermTail): seq<byte>
    decreases t
  {
    match t
    case TermEnd => []
    case TermLink(op, factor, next) => [Symbol(MulKind(op))] + PrintFactor(factor) + PrintTermTail(next)
  }

  function PrintFactor(f: Factor): seq<byte>
    decreases f
  {
    match f
    case Power(base, exponents) => PrintAtom(base) + PrintPowTail(exponents)
    case Negation(operand) => [MinusSign] + PrintAtom(operand)
  }

  function PrintPowTail(t: PowTail): seq<byte>
    decreases t
  {
    match t
    case PowEnd => []
    case PowLink(exponent, next) => [Caret] + PrintAtom(exponent) + PrintPowTail(next)
  }

  function PrintAtom(a: Atom): seq<byte>
    decreases a
  {
    match a
    case Literal(n) => FormatNat(n)
    case Group(inner) => [LeftParen] + Print(inner) + [RightParen]
  }

  // ----------------------------------------------------------------- trees

  function AddLabel(op: AddOp): seq<byte> {
    match op
    case Add => PlusLabel
    case Subtract => MinusLabel
  }

  function MulLabel(op: MulOp): seq<byte> {
    match op
    case Multiply => MultLabel
    case Divide => DivLabel
  }

  /** Terms joined by '+' and '-' associate to the left. */
  function SumTree(e: Sum): AstNode
    decreases e
  {
    SumFold(TermTree(e.first), e.rest)
  }

  function SumFold(acc: AstNode, t: SumTail): AstNode
    decreases t
  {
    match t
    case SumEnd => acc
    case SumLink(op, term, next) => SumFold(AstNode(AddLabel(op), Some(acc), Some(TermTree(term))), next)
  }

  /** Factors joined by '*' and '/' associate to the left. */
  function TermTree(t: Term): AstNode
    decreases t
  {
    TermFold(FactorTree(t.first), t.rest)
  }

  function TermFold(acc: AstNode, t: TermTail): AstNode
    decreases t
  {
    match t
    case TermEnd => acc
    case TermLink(op, factor, next) => TermFold(AstNode(MulLabel(op), Some(acc), Some(FactorTree(factor))), next)
  }

  /** '^' associates to the right; a negation is a "-" node with a left child only. */
  function FactorTree(f: Factor): AstNode
    decreases f
  {
    match f
    case Power(base, exponents) =>
      (match PowTailTree(exponents)
       case None => AtomTree(base)
       case Some(exponent) => AstNode(PowLabel, Some(AtomTree(base)), Some(exponent)))
    case Negation(operand) => AstNode(MinusLabel, Some(AtomTree(operand)), None)
  }

  /** The right operand of the first '^' of a chain, or None for an empty chain. */
  function PowTailTree(t: PowTail): Option<AstNode>
    decreases t
  {
    match t
    case PowEnd => None
    case PowLink(exponent, next) =>
      match PowTailTree(next)
      case None => Some(AtomTree(exponent))
      case Some(rest) => Some(AstNode(PowLabel, Some(AtomTree(exponent)), Some(rest)))
  }

  /** A literal is a leaf holding its digits; parentheses leave no node. */
  function AtomTree(a: Atom): AstNode
    decreases a
  {
    match a
    case Literal(n) => Leaf(FormatNat(n))
    case Group(inner) => SumTree(inner)
  }

  // ---------------------------------------------------------------- values

  /** Integer arithmetic as Go performs it: '/' truncates and panics on a zero divisor. */
  function AddValue(op: AddOp, a: int, b: int): int {
    match op
    case Add => a + b
    case Subtract => a - b
  }

  function MulValue(op: MulOp, a: int, b: int): Result<int> {
    match op
    case Multiply => Ok(a * b)
    case Divide => if b == 0 then Panic(DivideByZero) else Ok(Quo(a, b))
  }

  /** The value of an expression, operands left to right, or the panic it raises. */
  function SumValue(e: Sum): Result<int>
    decreases e
  {
    var v :- TermValue(e.first);
    SumFoldValue(v, e.rest)
  }

  function SumFoldValue(acc: int, t: SumTail): Result<int>
    decreases t
  {
    match t
    case SumEnd => Ok(acc)
    case SumLink(op, term, next) =>
      var v :- TermValue(term);
      SumFoldValue(AddValue(op, acc, v), next)
  }

  function TermValue(t: Term): Result<int>
    decreases t
  {
    var v :- FactorValue(t.first);
    TermFoldValue(v, t.rest)
  }

  function TermFoldValue(acc: int, t: TermTail): Result<int>
    decreases t
  {
    match t
    case TermEnd => Ok(acc)
    case TermLink(op, factor, next) =>
      var v :- FactorValue(factor);
      var w :- MulValue(op, acc, v);
      TermFoldValue(w, next)
  }

  function FactorValue(f: Factor): Result<int>
    decreases f
  {
    match f
    case Power(base, exponents) =>
      var b :- AtomValue(base);
      var e :- PowTailValue(exponents);
      (match e
       case None => Ok(b)
       case Some(x) => Ok(FloatPow(b, x)))
    case Negation(operand) =>
      var v :- AtomValue(operand);
      Ok(0 - v)
  }

  /** The value of the right operand of the first '^' of a chain, or None for an empty chain. */
  function PowTailValue(t: PowTail): Result<Option<int>>
    decreases t
  {
    match t
    case PowEnd => Ok(None)
    case PowLink(exponent, next) =>
      var b :- AtomValue(exponent);
      var e :- PowTailValue(next);
      (match e
       case None => Ok(Some(b))
       case Some(x) => Ok(Some(FloatPow(b, x))))
  }

  function AtomValue(a: Atom): Result<int>
    decreases a
  {
    match a
    case Literal(n) => Ok(n)
    case Group(inner) => SumValue(inner)
  }
}
