/**
 * Printing an expression of the grammar and lexing the result gives back
 * exactly the expression's tokens: numbers are separated by operators or
 * parentheses, so the lexer never glues two of them together.
 */
module Printing {
  import opened Bytes
  import opened GoArith
  import opened Lexer
  import opened Syntax

  /** Every token is one the lexer can make, and no Number is directly followed by a digit. */
  predicate Lexable(toks: seq<Token>) {
    && (forall i :: 0 <= i < |toks| ==> WellFormed(toks[i]))
    && (forall i :: 0 <= i < |toks| - 1 && toks[i].kind == Number ==> StartsWithNonDigit(toks[i + 1]))
  }

  /** The tokens of a well-formed expression lex back from its printed form. */
  lemma PrintLexes(e: Sum)
    ensures Tokens(Print(e)) == SumTokens(e)
  {
    SumLexable(e);
    SumSpelling(e);
    LexingIsUnique(SumTokens(e), Print(e));
  }

  // ------------------------------------------- the tokens spell the print

  lemma {:induction false} SumSpelling(e: Sum)
    ensures Concat(SumTokens(e)) == Print(e)
    decreases e
  {
    TermSpelling(e.first);
    SumTailSpelling(e.rest);
    ConcatAppend(TermTokens(e.first), SumTailTokens(e.rest));
  }

  lemma {:induction false} SumTailSpelling(t: SumTail)
    ensures Concat(SumTailTokens(t)) == PrintSumTail(t)
    decreases t
  {
    match t
    case SumEnd =>
    case SumLink(op, term, next) =>
      var sym := [SymbolToken(AddKind(op))];
      TermSpelling(term);
      SumTailSpelling(next);
      ConcatAppend(sym, TermTokens(term));
      ConcatAppend(sym + TermTokens(term), SumTailTokens(next));
  }

  lemma {:induction false} TermSpelling(t: Term)
    ensures Concat(TermTokens(t)) == PrintTerm(t)
    decreases t
  {
    FactorSpelling(t.first);
    TermTailSpelling(t.rest);
    ConcatAppend(FactorTokens(t.first), TermTailTokens(t.rest));
  }

  lemma {:induction false} TermTailSpelling(t: TermTail)
    ensures Concat(TermTailTokens(t)) == PrintTermTail(t)
    decreases t
  {
    match t
    case TermEnd =>
    case TermLink(op, factor, next) =>
      var sym := [SymbolToken(MulKind(op))];
      FactorSpelling(factor);
      TermTailSpelling(next);
      ConcatAppend(sym, FactorTokens(factor));
      ConcatAppend(sym + FactorTokens(factor), TermTailTokens(next));
  }

  lemma {:induction false} FactorSpelling(f: Factor)
    ensures Concat(FactorTokens(f)) == PrintFactor(f)
    decreases f
  {
    match f
    case Power(base, exponents) =>
      AtomSpelling(base);
      PowTailSpelling(exponents);
      ConcatAppend(AtomTokens(base), PowTailTokens(exponents));
    case Negation(operand) =>
      AtomSpelling(operand);
      ConcatAppend([SymbolToken(Minus)], AtomTokens(operand));
  }

  lemma {:induction false} PowTailSpelling(t: PowTail)
    ensures Concat(PowTailTokens(t)) == PrintPowTail(t)
    decreases t
  {
    match t
    case PowEnd =>
    case PowLink(exponent, next) =>
      var sym := [SymbolToken(Pow)];
      AtomSpelling(exponent);
      PowTailSpelling(next);
      ConcatAppend(sym, AtomTokens(exponent));
      ConcatAppend(sym + AtomTokens(exponent), PowTailTokens(next));
  }

  lemma {:induction false} AtomSpelling(a: Atom)
    ensures Concat(AtomTokens(a)) == PrintAtom(a)
    decreases a
  {
    match a
    case Literal(n) =>
    case Group(inner) =>
      var open, close := [SymbolToken(OpenParen)], [SymbolToken(CloseParen)];
      SumSpelling(inner);
      ConcatAppend(open, SumTokens(inner));
      ConcatAppend(open + SumTokens(inner), close);
  }

  /** Two lexable sequences join into one unless a Number would meet a Number. */
  lemma LexableAppend(a: seq<Token>, b: seq<Token>)
    requires Lexable(a) && Lexable(b)
    requires a == [] || b == [] || a[|a| - 1].kind != Number || b[0].kind != Number
    ensures Lexable(a + b)
  {
    var c := a + b;
    forall i | 0 <= i < |c| ensures WellFormed(c[i]) {
      if i < |a| { assert c[i] == a[i]; } else { assert c[i] == b[i - |a|]; }
    }
    forall i | 0 <= i < |c| - 1 && c[i].kind == Number ensures StartsWithNonDigit(c[i + 1]) {
      if i < |a| - 1 {
        assert c[i] == a[i] && c[i + 1] == a[i + 1];
      } else if i >= |a| {
        assert c[i] == b[i - |a|] && c[i + 1] == b[i - |a| + 1];
      } else {
        assert c[i + 1] == b[0] && WellFormed(b[0]);
      }
    }
  }

  lemma SymbolLexable(k: TokenType)
    requires k != Number
    ensures Lexable([SymbolToken(k)])
  {
  }

  lemma {:induction false} SumLexable(e: Sum)
    ensures Lexable(SumTokens(e)) && SumTokens(e) != []
    decreases e
  {
    TermLexable(e.first);
    SumTailLexable(e.rest);
    LexableAppend(TermTokens(e.first), SumTailTokens(e.rest));
  }

  lemma {:induction false} SumTailLexable(t: SumTail)
    ensures Lexable(SumTailTokens(t))
    ensures SumTailTokens(t) == [] || SumTailTokens(t)[0].kind != Number
    decreases t
  {
    match t
    case SumEnd =>
    case SumLink(op, term, next) =>
      SymbolLexable(AddKind(op));
      TermLexable(term);
      SumTailLexable(next);
      LexableAppend([SymbolToken(AddKind(op))], TermTokens(term));
      LexableAppend([SymbolToken(AddKind(op))] + TermTokens(term), SumTailTokens(next));
  }

  lemma {:induction false} TermLexable(t: Term)
    ensures Lexable(TermTokens(t)) && TermTokens(t) != []
    decreases t
  {
    FactorLexable(t.first);
    TermTailLexable(t.rest);
    LexableAppend(FactorTokens(t.first), TermTailTokens(t.rest));
  }

  lemma {:induction false} TermTailLexable(t: TermTail)
    ensures Lexable(TermTailTokens(t))
    ensures TermTailTokens(t) == [] || TermTailTokens(t)[0].kind != Number
    decreases t
  {
    match t
    case TermEnd =>
    case TermLink(op, factor, next) =>
      SymbolLexable(MulKind(op));
      FactorLexable(factor);
      TermTailLexable(next);
      LexableAppend([SymbolToken(MulKind(op))], FactorTokens(factor));
      LexableAppend([SymbolToken(MulKind(op))] + FactorTokens(factor), TermTailTokens(next));
  }

  lemma {:induction false} FactorLexable(f: Factor)
    ensures Lexable(FactorTokens(f)) && FactorTokens(f) != []
    decreases f
  {
    match f
    case Power(base, exponents) =>
      AtomLexable(base);
      PowTailLexable(exponents);
      LexableAppend(AtomTokens(base), PowTailTokens(exponents));
    case Negation(operand) =>
      SymbolLexable(Minus);
      AtomLexable(operand);
      LexableAppend([SymbolToken(Minus)], AtomTokens(operand));
  }

  lemma {:induction false} PowTailLexable(t: PowTail)
    ensures Lexable(PowTailTokens(t))
    ensures PowTailTokens(t) == [] || PowTailTokens(t)[0].kind != Number
    decreases t
  {
    match t
    case PowEnd =>
    case PowLink(exponent, next) =>
      SymbolLexable(Pow);
      AtomLexable(exponent);
      PowTailLexable(next);
      LexableAppend([SymbolToken(Pow)], AtomTokens(exponent));
      LexableAppend([SymbolToken(Pow)] + AtomTokens(exponent), PowTailTokens(next));
  }

  lemma {:induction false} AtomLexable(a: Atom)
    ensures Lexable(AtomTokens(a)) && AtomTokens(a) != []
    decreases a
  {
    match a
    case Literal(n) =>
      assert IsDigit(FormatNat(n)[0]);
    case Group(inner) =>
      SymbolLexable(OpenParen);
      SymbolLexable(CloseParen);
      SumLexable(inner);
      LexableAppend([SymbolToken(OpenParen)], SumTokens(inner));
      LexableAppend([SymbolToken(OpenParen)] + SumTokens(inner), [SymbolToken(CloseParen)]);
  }
}
