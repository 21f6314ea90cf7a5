/**
 * The program's own evaluator (main.go) and the pipeline main runs on its
 * argument: lex, parse, evaluate.  The value of every expression of the
 * reference grammar comes out of that pipeline unchanged.
 */
module Program {
  import opened Wrappers
  import opened Bytes
  import opened GoArith
  import opened Lexer
  import opened Ast
  import Grammar
  import Parser
  import opened Syntax
  import Parsing
  import Printing
  import Evaluation

  /**
   * main.go's package-level Eval: the same switch on the label as the method
   * of the tree node, written a second time.  It agrees with that method on
   * every tree, panics included.
   */
  function Eval(n: AstNode): (r: Result<int>)
    ensures r == Ast.Eval(n)
  {
    if n.value == PlusLabel then
      var a :- EvalChild(n.left);
      var b :- EvalChild(n.right);
      Ok(a + b)
    else if n.value == MinusLabel then
      if n.right.Some? then
        var a :- EvalChild(n.left);
        var b :- EvalChild(n.right);
        Ok(a - b)
      else
        var a :- EvalChild(n.left);
        Ok(0 - a)
    else if n.value == MultLabel then
      var a :- EvalChild(n.left);
      var b :- EvalChild(n.right);
      Ok(a * b)
    else if n.value == DivLabel then
      var a :- EvalChild(n.left);
      var b :- EvalChild(n.right);
      if b == 0 then Panic(DivideByZero) else Ok(Quo(a, b))
    else if n.value == PowLabel then
      var a :- EvalChild(n.left);
      var b :- EvalChild(n.right);
      Ok(FloatPow(a, b))
    else if n.value == [] then
      EvalChild(n.left)
    else
      Ok(Atoi(n.value))
  }

  function EvalChild(c: Option<AstNode>): (r: Result<int>)
    ensures r == Ast.EvalChild(c)
  {
    match c
    case None => Panic(NilDereference)
    case Some(n) => Eval(n)
  }

  /**
   * What main prints for its argument: the value of the tree Parse builds
   * from the lexed bytes.  Tokens after the parsed expression are ignored.
   */
  function Evaluate(expr: seq<byte>): Result<int> {
    var tree :- Grammar.Parse(Tokens(expr));
    Eval(tree.node)
  }

  /** The computation main performs on its argument, on the stream the lexer makes. */
  method Run(expr: seq<byte>) returns (r: Result<int>)
    ensures r == Evaluate(expr)
  {
    var tokens := Lex(expr);
    var tree :- Parser.Parse(tokens);
    r := Eval(tree);
  }

  /** Every expression of the reference grammar, written out, evaluates to its value. */
  lemma EvaluatePrinted(e: Sum)
    ensures Evaluate(Print(e)) == SumValue(e)
  {
    Printing.PrintLexes(e);
    assert SumTokens(e) + [] == SumTokens(e);
    Parsing.ParseOfSum(e, []);
    Evaluation.EvalSum(e);
  }

  /** A string of digits evaluates to its decimal value. */
  lemma EvaluateDigits(d: seq<byte>)
    requires |d| > 0 && AllDigits(d)
    ensures Evaluate(d) == Ok(DecimalValue(d))
  {
    DigitsAreOneToken(d);
    var toks := [Token(Number, d)];
    assert toks[1..] == [];
    assert Grammar.ParenExpr(toks) == Ok(Grammar.Parsed(Leaf(d), []));
    Parsing.ParseOfOperand(toks, Leaf(d));
    assert IsDigit(d[0]);
    AtoiOfDigits(d);
  }

  /**
   * Whatever the input, Parse of its tokens fails only where expr fails, and
   * the tree it returns is reduced and has no node with an empty label.
   */
  lemma ParsedTreeHasNoEmptyLabels(expr: seq<byte>)
    ensures Grammar.Parse(Tokens(expr)).Ok? <==> Grammar.Expr(Tokens(expr)).Ok?
    ensures Grammar.Parse(Tokens(expr)).Ok? ==>
      Reduced(Grammar.Parse(Tokens(expr)).value.node) && NoEmptyLabels(Grammar.Parse(Tokens(expr)).value.node)
  {
    Grammar.TokensHaveLexemes(expr);
  }

  /**
   * An operand that is not a number evaluates to 0 rather than failing.  The
   * lexer folds any byte that is not an operator, a space among them, into
   * the Number token that the digits after it extend.
   */
  lemma NonNumericOperandIsZero(s: seq<byte>)
    requires |s| > 0 && OperatorKind(s[0]).None? && !IsDigit(s[0]) && AllDigits(s[1..])
    ensures Evaluate(s) == Ok(0)
  {
    NumberIsOneToken(s);
    var toks := [Token(Number, s)];
    assert toks[1..] == [];
    assert Grammar.ParenExpr(toks) == Ok(Grammar.Parsed(Leaf(s), []));
    Parsing.ParseOfOperand(toks, Leaf(s));
    NonNumericLabelIsZero(Leaf(s));
  }

  // -------------------------------------------------------------- examples

  /** '-' groups to the left: 8-3-2 is (8-3)-2. */
  lemma SubtractionGroupsLeft()
    ensures Evaluate(Ascii("8-3-2")) == Ok(3)
  {
    var e := Sum(Term(Power(Literal(8), PowEnd), TermEnd),
                 SumLink(Subtract, Term(Power(Literal(3), PowEnd), TermEnd),
                 SumLink(Subtract, Term(Power(Literal(2), PowEnd), TermEnd), SumEnd)));
    assert Print(e) == Ascii("8-3-2");
    assert SumValue(e) == Ok(3);
    EvaluatePrinted(e);
  }

  /** '^' groups to the right: 2^3^2 is 2^(3^2). */
  lemma PowerGroupsRight()
    ensures Evaluate(Ascii("2^3^2")) == Ok(512)
  {
    var e := Sum(Term(Power(Literal(2), PowLink(Literal(3), PowLink(Literal(2), PowEnd))), TermEnd), SumEnd);
    assert Print(e) == Ascii("2^3^2");
    assert SumValue(e) == Ok(512);
    EvaluatePrinted(e);
  }

  /** '*' binds tighter than '+'. */
  lemma ProductBeforeSum()
    ensures Evaluate(Ascii("2+3*4")) == Ok(14)
  {
    var e := Sum(Term(Power(Literal(2), PowEnd), TermEnd),
                 SumLink(Add, Term(Power(Literal(3), PowEnd), TermLink(Multiply, Power(Literal(4), PowEnd), TermEnd)), SumEnd));
    assert Print(e) == Ascii("2+3*4");
    assert SumValue(e) == Ok(14);
    EvaluatePrinted(e);
  }

  /** Parentheses group a sum into one operand. */
  lemma ParenthesesGroup()
    ensures Evaluate(Ascii("(2+3)*4")) == Ok(20)
  {
    var inner := Sum(Term(Power(Literal(2), PowEnd), TermEnd),
                     SumLink(Add, Term(Power(Literal(3), PowEnd), TermEnd), SumEnd));
    var e := Sum(Term(Power(Group(inner), PowEnd), TermLink(Multiply, Power(Literal(4), PowEnd), TermEnd)), SumEnd);
    assert Print(e) == Ascii("(2+3)*4");
    assert SumValue(e) == Ok(20);
    EvaluatePrinted(e);
  }

  /** '/' truncates toward zero. */
  lemma DivisionTruncates()
    ensures Evaluate(Ascii("7/2")) == Ok(3)
  {
    var e := Sum(Term(Power(Literal(7), PowEnd), TermLink(Divide, Power(Literal(2), PowEnd), TermEnd)), SumEnd);
    assert Print(e) == Ascii("7/2");
    assert SumValue(e) == Ok(3) by {
      QuoUnique(7, 2, 3);
    }
    EvaluatePrinted(e);
  }

  /** '/' truncates toward zero for a negative dividend too, where Euclidean division would give -4. */
  lemma NegativeDivisionTruncates()
    ensures Evaluate(Ascii("-7/2")) == Ok(-3)
  {
    var e := Sum(Term(Negation(Literal(7)), TermLink(Divide, Power(Literal(2), PowEnd), TermEnd)), SumEnd);
    assert Print(e) == Ascii("-7/2");
    assert SumValue(e) == Ok(-3) by {
      QuoUnique(-7, 2, -3);
    }
    EvaluatePrinted(e);
  }

  /** A zero divisor is a runtime panic. */
  lemma DivisionByZeroPanics()
    ensures Evaluate(Ascii("1/0")) == Panic(DivideByZero)
  {
    var e := Sum(Term(Power(Literal(1), PowEnd), TermLink(Divide, Power(Literal(0), PowEnd), TermEnd)), SumEnd);
    assert Print(e) == Ascii("1/0");
    assert SumValue(e) == Panic(DivideByZero);
    EvaluatePrinted(e);
  }

  /** A leading '-' negates one atom: in -2^2 the ^2 is never read, and the result is -2. */
  lemma NegationBeforePower()
    ensures Evaluate(Ascii("-2^2")) == Ok(-2)
  {
    var f := Negation(Literal(2));
    var R := [SymbolToken(Pow), Token(Number, FormatNat(2))];
    var toks := FactorTokens(f) + R;
    assert Tokens(Ascii("-2^2")) == toks by {
      NegationBeforePowerSpelling();
      assert Printing.Lexable(toks) by {
        Printing.FactorLexable(f);
        Printing.LexableAppend(FactorTokens(f), R);
      }
      LexingIsUnique(toks, Ascii("-2^2"));
    }
    assert Grammar.Parse(toks) == Ok(Grammar.Parsed(FactorTree(f), R)) by {
      Parsing.NegationLeavesPower(Literal(2), R);
    }
    assert Ast.Eval(FactorTree(f)) == Ok(-2) by {
      Evaluation.EvalFactor(f);
    }
  }

  lemma NegationBeforePowerSpelling()
    ensures Concat(FactorTokens(Negation(Literal(2))) + [SymbolToken(Pow), Token(Number, FormatNat(2))]) == Ascii("-2^2")
  {
    var f := Negation(Literal(2));
    var R := [SymbolToken(Pow), Token(Number, FormatNat(2))];
    Printing.FactorSpelling(f);
    ConcatAppend(FactorTokens(f), R);
    ConcatAppend([R[0]], [R[1]]);
    assert [R[0]] + [R[1]] == R;
  }

  /** Spaces are not skipped: " 7" is the one Number token " 7", which evaluates to 0. */
  lemma LeadingSpaceIsZero()
    ensures Evaluate(Ascii(" 7")) == Ok(0)
  {
    var s := Ascii(" 7");
    assert s[0] == 32 && s[1..] == [55];
    NonNumericOperandIsZero(s);
  }

  /** The empty input panics: powExpr peeks at an empty stream. */
  lemma EmptyInputPanics()
    ensures Evaluate([]) == Panic(IndexOutOfRange)
  {
    assert Tokens([]) == [];
  }

  /** The expression 2, as a one-token sum. */
  function Two(): Sum {
    Sum(Term(Power(Literal(2), PowEnd), TermEnd), SumEnd)
  }

  /** Two tokens the lexer can make, written one after the other, lex back to themselves. */
  lemma LexTwo(a: Token, b: Token)
    requires WellFormed(a) && WellFormed(b)
    requires a.kind == Number ==> StartsWithNonDigit(b)
    ensures Tokens(a.value + b.value) == [a, b]
  {
    ConcatAppend([a], [b]);
    assert [a] + [b] == [a, b];
    LexingIsUnique([a, b], a.value + b.value);
  }

  /** The same for three tokens. */
  lemma LexThree(a: Token, b: Token, c: Token)
    requires WellFormed(a) && WellFormed(b) && WellFormed(c)
    requires a.kind == Number ==> StartsWithNonDigit(b)
    requires b.kind == Number ==> StartsWithNonDigit(c)
    ensures Tokens(a.value + b.value + c.value) == [a, b, c]
  {
    ConcatAppend([a], [b]);
    ConcatAppend([a] + [b], [c]);
    assert [a] + [b] + [c] == [a, b, c];
    LexingIsUnique([a, b, c], a.value + b.value + c.value);
  }

  /** The tokens of "(2" and "(2]": an open parenthesis, the number 2, and for the latter a one-byte Number "]". */
  function Open(): Token { SymbolToken(OpenParen) }
  function TwoToken(): Token { Token(Number, FormatNat(2)) }
  function Bracket(): Token { Token(Number, Ascii("]")) }

  /** A group needs some token after it: "(2" pops past the end of the stream. */
  lemma UnclosedGroup()
    ensures Evaluate(Ascii("(2")) == Panic(IndexOutOfRange)
  {
    UnclosedGroupLexing();
    UnclosedGroupParse();
  }

  lemma UnclosedGroupLexing()
    ensures Tokens(Ascii("(2")) == [Open(), TwoToken()]
  {
    assert Ascii("(2") == Open().value + TwoToken().value;
    LexTwo(Open(), TwoToken());
  }

  lemma UnclosedGroupParse()
    ensures Grammar.ParenExpr([Open(), TwoToken()]) == Panic(IndexOutOfRange)
  {
    assert [Open(), TwoToken()] == [Open()] + SumTokens(Two());
    Parsing.UnclosedGroupPanics(Two());
  }

  /** Whatever token follows the group closes it: "(2]" evaluates to 2. */
  lemma AnyTokenClosesGroup()
    ensures Evaluate(Ascii("(2]")) == Ok(2)
  {
    AnyTokenClosesGroupLexing();
    AnyTokenClosesGroupParse();
    Evaluation.EvalSum(Two());
  }

  lemma AnyTokenClosesGroupLexing()
    ensures Tokens(Ascii("(2]")) == [Open(), TwoToken(), Bracket()]
  {
    assert Ascii("(2]") == Open().value + TwoToken().value + Bracket().value;
    assert WellFormed(Bracket()) && StartsWithNonDigit(Bracket());
    LexThree(Open(), TwoToken(), Bracket());
  }

  lemma AnyTokenClosesGroupParse()
    ensures Grammar.Parse([Open(), TwoToken(), Bracket()]) == Ok(Grammar.Parsed(SumTree(Two()), []))
  {
    var toks := [Open(), TwoToken(), Bracket()];
    assert toks == [Open()] + (SumTokens(Two()) + ([Bracket()] + []));
    Parsing.GroupClosedByAnyToken(Two(), Bracket(), []);
    Parsing.ParseOfOperand(toks, SumTree(Two()));
  }
}
