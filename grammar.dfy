/**
 * The recursive-descent parser of parser.go as functions from a token
 * sequence to the node a production builds and the tokens it leaves.
 *
 * Each Go production takes a freshly allocated, empty parent node and fills
 * it in; here it returns the node that parent becomes.  A Peek or Pop on an
 * exhausted stream is the panic IndexOutOfRange.
 */
module Grammar {
  import opened Wrappers
  import opened Bytes
  import opened Lexer
  import opened Ast

  datatype Parsed<T> = Parsed(node: T, rest: seq<Token>)

  /** rest is what is left of toks once a prefix has been consumed. */
  predicate IsSuffix(rest: seq<Token>, toks: seq<Token>) {
    |rest| <= |toks| && rest == toks[|toks| - |rest|..]
  }

  /** The next token, if any, is not of one of the given kinds. */
  predicate StopsBefore(rest: seq<Token>, kinds: set<TokenType>) {
    rest == [] || rest[0].kind !in kinds
  }

  lemma SuffixTransitive(a: seq<Token>, b: seq<Token>, c: seq<Token>)
    requires IsSuffix(a, b) && IsSuffix(b, c)
    ensures IsSuffix(a, c)
  {
    assert c[|c| - |b|..][|b| - |a|..] == c[|c| - |a|..];
  }

  /** Every lexeme is non-empty, as for every token the lexer makes. */
  predicate NonEmptyLexemes(toks: seq<Token>) {
    forall i :: 0 <= i < |toks| ==> toks[i].value != []
  }

  lemma SuffixKeepsLexemes(rest: seq<Token>, toks: seq<Token>)
    requires IsSuffix(rest, toks)
    ensures NonEmptyLexemes(toks) ==> NonEmptyLexemes(rest)
  {
    if NonEmptyLexemes(toks) {
      forall i | 0 <= i < |rest| ensures rest[i].value != [] {
        assert rest[i] == toks[|toks| - |rest| + i];
      }
    }
  }

  /** The tokens the lexer makes all have a lexeme. */
  lemma TokensHaveLexemes(s: seq<byte>)
    ensures NonEmptyLexemes(Tokens(s))
  {
    TokensLexS(s);
    forall i | 0 <= i < |Tokens(s)| ensures Tokens(s)[i].value != [] {
      assert WellFormed(Tokens(s)[i]);
    }
  }

  /** expr ::= addSubExpr */
  function Expr(toks: seq<Token>): (r: Result<Parsed<AstNode>>)
    ensures r.Ok? ==> IsSuffix(r.value.rest, toks) && StopsBefore(r.value.rest, {Plus, Minus, Mult, Div})
    ensures r.Ok? && NonEmptyLexemes(toks) ==> EmptyOnlyInWraps(r.value.node)
    decreases |toks|, 7
  {
    AddSubExpr(toks)
  }

  /** addSubExpr ::= mulDivExpr addSubExprTail */
  function AddSubExpr(toks: seq<Token>): (r: Result<Parsed<AstNode>>)
    ensures r.Ok? ==> IsSuffix(r.value.rest, toks) && StopsBefore(r.value.rest, {Plus, Minus, Mult, Div})
    ensures r.Ok? && NonEmptyLexemes(toks) ==> EmptyOnlyInWraps(r.value.node)
    decreases |toks|, 6
  {
    var first :- MulDivExpr(toks);
    SuffixKeepsLexemes(first.rest, toks);
    var tail :- AddSubExprTail(first.node, first.rest);
    Ok(Parsed(Wrap(tail.node), tail.rest))
  }

  /**
   * addSubExprTail ::= ('+' | '-') mulDivExpr addSubExprTail | empty
   * Each operator found makes a new node whose left child is the tree built
   * so far: the chain folds to the left.
   */
  function AddSubExprTail(acc: AstNode, toks: seq<Token>): (r: Result<Parsed<AstNode>>)
    ensures r.Ok? ==> IsSuffix(r.value.rest, toks) && StopsBefore(r.value.rest, {Plus, Minus})
    ensures r.Ok? && StopsBefore(toks, {Mult, Div}) ==> StopsBefore(r.value.rest, {Mult, Div})
    ensures r.Ok? && NonEmptyLexemes(toks) && EmptyOnlyInWraps(acc) ==> EmptyOnlyInWraps(r.value.node)
    decreases |toks|, 5
  {
    if toks == [] || toks[0].kind !in {Plus, Minus} then Ok(Parsed(acc, toks))
    else
      var right :- MulDivExpr(toks[1..]);
      SuffixKeepsLexemes(toks[1..], toks);
      SuffixKeepsLexemes(right.rest, toks[1..]);
      var node := AstNode(toks[0].value, Some(acc), Some(right.node));
      var r' := AddSubExprTail(node, right.rest);
      if r'.Panic? then r'
      else
        SuffixTransitive(right.rest, toks[1..], toks);
        SuffixTransitive(r'.value.rest, right.rest, toks);
        r'
  }

  /** mulDivExpr ::= powExpr mulDivExprTail */
  function MulDivExpr(toks: seq<Token>): (r: Result<Parsed<AstNode>>)
    ensures r.Ok? ==> IsSuffix(r.value.rest, toks) && StopsBefore(r.value.rest, {Mult, Div})
    ensures r.Ok? && NonEmptyLexemes(toks) ==> EmptyOnlyInWraps(r.value.node)
    decreases |toks|, 4
  {
    var first :- PowExpr(toks);
    SuffixKeepsLexemes(first.rest, toks);
    var tail :- MulDivExprTail(first.node, first.rest);
    Ok(Parsed(Wrap(tail.node), tail.rest))
  }

  /** mulDivExprTail ::= ('*' | '/') powExpr mulDivExprTail | empty, folding to the left. */
  function MulDivExprTail(acc: AstNode, toks: seq<Token>): (r: Result<Parsed<AstNode>>)
    ensures r.Ok? ==> IsSuffix(r.value.rest, toks) && StopsBefore(r.value.rest, {Mult, Div})
    ensures r.Ok? && NonEmptyLexemes(toks) && EmptyOnlyInWraps(acc) ==> EmptyOnlyInWraps(r.value.node)
    decreases |toks|, 3
  {
    if toks == [] || toks[0].kind !in {Mult, Div} then Ok(Parsed(acc, toks))
    else
      var right :- PowExpr(toks[1..]);
      SuffixKeepsLexemes(toks[1..], toks);
      SuffixKeepsLexemes(right.rest, toks[1..]);
      var node := AstNode(toks[0].value, Some(acc), Some(right.node));
      var r' := MulDivExprTail(node, right.rest);
      if r'.Panic? then r'
      else
        SuffixTransitive(right.rest, toks[1..], toks);
        SuffixTransitive(r'.value.rest, right.rest, toks);
        r'
  }

  /**
   * powExpr ::= '-' parenExpr | parenExpr powExprTail
   * A leading '-' negates the following parenExpr alone; no '^' is looked for
   * after it.  Otherwise a "^" node joins the operand to the tail, if any.
   */
  function PowExpr(toks: seq<Token>): (r: Result<Parsed<AstNode>>)
    ensures r.Ok? ==> IsSuffix(r.value.rest, toks) && |r.value.rest| < |toks|
    ensures r.Ok? && NonEmptyLexemes(toks) ==> EmptyOnlyInWraps(r.value.node)
    decreases |toks|, 2
  {
    if toks == [] then Panic(IndexOutOfRange)
    else if toks[0].kind == Minus then
      var operand :- ParenExpr(toks[1..]);
      SuffixKeepsLexemes(toks[1..], toks);
      Ok(Parsed(Wrap(AstNode(toks[0].value, Some(operand.node), None)), operand.rest))
    else
      var left :- ParenExpr(toks);
      SuffixKeepsLexemes(left.rest, toks);
      var right :- PowExprTail(left.rest);
      SuffixTransitive(right.rest, left.rest, toks);
      match right.node
      case Some(exponent) => Ok(Parsed(Wrap(AstNode(PowLabel, Some(left.node), Some(exponent))), right.rest))
      case None => Ok(Parsed(Wrap(left.node), right.rest))
  }

  /**
   * powExprTail ::= '^' parenExpr powExprTail | empty
   * Gives nil when no '^' follows, so that the chain nests to the right.
   */
  function PowExprTail(toks: seq<Token>): (r: Result<Parsed<Option<AstNode>>>)
    ensures r.Ok? ==> IsSuffix(r.value.rest, toks) && StopsBefore(r.value.rest, {Pow})
    ensures r.Ok? ==> (r.value.node.None? <==> r.value.rest == toks)
    ensures r.Ok? && r.value.node.Some? && NonEmptyLexemes(toks) ==> EmptyOnlyInWraps(r.value.node.value)
    decreases |toks|, 1
  {
    if toks == [] || toks[0].kind != Pow then Ok(Parsed(None, toks))
    else
      var left :- ParenExpr(toks[1..]);
      SuffixKeepsLexemes(toks[1..], toks); SuffixKeepsLexemes(left.rest, toks[1..]);
      var right :- PowExprTail(left.rest);
      SuffixTransitive(left.rest, toks[1..], toks);
      SuffixTransitive(right.rest, left.rest, toks);
      match right.node
      case Some(exponent) => Ok(Parsed(Some(AstNode(PowLabel, Some(left.node), Some(exponent))), right.rest))
      case None => Ok(Parsed(Some(left.node), right.rest))
  }

  /**
   * parenExpr ::= '(' expr ')' | NUMBER
   * After the inner expression one token is popped whatever it is; any other
   * token becomes a leaf labelled with its lexeme.
   */
  function ParenExpr(toks: seq<Token>): (r: Result<Parsed<AstNode>>)
    ensures r.Ok? ==> IsSuffix(r.value.rest, toks) && |r.value.rest| < |toks|
    ensures r.Ok? && NonEmptyLexemes(toks) ==> EmptyOnlyInWraps(r.value.node)
    decreases |toks|, 0
  {
    if toks == [] then Panic(IndexOutOfRange)
    else if toks[0].kind == OpenParen then
      SuffixKeepsLexemes(toks[1..], toks);
      var inner :- Expr(toks[1..]);
      if inner.rest == [] then Panic(IndexOutOfRange)
      else Ok(Parsed(inner.node, inner.rest[1..]))
    else
      Ok(Parsed(Leaf(toks[0].value), toks[1..]))
  }

  /**
   * Parses an expression from the front of toks and reduces the tree.  The
   * tokens after the expression are left unread.
   */
  function Parse(toks: seq<Token>): (r: Result<Parsed<AstNode>>)
    ensures r.Ok? ==> IsSuffix(r.value.rest, toks) && StopsBefore(r.value.rest, {Plus, Minus, Mult, Div})
    ensures r.Ok? ==> Reduced(r.value.node)
    ensures NonEmptyLexemes(toks) ==> (r.Ok? <==> Expr(toks).Ok?)
    ensures r.Ok? && NonEmptyLexemes(toks) ==> NoEmptyLabels(r.value.node)
  {
    var root :- Expr(toks);
    var tree :- Reduce(root.node);
    Ok(Parsed(tree, root.rest))
  }
}
