/**
 * The parser of parser.go as it runs: mutually recursive methods that read
 * and consume a shared TokenStream.  Each method returns the node the Go
 * function leaves in its parent (or returns), or the panic it raises, and is
 * proved to agree with the production of the same name in Grammar.
 */
module Parser {
  import opened Wrappers
  import opened Lexer
  import opened Ast
  import Grammar

  /**
   * r and the stream left behind are what the production spec describes:
   * the same node and the same remaining tokens, or the same panic.
   */
  predicate Agrees<T(==)>(spec: Result<Grammar.Parsed<T>>, r: Result<T>, rest: seq<Token>) {
    match spec
    case Ok(p) => r == Ok(p.node) && rest == p.rest
    case Panic(f) => r == Panic(f)
  }

  /** Parses an expression from the stream and reduces the tree. */
  method Parse(ts: TokenStream) returns (r: Result<AstNode>)
    modifies ts
    ensures Agrees(Grammar.Parse(old(ts.values)), r, ts.values)
  {
    var root :- Expr(ts);
    r := Reduce(root);
  }

  method Expr(ts: TokenStream) returns (r: Result<AstNode>)
    modifies ts
    ensures Agrees(Grammar.Expr(old(ts.values)), r, ts.values)
    decreases |ts.values|, 7
  {
    r := AddSubExpr(ts);
  }

  method AddSubExpr(ts: TokenStream) returns (r: Result<AstNode>)
    modifies ts
    ensures Agrees(Grammar.AddSubExpr(old(ts.values)), r, ts.values)
    decreases |ts.values|, 6
  {
    var node :- MulDivExpr(ts);
    var tail :- AddSubExprTail(node, ts);
    r := Ok(Wrap(tail));
  }

  method AddSubExprTail(acc: AstNode, ts: TokenStream) returns (r: Result<AstNode>)
    modifies ts
    ensures Agrees(Grammar.AddSubExprTail(acc, old(ts.values)), r, ts.values)
    decreases |ts.values|, 5
  {
    var empty := ts.Empty();
    if empty {
      return Ok(acc);
    }
    var next := ts.Peek();
    if next.value.kind != Plus && next.value.kind != Minus {
      return Ok(acc);
    }
    var op := ts.Pop();
    ghost var after := ts.values;
    var right :- MulDivExpr(ts);
    assert |ts.values| <= |after|;
    r := AddSubExprTail(AstNode(op.value.value, Some(acc), Some(right)), ts);
  }

  method MulDivExpr(ts: TokenStream) returns (r: Result<AstNode>)
    modifies ts
    ensures Agrees(Grammar.MulDivExpr(old(ts.values)), r, ts.values)
    decreases |ts.values|, 4
  {
    var node :- PowExpr(ts);
    var tail :- MulDivExprTail(node, ts);
    r := Ok(Wrap(tail));
  }

  method MulDivExprTail(acc: AstNode, ts: TokenStream) returns (r: Result<AstNode>)
    modifies ts
    ensures Agrees(Grammar.MulDivExprTail(acc, old(ts.values)), r, ts.values)
    decreases |ts.values|, 3
  {
    var empty := ts.Empty();
    if empty {
      return Ok(acc);
    }
    var next := ts.Peek();
    if next.value.kind != Mult && next.value.kind != Div {
      return Ok(acc);
    }
    var op := ts.Pop();
    ghost var after := ts.values;
    var right :- PowExpr(ts);
    assert |ts.values| <= |after|;
    r := MulDivExprTail(AstNode(op.value.value, Some(acc), Some(right)), ts);
  }

  method PowExpr(ts: TokenStream) returns (r: Result<AstNode>)
    modifies ts
    ensures Agrees(Grammar.PowExpr(old(ts.values)), r, ts.values)
    decreases |ts.values|, 2
  {
    var next :- ts.Peek();
    if next.kind == Minus {
      var op := ts.Pop();
      var operand :- ParenExpr(ts);
      r := Ok(Wrap(AstNode(op.value.value, Some(operand), None)));
    } else {
      var left :- ParenExpr(ts);
      var right :- PowExprTail(ts);
      match right
      case Some(exponent) =>
        r := Ok(Wrap(AstNode(PowLabel, Some(left), Some(exponent))));
      case None =>
        r := Ok(Wrap(left));
    }
  }

  method PowExprTail(ts: TokenStream) returns (r: Result<Option<AstNode>>)
    modifies ts
    ensures Agrees(Grammar.PowExprTail(old(ts.values)), r, ts.values)
    decreases |ts.values|, 1
  {
    var empty := ts.Empty();
    if empty {
      return Ok(None);
    }
    var next := ts.Peek();
    if next.value.kind != Pow {
      return Ok(None);
    }
    var op := ts.Pop();
    ghost var after := ts.values;
    var left :- ParenExpr(ts);
    assert |ts.values| < |after|;
    var right :- PowExprTail(ts);
    match right
    case Some(exponent) =>
      r := Ok(Some(AstNode(PowLabel, Some(left), Some(exponent))));
    case None =>
      r := Ok(Some(left));
  }

  method ParenExpr(ts: TokenStream) returns (r: Result<AstNode>)
    modifies ts
    ensures Agrees(Grammar.ParenExpr(old(ts.values)), r, ts.values)
    decreases |ts.values|, 0
  {
    var next :- ts.Peek();
    if next.kind == OpenParen {
      var open := ts.Pop();
      var inner :- Expr(ts);
      var close :- ts.Pop();
      r := Ok(inner);
    } else {
      var number := ts.Pop();
      r := Ok(Leaf(number.value.value));
    }
  }
}
