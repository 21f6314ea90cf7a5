/** The syntax tree, its placeholder-removing Reduce pass and its evaluator (ast.go). */
module Ast {
  import opened Wrappers
  import opened Bytes
  import opened GoArith

  /**
   * A tree node: a label and two optional children, each owned by this node
   * alone.  The label is an operator, a number literal, or empty for the
   * placeholder nodes the parser leaves behind.
   */
  datatype AstNode = AstNode(value: seq<byte>, left: Option<AstNode>, right: Option<AstNode>)

  const PlusLabel: seq<byte> := [PlusSign]
  const MinusLabel: seq<byte> := [MinusSign]
  const MultLabel: seq<byte> := [Star]
  const DivLabel: seq<byte> := [Slash]
  const PowLabel: seq<byte> := [Caret]

  function Leaf(lexeme: seq<byte>): AstNode {
    AstNode(lexeme, None, None)
  }

  /** An empty-labelled node holding only a left child. */
  function Wrap(child: AstNode): AstNode {
    AstNode([], Some(child), None)
  }

  /** No empty-labelled node has a child: only leaves may carry an empty label. */
  predicate Reduced(n: AstNode) {
    && (n.value == [] ==> n.left.None? && n.right.None?)
    && (n.left.Some? ==> Reduced(n.left.value))
    && (n.right.Some? ==> Reduced(n.right.value))
  }

  /** Every empty-labelled node is a Wrap: it has a left child and no right child. */
  predicate EmptyOnlyInWraps(n: AstNode) {
    && (n.value == [] ==> n.left.Some? && n.right.None?)
    && (n.left.Some? ==> EmptyOnlyInWraps(n.left.value))
    && (n.right.Some? ==> EmptyOnlyInWraps(n.right.value))
  }

  /** No node carries an empty label. */
  predicate NoEmptyLabels(n: AstNode) {
    && n.value != []
    && (n.left.Some? ==> NoEmptyLabels(n.left.value))
    && (n.right.Some? ==> NoEmptyLabels(n.right.value))
  }

  /**
   * Removes the empty placeholder nodes: a childless node stays as it is, an
   * empty-labelled node is replaced by the reduction of its left child (its
   * right child is dropped), and any other node keeps its label with each
   * present child reduced.  Reaching an empty node with no left child but a
   * right one dereferences nil.
   */
  function Reduce(n: AstNode): (r: Result<AstNode>)
    ensures r.Ok? ==> Reduced(r.value)
    ensures EmptyOnlyInWraps(n) ==> r.Ok? && NoEmptyLabels(r.value)
  {
    if n.left.None? && n.right.None? then Ok(n)
    else if n.value == [] then
      match n.left
      case None => Panic(NilDereference)
      case Some(l) => Reduce(l)
    else
      var left :- ReduceChild(n.left);
      var right :- ReduceChild(n.right);
      Ok(AstNode(n.value, left, right))
  }

  function ReduceChild(c: Option<AstNode>): (r: Result<Option<AstNode>>)
    ensures r.Ok? ==> (r.value.Some? <==> c.Some?)
    ensures r.Ok? && r.value.Some? ==> Reduced(r.value.value)
    ensures c.Some? && EmptyOnlyInWraps(c.value) ==> r.Ok? && NoEmptyLabels(r.value.value)
  {
    match c
    case None => Ok(None)
    case Some(n) =>
      var m :- Reduce(n);
      Ok(Some(m))
  }

  /** A reduced tree is a fixpoint of Reduce, and only reduced trees are. */
  lemma {:induction false} ReduceFixpoints(n: AstNode)
    ensures Reduce(n) == Ok(n) <==> Reduced(n)
  {
    if Reduced(n) && !(n.left.None? && n.right.None?) {
      assert n.value != [];
      if n.left.Some? {
        ReduceFixpoints(n.left.value);
      }
      if n.right.Some? {
        ReduceFixpoints(n.right.value);
      }
    }
  }

  /** Reducing a second time changes nothing. */
  lemma ReduceIdempotent(n: AstNode)
    ensures Reduce(n).Ok? ==> Reduce(Reduce(n).value) == Reduce(n)
  {
    if Reduce(n).Ok? {
      ReduceFixpoints(Reduce(n).value);
    }
  }

  /**
   * Evaluates the tree in postorder, left child first.  "-" without a right
   * child negates; "/" truncates toward zero; "^" goes through math.Pow on
   * float64; an empty label evaluates its left child; any other label is
   * read by strconv.Atoi with the error ignored.
   */
  function Eval(n: AstNode): Result<int> {
    if n.value == PlusLabel then
      var l :- EvalChild(n.left);
      var r :- EvalChild(n.right);
      Ok(l + r)
    else if n.value == MinusLabel then
      if n.right.Some? then
        var l :- EvalChild(n.left);
        var r :- EvalChild(n.right);
        Ok(l - r)
      else
        var l :- EvalChild(n.left);
        Ok(0 - l)
    else if n.value == MultLabel then
      var l :- EvalChild(n.left);
      var r :- EvalChild(n.right);
      Ok(l * r)
    else if n.value == DivLabel then
      var l :- EvalChild(n.left);
      var r :- EvalChild(n.right);
      if r == 0 then Panic(DivideByZero) else Ok(Quo(l, r))
    else if n.value == PowLabel then
      var l :- EvalChild(n.left);
      var r :- EvalChild(n.right);
      Ok(FloatPow(l, r))
    else if n.value == [] then
      EvalChild(n.left)
    else
      Ok(Atoi(n.value))
  }

  /** Evaluating a nil child dereferences nil. */
  function EvalChild(c: Option<AstNode>): Result<int> {
    match c
    case None => Panic(NilDereference)
    case Some(n) => Eval(n)
  }

  /**
   * A label that is neither an operator nor a number evaluates to 0, whatever
   * the node's children: Atoi fails on it and its error is discarded.
   */
  lemma NonNumericLabelIsZero(n: AstNode)
    requires n.value != [] && !IsDigit(n.value[0])
    requires n.value[0] != PlusSign && n.value[0] != MinusSign
    requires n.value != MultLabel && n.value != DivLabel && n.value != PowLabel
    ensures Eval(n) == Ok(0)
  {
    AtoiRejects(n.value, 0);
  }

  /** Removing placeholders does not change the value of the tree, nor the panic it raises. */
  lemma {:induction false} ReducePreservesEval(n: AstNode)
    ensures Reduce(n).Ok? ==> Eval(Reduce(n).value) == Eval(n)
  {
    if Reduce(n).Ok? && !(n.left.None? && n.right.None?) {
      if n.value == [] {
        ReducePreservesEval(n.left.value);
      } else {
        ReduceChildPreservesEval(n.left);
        ReduceChildPreservesEval(n.right);
      }
    }
  }

  lemma {:induction false} ReduceChildPreservesEval(c: Option<AstNode>)
    ensures ReduceChild(c).Ok? ==> EvalChild(ReduceChild(c).value) == EvalChild(c)
  {
    if c.Some? {
      ReducePreservesEval(c.value);
    }
  }
}
