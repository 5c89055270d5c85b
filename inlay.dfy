/**
 * The user-facing objects of src/PredicateInlay.cs: Tree, which holds a
 * root node and whether it has been populated, and PredicateInlay, which
 * lexes, parses and populates an expression when it is constructed and
 * can be re-populated and evaluated afterwards.
 *
 * Construction that throws in the source (a parse error, or the
 * NullReferenceException of populating an operator without right operand)
 * is a static method returning an error here.
 */
module Inlay {
  import opened Wrappers
  import opened Tokens
  import opened Matchers
  import opened Lexer
  import opened Exprs
  import opened Parser

  /** Why constructing an inlay throws. */
  datatype InlayError =
    | ParseFailed(error: ParseError)
    | NullOperand

  /**
   * What the constructor builds from an expression and an exchanger: the
   * parse of the standard tokens, populated by the exchanger.
   */
  function Compile(expression: string, x: Exchanger): (r: Result<Expr, InlayError>)
    ensures r.Ok? <==> ParseAt(Lex(Standard, expression), 0).Ok? && Bindable(ParseAt(Lex(Standard, expression), 0).value.tree)
    ensures r.Ok? ==> BoundTo(r.value, x) && Erase(r.value) == Erase(ParseAt(Lex(Standard, expression), 0).value.tree)
    ensures ParseAt(Lex(Standard, expression), 0).Err? ==> r == Err(ParseFailed(ParseAt(Lex(Standard, expression), 0).error))
  {
    match ParseAt(Lex(Standard, expression), 0)
    case Err(e) => Err(ParseFailed(e))
    case Ok(p) =>
      var b := Bind(p.tree, x);
      if b.complete then Ok(b.tree) else Err(NullOperand)
  }

  /**
   * Whether an expression can be constructed, and the shape of the tree,
   * do not depend on the exchanger: it only supplies the callbacks.
   */
  lemma {:induction false} CompileShape(expression: string, x1: Exchanger, x2: Exchanger)
    ensures Compile(expression, x1).Ok? == Compile(expression, x2).Ok?
    ensures Compile(expression, x1).Ok? ==> Erase(Compile(expression, x1).value) == Erase(Compile(expression, x2).value)
  {
  }

  /** Every callback a tree holds was handed out by the exchanger it is bound to. */
  lemma {:induction false} BoundCallbacksFromExchanger(e: Expr, x: Exchanger)
    requires BoundTo(e, x)
    ensures forall c :: c in Callbacks(e) ==> exists n, a :: x(n, a) == Some(c)
  {
    match e
    case Stub =>
    case Leaf(n, a, cb) =>
      if cb.Some? {
        assert x(n, a) == Some(cb.value);
      }
    case Oper(_, l, r) =>
      if l.Some? { BoundCallbacksFromExchanger(l.value, x); }
      if r.Some? { BoundCallbacksFromExchanger(r.value, x); }
  }

  /** Evaluating a constructed inlay invokes only callbacks its exchanger handed out. */
  lemma {:induction false} CompiledCallsFromExchanger(expression: string, x: Exchanger, env: Env)
    requires Compile(expression, x).Ok?
    ensures forall c :: c in Calls(Compile(expression, x).value, env) ==> exists n, a :: x(n, a) == Some(c)
  {
    var t := Compile(expression, x).value;
    BoundCallbacksFromExchanger(t, x);
  }

  /** Re-populating a constructed tree gives the tree constructing with the new exchanger gives. */
  lemma {:induction false} RepopulateIsRecompile(expression: string, x1: Exchanger, x2: Exchanger)
    requires Compile(expression, x1).Ok?
    ensures Bind(Compile(expression, x1).value, x2) == Binding(Compile(expression, x2).value, true)
  {
    var p := ParseAt(Lex(Standard, expression), 0).value.tree;
    Rebind(p, x1, x2);
  }

  /** The empty expression is the stub, which is true. */
  lemma {:induction false} EmptyExpressionIsTrue(x: Exchanger, env: Env)
    ensures Compile("", x) == Ok(Stub)
    ensures Eval(Compile("", x).value, env)
  {
    assert Lex(Standard, "") == [];
  }

  /** Tree: a root node and whether Populate has been called on it. */
  class Tree {
    var root: Expr
    var populated: bool

    constructor(root: Expr)
      ensures this.root == root && !populated
    {
      this.root := root;
      populated := false;
    }

    /**
     * Populate: marks the tree populated, then binds every leaf it reaches
     * to the exchanger's callback. ok is false when the walk reached an
     * operator without right operand and stopped (NullReferenceException);
     * the leaves visited before it stay bound.
     */
    method Populate(x: Exchanger) returns (ok: bool)
      modifies this
      ensures populated
      ensures root == Bind(old(root), x).tree
      ensures ok <==> Bindable(old(root))
      ensures ok ==> BoundTo(root, x)
      ensures Erase(root) == Erase(old(root))
    {
      populated := true;
      var b := Bind(root, x);
      root := b.tree;
      ok := b.complete;
    }

    /** Eval: the value of the root node. */
    function Eval(env: Env): (r: bool)
      reads this
      ensures r == Exprs.Eval(root, env)
    {
      Exprs.Eval(root, env)
    }
  }

  /** PredicateInlay: an expression parsed and populated once, evaluable on demand. */
  class PredicateInlay {
    const tree: Tree

    /** The tree is populated, and Populate can always walk it. */
    ghost predicate Valid()
      reads this, tree
    {
      tree.populated && Bindable(tree.root)
    }

    constructor(tree: Tree)
      ensures this.tree == tree
    {
      this.tree := tree;
    }

    /**
     * The constructor: tokenize, parse from index 0, plant the tree and
     * populate it with the exchanger. The inlay exists exactly when that
     * succeeds, and then holds the tree Compile describes.
     */
    static method Create(expression: string, exchanger: Exchanger) returns (r: Result<PredicateInlay, InlayError>)
      requires |expression| < IntMax
      ensures r.Ok? <==> Compile(expression, exchanger).Ok?
      ensures r.Ok? ==> fresh(r.value) && fresh(r.value.tree) && r.value.Valid()
      ensures r.Ok? ==> r.value.tree.root == Compile(expression, exchanger).value
      ensures r.Err? ==> r == Err(Compile(expression, exchanger).error)
    {
      StandardWellFormed();
      var tokens := Tokenize(Standard, expression);
      var x, index := Parse(tokens, 0);
      if x.Err? {
        return Err(ParseFailed(x.error));
      }
      var t := new Tree(x.value);
      var ok := t.Populate(exchanger);
      if !ok {
        return Err(NullOperand);
      }
      BindableErase(x.value);
      BindableErase(t.root);
      var inlay := new PredicateInlay(t);
      r := Ok(inlay);
    }

    /**
     * Populate with a new exchanger: every leaf is rebound, which on a
     * constructed inlay always completes, and the shape is kept.
     */
    method Populate(newExchanger: Exchanger)
      requires Valid()
      modifies tree
      ensures Valid()
      ensures tree.root == Bind(old(tree.root), newExchanger).tree
      ensures BoundTo(tree.root, newExchanger)
      ensures Erase(tree.root) == Erase(old(tree.root))
    {
      var ok := tree.Populate(newExchanger);
      BindableErase(old(tree.root));
      BindableErase(tree.root);
    }

    /** Eval: the value of the tree (no compiled delegate is ever set). */
    function Eval(env: Env): (r: bool)
      reads this, tree
      ensures r == Exprs.Eval(tree.root, env)
    {
      tree.Eval(env)
    }
  }
}
