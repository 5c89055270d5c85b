/**
 * Expression trees: the node types Stub, Leaf and Oper of
 * src/PredicateInlay.cs, their evaluation (Eval) and their binding to
 * callbacks (Populate).
 *
 * A callback (del_Pred) is foreign code; here it is an uninterpreted handle and
 * an environment says what each handle returns when invoked.
 */
module Exprs {
  import opened Wrappers
  import opened Tokens

  /** A callback handed out by an exchanger. */
  datatype Callback = Callback(handle: nat)

  /** What each callback returns when it is invoked. */
  type Env = Callback -> bool

  /** The exchanger (del_FetchPred): a callback, or null, for a function name and its arguments. */
  type Exchanger = (string, seq<string>) -> Option<Callback>

  /**
   * A node. An operator with neither operand is the placeholder the parser
   * pushes for an operator token; folding fills in its operands.
   */
  datatype Expr =
    | Stub
    | Leaf(name: string, args: seq<string>, cb: Option<Callback>)
    | Oper(op: Op, left: Option<Expr>, right: Option<Expr>)

  /**
   * Evaluation. Stub and a leaf without callback are true, a leaf with a
   * callback is what the callback returns; AND, OR and XOR read an absent
   * operand as true and NOT negates its right operand.
   */
  function Eval(e: Expr, env: Env): bool
  {
    match e
    case Stub => true
    case Leaf(_, _, cb) => cb.None? || env(cb.value)
    case Oper(op, l, r) =>
      var lv := l.None? || Eval(l.value, env);
      var rv := r.None? || Eval(r.value, env);
      match op
      case AND => lv && rv
      case OR => lv || rv
      case XOR => lv != rv
      case NOT => !rv
  }

  /**
   * The callbacks an evaluation invokes, in order: the left operand before
   * the right, AND skips its right operand when the left is false, OR when
   * it is true, XOR evaluates both and NOT only its right operand.
   */
  function Calls(e: Expr, env: Env): (r: seq<Callback>)
    ensures forall c :: c in r ==> c in Callbacks(e)
  {
    match e
    case Stub => []
    case Leaf(_, _, cb) => if cb.Some? then [cb.value] else []
    case Oper(op, l, r) =>
      var lc := if l.Some? then Calls(l.value, env) else [];
      var rc := if r.Some? then Calls(r.value, env) else [];
      var lv := l.None? || Eval(l.value, env);
      match op
      case AND => lc + (if lv then rc else [])
      case OR => lc + (if lv then [] else rc)
      case XOR => lc + rc
      case NOT => rc
  }

  /** The callbacks stored in a tree. */
  function Callbacks(e: Expr): set<Callback>
  {
    match e
    case Stub => {}
    case Leaf(_, _, cb) => if cb.Some? then {cb.value} else {}
    case Oper(_, l, r) =>
      (if l.Some? then Callbacks(l.value) else {}) + (if r.Some? then Callbacks(r.value) else {})
  }

  /**
   * The trace is exact: two environments that agree on the callbacks an
   * evaluation invokes give the same value and the same trace.
   */
  lemma {:induction false} EvalDependsOnCalls(e: Expr, env1: Env, env2: Env)
    requires forall c :: c in Calls(e, env1) ==> env1(c) == env2(c)
    ensures Eval(e, env1) == Eval(e, env2)
    ensures Calls(e, env1) == Calls(e, env2)
  {
    match e
    case Stub =>
    case Leaf(_, _, _) =>
    case Oper(op, l, r) =>
      if l.Some? && op != NOT {
        assert Calls(l.value, env1) <= Calls(e, env1);
        EvalDependsOnCalls(l.value, env1, env2);
      }
      var lv := l.None? || Eval(l.value, env1);
      var lc := if l.Some? then Calls(l.value, env1) else [];
      var skipsRight := (op == AND && !lv) || (op == OR && lv);
      if r.Some? && !skipsRight {
        var rc := Calls(r.value, env1);
        assert op == NOT ==> Calls(e, env1) == rc;
        assert op != NOT ==> Calls(e, env1) == lc + rc;
        forall c | c in rc ensures env1(c) == env2(c) {
          assert c in Calls(e, env1);
        }
        EvalDependsOnCalls(r.value, env1, env2);
      }
  }

  /** A tree that holds no callback evaluates the same in every environment. */
  lemma {:induction false} UnboundTreeIsConstant(e: Expr, env1: Env, env2: Env)
    requires Callbacks(e) == {}
    ensures Eval(e, env1) == Eval(e, env2)
  {
    EvalDependsOnCalls(e, env1, env2);
  }

  /** The tree with every callback removed: its shape, names and arguments. */
  function Erase(e: Expr): (r: Expr)
    ensures Callbacks(r) == {}
  {
    match e
    case Stub => Stub
    case Leaf(n, a, _) => Leaf(n, a, None)
    case Oper(op, l, r) =>
      Oper(op, if l.Some? then Some(Erase(l.value)) else None, if r.Some? then Some(Erase(r.value)) else None)
  }

  /**
   * Populate can walk the whole tree: it visits a left operand only when
   * present but dereferences every right operand, so every operator needs
   * its right operand.
   */
  predicate Bindable(e: Expr)
  {
    match e
    case Stub => true
    case Leaf(_, _, _) => true
    case Oper(_, l, r) => r.Some? && Bindable(r.value) && (l.None? || Bindable(l.value))
  }

  /** Every leaf holds the callback the exchanger gives for its name and arguments. */
  predicate BoundTo(e: Expr, x: Exchanger)
  {
    match e
    case Stub => true
    case Leaf(n, a, cb) => cb == x(n, a)
    case Oper(_, l, r) => (l.None? || BoundTo(l.value, x)) && (r.None? || BoundTo(r.value, x))
  }

  /** The tree after Populate, and whether Populate returned normally. */
  datatype Binding = Binding(tree: Expr, complete: bool)

  /**
   * Populate: each leaf takes the exchanger's callback for its name and
   * arguments; an operator visits its left operand when present, then its
   * right operand. An absent right operand stops the walk
   * (NullReferenceException) with the leaves visited so far rebound.
   */
  function Bind(e: Expr, x: Exchanger): (r: Binding)
    ensures Erase(r.tree) == Erase(e)
    ensures r.complete <==> Bindable(e)
    ensures r.complete ==> BoundTo(r.tree, x)
  {
    match e
    case Stub => Binding(Stub, true)
    case Leaf(n, a, _) => Binding(Leaf(n, a, x(n, a)), true)
    case Oper(op, l, r) =>
      if l.Some? then
        var bl := Bind(l.value, x);
        if !bl.complete || r.None? then Binding(Oper(op, Some(bl.tree), r), false)
        else
          var br := Bind(r.value, x);
          Binding(Oper(op, Some(bl.tree), Some(br.tree)), br.complete)
      else if r.None? then Binding(e, false)
      else
        var br := Bind(r.value, x);
        Binding(Oper(op, None, Some(br.tree)), br.complete)
  }

  /** Whether Populate can walk a tree depends only on its shape. */
  lemma {:induction false} BindableErase(e: Expr)
    ensures Bindable(Erase(e)) == Bindable(e)
  {
    match e
    case Stub =>
    case Leaf(_, _, _) =>
    case Oper(_, l, r) =>
      if l.Some? { BindableErase(l.value); }
      if r.Some? { BindableErase(r.value); }
  }

  /**
   * A complete binding is the only tree of the same shape whose leaves all
   * hold the exchanger's callbacks.
   */
  lemma {:induction false} BindUnique(e: Expr, t: Expr, x: Exchanger)
    requires Bindable(e) && Erase(t) == Erase(e) && BoundTo(t, x)
    ensures t == Bind(e, x).tree
  {
    match e
    case Stub =>
    case Leaf(_, _, _) =>
    case Oper(op, l, r) =>
      assert t.Oper? && t.op == op && t.left.Some? == l.Some? && t.right.Some? == r.Some?;
      if l.Some? { BindUnique(l.value, t.left.value, x); }
      BindUnique(r.value, t.right.value, x);
  }

  /**
   * Re-populating fully overwrites the earlier binding: binding with x1 and
   * then with x2 is binding with x2.
   */
  lemma {:induction false} Rebind(e: Expr, x1: Exchanger, x2: Exchanger)
    requires Bindable(e)
    ensures Bind(Bind(e, x1).tree, x2) == Bind(e, x2)
  {
    var t1 := Bind(e, x1).tree;
    BindableErase(e);
    BindableErase(t1);
    var t2 := Bind(t1, x2).tree;
    BindUnique(e, t2, x2);
  }
}
