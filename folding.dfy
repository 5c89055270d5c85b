/**
 * Properties of the fold of one level (the four right-to-left passes of
 * Parse in src/PredicateInlay.cs): operands are moved into operators and
 * never lost, a pass leaves none of its placeholders behind, each binding
 * shrinks the branch list by the operator's arity, and an operator at an
 * edge of the level never gives a tree that Populate can walk.
 */
module Folding {
  import opened Wrappers
  import opened Tokens
  import opened Exprs
  import opened Parser

  // ------------------------------------------------ operands are kept

  /**
   * The in-order reading of a tree: its leaves, stubs and unbound
   * operators, with each bound operator written as a placeholder between
   * its operands.
   */
  function Flatten(e: Expr): seq<Expr>
  {
    match e
    case Oper(op, l, r) =>
      (if l.Some? then Flatten(l.value) else []) + [Placeholder(op)] + (if r.Some? then Flatten(r.value) else [])
    case _ => [e]
  }

  function FlattenAll(bs: seq<Expr>): seq<Expr>
  {
    if |bs| == 0 then [] else Flatten(bs[0]) + FlattenAll(bs[1..])
  }

  lemma {:induction false} FlattenAllAppend(a: seq<Expr>, b: seq<Expr>)
    ensures FlattenAll(a + b) == FlattenAll(a) + FlattenAll(b)
    decreases |a|
  {
    if |a| == 0 {
      assert a + b == b;
    } else {
      assert (a + b)[1..] == a[1..] + b;
      FlattenAllAppend(a[1..], b);
    }
  }

  lemma {:induction false} FlattenAllLast(a: seq<Expr>, x: Expr)
    ensures FlattenAll(a + [x]) == FlattenAll(a) + Flatten(x)
  {
    FlattenAllAppend(a, [x]);
    assert FlattenAll([x]) == Flatten(x) + FlattenAll([]);
  }

  lemma {:induction false} FlattenAllFirst(x: Expr, a: seq<Expr>)
    ensures FlattenAll([x] + a) == Flatten(x) + FlattenAll(a)
  {
    assert ([x] + a)[1..] == a;
  }

  /**
   * A pass moves operands into operators and discards nothing: the
   * in-order reading of the branches is the same before and after.
   */
  lemma {:induction false} PassKeepsOperands(todo: seq<Expr>, done: seq<Expr>, op: Op)
    ensures Pass(todo, done, op).Ok? ==> FlattenAll(Pass(todo, done, op).value) == FlattenAll(todo) + FlattenAll(done)
    decreases |todo|, 1
  {
    if |todo| > 0 && Pass(todo, done, op).Ok? {
      var n := |todo| - 1;
      if todo[n] != Placeholder(op) {
        SkipKeepsOperands(todo, done, op);
      } else if op == NOT {
        NotKeepsOperands(todo, done);
      } else {
        BinaryKeepsOperands(todo, done, op);
      }
    }
  }

  lemma {:induction false} SkipKeepsOperands(todo: seq<Expr>, done: seq<Expr>, op: Op)
    requires |todo| > 0 && todo[|todo| - 1] != Placeholder(op) && Pass(todo, done, op).Ok?
    ensures FlattenAll(Pass(todo, done, op).value) == FlattenAll(todo) + FlattenAll(done)
    decreases |todo|, 0
  {
    var n := |todo| - 1;
    var front, x := todo[..n], todo[n];
    assert FlattenAll(todo) == FlattenAll(front) + Flatten(x) by {
      assert todo == front + [x];
      FlattenAllLast(front, x);
    }
    assert FlattenAll(Pass(todo, done, op).value) == FlattenAll(front) + FlattenAll([x] + done) by {
      PassKeepsOperands(front, [x] + done, op);
    }
    FlattenAllFirst(x, done);
    Concat3(FlattenAll(front), Flatten(x), [], FlattenAll(done));
  }

  lemma {:induction false} NotKeepsOperands(todo: seq<Expr>, done: seq<Expr>)
    requires |todo| > 0 && todo[|todo| - 1] == Placeholder(NOT) && Pass(todo, done, NOT).Ok?
    ensures FlattenAll(Pass(todo, done, NOT).value) == FlattenAll(todo) + FlattenAll(done)
    decreases |todo|, 0
  {
    var n := |todo| - 1;
    var front := todo[..n];
    var moved := [Oper(NOT, None, Some(done[0]))] + done[1..];
    assert FlattenAll(todo) == FlattenAll(front) + [Placeholder(NOT)] by {
      assert todo == front + [todo[n]];
      FlattenAllLast(front, todo[n]);
    }
    assert FlattenAll(Pass(todo, done, NOT).value) == FlattenAll(front) + FlattenAll(moved) by {
      assert Pass(todo, done, NOT) == Pass(front, moved, NOT);
      PassKeepsOperands(front, moved, NOT);
    }
    FlattenMoved(NOT, None, done);
    Concat3(FlattenAll(front), [Placeholder(NOT)], [], FlattenAll(done));
  }

  lemma {:induction false} BinaryKeepsOperands(todo: seq<Expr>, done: seq<Expr>, op: Op)
    requires op != NOT && |todo| > 0 && todo[|todo| - 1] == Placeholder(op) && Pass(todo, done, op).Ok?
    ensures FlattenAll(Pass(todo, done, op).value) == FlattenAll(todo) + FlattenAll(done)
    decreases |todo|, 0
  {
    var n := |todo| - 1;
    var front', y := todo[..n - 1], todo[n - 1];
    var moved := [Oper(op, Some(y), Some(done[0]))] + done[1..];
    assert FlattenAll(todo) == FlattenAll(front') + Flatten(y) + [Placeholder(op)] by {
      assert todo == (front' + [y]) + [todo[n]];
      FlattenAllLast(front' + [y], todo[n]);
      FlattenAllLast(front', y);
    }
    assert FlattenAll(Pass(todo, done, op).value) == FlattenAll(front') + FlattenAll(moved) by {
      assert Pass(todo, done, op) == Pass(front', moved, op);
      PassKeepsOperands(front', moved, op);
    }
    FlattenMoved(op, Some(y), done);
    Concat3(FlattenAll(front'), Flatten(y), [Placeholder(op)], FlattenAll(done));
  }

  /** Replacing the first of done by an operator that takes it as right operand. */
  lemma {:induction false} FlattenMoved(op: Op, left: Option<Expr>, done: seq<Expr>)
    requires |done| > 0
    ensures FlattenAll([Oper(op, left, Some(done[0]))] + done[1..]) ==
      (if left.Some? then Flatten(left.value) else []) + [Placeholder(op)] + FlattenAll(done)
  {
    var b := Oper(op, left, Some(done[0]));
    var l := if left.Some? then Flatten(left.value) else [];
    Concat3(l, [Placeholder(op)], Flatten(done[0]), FlattenAll(done[1..]));
    FlattenAllFirst(b, done[1..]);
    FlattenAllFirst(done[0], done[1..]);
    assert [done[0]] + done[1..] == done;
  }

  lemma {:induction false} Concat3<T>(a: seq<T>, b: seq<T>, c: seq<T>, d: seq<T>)
    ensures (a + b + c) + d == a + b + (c + d)
  {
  }

  /** The whole fold keeps the in-order reading of the level. */
  lemma {:induction false} FoldKeepsOperands(bs: seq<Expr>, k: nat)
    requires k <= |Passes|
    ensures FoldFrom(bs, k).Ok? ==> FlattenAll(FoldFrom(bs, k).value) == FlattenAll(bs)
    decreases |Passes| - k
  {
    if k < |Passes| && Pass(bs, [], Passes[k]).Ok? {
      PassKeepsOperands(bs, [], Passes[k]);
      FoldKeepsOperands(Pass(bs, [], Passes[k]).value, k + 1);
    }
  }

  // ------------------------------------------------ placeholders are used up

  /**
   * After the pass for op no placeholder of op is left, and a pass never
   * creates a placeholder of any other operator.
   */
  lemma {:induction false} PassLeavesNoPlaceholder(todo: seq<Expr>, done: seq<Expr>, op: Op, q: Op)
    requires forall e :: e in done ==> e != Placeholder(q)
    requires q != op ==> forall e :: e in todo ==> e != Placeholder(q)
    ensures Pass(todo, done, op).Ok? ==> forall e :: e in Pass(todo, done, op).value ==> e != Placeholder(q)
    decreases |todo|
  {
    if |todo| > 0 && Pass(todo, done, op).Ok? {
      var n := |todo| - 1;
      assert forall e :: e in todo[..n] ==> e in todo;
      if todo[n] != Placeholder(op) {
        assert todo[n] in todo;
        PassLeavesNoPlaceholder(todo[..n], [todo[n]] + done, op, q);
      } else if op == NOT {
        assert forall e :: e in done[1..] ==> e in done;
        PassLeavesNoPlaceholder(todo[..n], [Oper(NOT, None, Some(done[0]))] + done[1..], op, q);
      } else {
        assert forall e :: e in done[1..] ==> e in done;
        var front := todo[..n - 1];
        assert forall e :: e in front ==> e in todo;
        PassLeavesNoPlaceholder(front, [Oper(op, Some(todo[n - 1]), Some(done[0]))] + done[1..], op, q);
      }
    }
  }

  /** Once the passes Passes[..k] have run, none of their placeholders is left at the level. */
  lemma {:induction false} FoldLeavesNoPlaceholder(bs: seq<Expr>, k: nat)
    requires k <= |Passes|
    requires forall j, e :: 0 <= j < k && e in bs ==> e != Placeholder(Passes[j])
    ensures FoldFrom(bs, k).Ok? ==> forall e, q :: e in FoldFrom(bs, k).value ==> e != Placeholder(q)
    decreases |Passes| - k
  {
    if k == |Passes| {
      forall e, q | e in bs ensures e != Placeholder(q) {
        var j := if q == NOT then 0 else if q == AND then 1 else if q == XOR then 2 else 3;
        assert Passes[j] == q;
      }
    } else if Pass(bs, [], Passes[k]).Ok? {
      var bs' := Pass(bs, [], Passes[k]).value;
      forall j | 0 <= j <= k ensures forall e :: e in bs' ==> e != Placeholder(Passes[j]) {
        PassLeavesNoPlaceholder(bs, [], Passes[k], Passes[j]);
      }
      FoldLeavesNoPlaceholder(bs', k + 1);
    }
  }

  /** A successful fold leaves no unbound operator at the level. */
  lemma {:induction false} FoldAllLeavesNoPlaceholder(bs: seq<Expr>)
    ensures FoldAll(bs).Ok? ==> forall e, q :: e in FoldAll(bs).value ==> e != Placeholder(q)
  {
    FoldLeavesNoPlaceholder(bs, 0);
  }

  // ------------------------------------------------ each binding shrinks the level

  /** The operands a bound operator of kind op takes. */
  function Arity(op: Op): nat
  {
    if op == NOT then 1 else 2
  }

  /** The number of operators of kind op in a tree that have their right operand. */
  function Bindings(e: Expr, op: Op): nat
  {
    match e
    case Oper(o, l, r) =>
      (if l.Some? then Bindings(l.value, op) else 0) + (if r.Some? then Bindings(r.value, op) else 0) +
      (if o == op && r.Some? then 1 else 0)
    case _ => 0
  }

  function BindingsAll(bs: seq<Expr>, op: Op): nat
  {
    if |bs| == 0 then 0 else Bindings(bs[0], op) + BindingsAll(bs[1..], op)
  }

  lemma {:induction false} BindingsAllAppend(a: seq<Expr>, b: seq<Expr>, op: Op)
    ensures BindingsAll(a + b, op) == BindingsAll(a, op) + BindingsAll(b, op)
    decreases |a|
  {
    if |a| == 0 {
      assert a + b == b;
    } else {
      assert (a + b)[1..] == a[1..] + b;
      BindingsAllAppend(a[1..], b, op);
    }
  }

  lemma {:induction false} BindingsAllLast(a: seq<Expr>, x: Expr, op: Op)
    ensures BindingsAll(a + [x], op) == BindingsAll(a, op) + Bindings(x, op)
  {
    BindingsAllAppend(a, [x], op);
    assert BindingsAll([x], op) == Bindings(x, op) + BindingsAll([], op);
  }

  lemma {:induction false} BindingsAllFirst(x: Expr, a: seq<Expr>, op: Op)
    ensures BindingsAll([x] + a, op) == Bindings(x, op) + BindingsAll(a, op)
  {
    assert ([x] + a)[1..] == a;
  }

  /**
   * Each binding in a pass shrinks the branch list by the operator's
   * arity, two for AND, XOR and OR and one for NOT: the list loses
   * Arity(op) branches per operator of kind op the pass binds.
   */
  lemma {:induction false} PassShrinks(todo: seq<Expr>, done: seq<Expr>, op: Op)
    ensures Pass(todo, done, op).Ok? ==>
      var r := Pass(todo, done, op).value;
      BindingsAll(r, op) >= BindingsAll(todo, op) + BindingsAll(done, op) &&
      |todo| + |done| - |r| == Arity(op) * (BindingsAll(r, op) - BindingsAll(todo, op) - BindingsAll(done, op))
    decreases |todo|, 1
  {
    if |todo| > 0 && Pass(todo, done, op).Ok? {
      var n := |todo| - 1;
      if todo[n] != Placeholder(op) {
        SkipShrinks(todo, done, op);
      } else if op == NOT {
        NotShrinks(todo, done);
      } else {
        BinaryShrinks(todo, done, op);
      }
    }
  }

  /** PassShrinks when the scan position holds something other than a placeholder of op. */
  lemma {:induction false} SkipShrinks(todo: seq<Expr>, done: seq<Expr>, op: Op)
    requires |todo| > 0 && todo[|todo| - 1] != Placeholder(op) && Pass(todo, done, op).Ok?
    ensures var r := Pass(todo, done, op).value;
      BindingsAll(r, op) >= BindingsAll(todo, op) + BindingsAll(done, op) &&
      |todo| + |done| - |r| == Arity(op) * (BindingsAll(r, op) - BindingsAll(todo, op) - BindingsAll(done, op))
    decreases |todo|, 0
  {
    var n := |todo| - 1;
    assert todo == todo[..n] + [todo[n]];
    BindingsAllLast(todo[..n], todo[n], op);
    PassShrinks(todo[..n], [todo[n]] + done, op);
    BindingsAllFirst(todo[n], done, op);
  }

  /** PassShrinks when a NOT placeholder takes its right neighbour. */
  lemma {:induction false} NotShrinks(todo: seq<Expr>, done: seq<Expr>)
    requires |todo| > 0 && todo[|todo| - 1] == Placeholder(NOT) && Pass(todo, done, NOT).Ok?
    ensures var r := Pass(todo, done, NOT).value;
      BindingsAll(r, NOT) >= BindingsAll(todo, NOT) + BindingsAll(done, NOT) &&
      |todo| + |done| - |r| == Arity(NOT) * (BindingsAll(r, NOT) - BindingsAll(todo, NOT) - BindingsAll(done, NOT))
    decreases |todo|, 0
  {
    var n := |todo| - 1;
    assert Arity(NOT) == 1;
    assert todo == todo[..n] + [todo[n]];
    BindingsAllLast(todo[..n], todo[n], NOT);
    var moved := [Oper(NOT, None, Some(done[0]))] + done[1..];
    assert Pass(todo, done, NOT) == Pass(todo[..n], moved, NOT);
    PassShrinks(todo[..n], moved, NOT);
    BindingsMoved(NOT, None, done);
  }

  /** PassShrinks when a binary placeholder takes both neighbours. */
  lemma {:induction false} BinaryShrinks(todo: seq<Expr>, done: seq<Expr>, op: Op)
    requires op != NOT && |todo| > 0 && todo[|todo| - 1] == Placeholder(op) && Pass(todo, done, op).Ok?
    ensures var r := Pass(todo, done, op).value;
      BindingsAll(r, op) >= BindingsAll(todo, op) + BindingsAll(done, op) &&
      |todo| + |done| - |r| == Arity(op) * (BindingsAll(r, op) - BindingsAll(todo, op) - BindingsAll(done, op))
    decreases |todo|, 0
  {
    var n := |todo| - 1;
    assert Arity(op) == 2;
    assert todo == todo[..n] + [todo[n]];
    BindingsAllLast(todo[..n], todo[n], op);
    var moved := [Oper(op, Some(todo[n - 1]), Some(done[0]))] + done[1..];
    assert Pass(todo, done, op) == Pass(todo[..n - 1], moved, op);
    PassShrinks(todo[..n - 1], moved, op);
    BindingsMoved(op, Some(todo[n - 1]), done);
    assert todo[..n] == todo[..n - 1] + [todo[n - 1]];
    BindingsAllLast(todo[..n - 1], todo[n - 1], op);
  }

  /** Replacing the first of done by an operator of kind op that takes it as right operand. */
  lemma {:induction false} BindingsMoved(op: Op, left: Option<Expr>, done: seq<Expr>)
    requires |done| > 0
    ensures BindingsAll([Oper(op, left, Some(done[0]))] + done[1..], op) ==
      (if left.Some? then Bindings(left.value, op) else 0) + 1 + BindingsAll(done, op)
  {
    BindingsAllFirst(Oper(op, left, Some(done[0])), done[1..], op);
    BindingsAllFirst(done[0], done[1..], op);
    assert [done[0]] + done[1..] == done;
  }

  // ------------------------------------------------ levels without operators

  /** A pass leaves a level without placeholders of its operator as it is. */
  lemma {:induction false} PassWithoutPlaceholders(todo: seq<Expr>, done: seq<Expr>, op: Op)
    requires forall e :: e in todo ==> e != Placeholder(op)
    ensures Pass(todo, done, op) == Ok(todo + done)
    decreases |todo|
  {
    if |todo| > 0 {
      var n := |todo| - 1;
      assert todo[n] in todo;
      assert forall e :: e in todo[..n] ==> e in todo;
      PassWithoutPlaceholders(todo[..n], [todo[n]] + done, op);
      assert todo[..n] + ([todo[n]] + done) == todo + done;
    } else {
      assert todo + done == done;
    }
  }

  /**
   * Two or more operands side by side with no operator between them (for
   * instance two words) cannot be reduced to one tree.
   */
  lemma {:induction false} AdjacentOperandsUnreduced(bs: seq<Expr>)
    requires |bs| >= 2
    requires forall e, q :: e in bs ==> e != Placeholder(q)
    ensures Reduce(bs) == Err(Unreduced(|bs|))
  {
    assert bs + [] == bs;
    PassWithoutPlaceholders(bs, [], NOT);
    PassWithoutPlaceholders(bs, [], AND);
    PassWithoutPlaceholders(bs, [], XOR);
    PassWithoutPlaceholders(bs, [], OR);
    assert FoldFrom(bs, 4) == Ok(bs);
    assert FoldFrom(bs, 3) == Ok(bs);
    assert FoldFrom(bs, 2) == Ok(bs);
    assert FoldFrom(bs, 1) == Ok(bs);
  }

  // ------------------------------------------------ operators at the edges

  /** The rightmost path of a tree ends in an operator without right operand. */
  predicate RightOpen(e: Expr)
  {
    e.Oper? && (e.right.None? || RightOpen(e.right.value))
  }

  /** The leftmost path ends in an unbound binary operator. */
  predicate LeftOpen(e: Expr)
  {
    e.Oper? && (if e.left.Some? then LeftOpen(e.left.value) else e.right.None? && e.op != NOT)
  }

  lemma {:induction false} RightOpenNotBindable(e: Expr)
    requires RightOpen(e)
    ensures !Bindable(e)
  {
    if e.right.Some? {
      RightOpenNotBindable(e.right.value);
    }
  }

  lemma {:induction false} LeftOpenNotBindable(e: Expr)
    requires LeftOpen(e)
    ensures !Bindable(e)
  {
    if e.left.Some? {
      LeftOpenNotBindable(e.left.value);
    }
  }

  /** An open right edge stays open through a pass (or the pass fails). */
  lemma {:induction false} PassKeepsRightOpen(todo: seq<Expr>, done: seq<Expr>, op: Op)
    requires if |done| > 0 then RightOpen(done[|done| - 1]) else |todo| > 0 && RightOpen(todo[|todo| - 1])
    ensures Pass(todo, done, op).Ok? ==>
      var r := Pass(todo, done, op).value; |r| > 0 && RightOpen(r[|r| - 1])
    decreases |todo|
  {
    if |todo| > 0 && Pass(todo, done, op).Ok? {
      var n := |todo| - 1;
      if todo[n] != Placeholder(op) {
        PassKeepsRightOpen(todo[..n], [todo[n]] + done, op);
      } else if op == NOT {
        PassKeepsRightOpen(todo[..n], [Oper(NOT, None, Some(done[0]))] + done[1..], op);
      } else {
        PassKeepsRightOpen(todo[..n - 1], [Oper(op, Some(todo[n - 1]), Some(done[0]))] + done[1..], op);
      }
    }
  }

  /** An open left edge stays open through a pass (or the pass fails). */
  lemma {:induction false} PassKeepsLeftOpen(todo: seq<Expr>, done: seq<Expr>, op: Op)
    requires |todo| > 0 && LeftOpen(todo[0])
    ensures Pass(todo, done, op).Ok? ==>
      var r := Pass(todo, done, op).value; |r| > 0 && LeftOpen(r[0])
    decreases |todo|
  {
    if Pass(todo, done, op).Ok? {
      var n := |todo| - 1;
      if n == 0 {
        assert todo[0] != Placeholder(op);
      } else if todo[n] != Placeholder(op) || op == NOT {
        PassKeepsLeftOpen(todo[..n], if todo[n] != Placeholder(op) then [todo[n]] + done
          else [Oper(NOT, None, Some(done[0]))] + done[1..], op);
      } else if n == 1 {
        assert Pass(todo, done, op) == Pass([], [Oper(op, Some(todo[0]), Some(done[0]))] + done[1..], op);
      } else {
        PassKeepsLeftOpen(todo[..n - 1], [Oper(op, Some(todo[n - 1]), Some(done[0]))] + done[1..], op);
      }
    }
  }

  lemma {:induction false} FoldKeepsEdgeOpen(bs: seq<Expr>, k: nat)
    requires k <= |Passes| && |bs| > 0
    requires RightOpen(bs[|bs| - 1]) || LeftOpen(bs[0])
    ensures FoldFrom(bs, k).Ok? ==>
      var r := FoldFrom(bs, k).value; |r| > 0 && (RightOpen(r[|r| - 1]) || LeftOpen(r[0]))
    decreases |Passes| - k
  {
    if k < |Passes| && Pass(bs, [], Passes[k]).Ok? {
      if RightOpen(bs[|bs| - 1]) {
        PassKeepsRightOpen(bs, [], Passes[k]);
      } else {
        PassKeepsLeftOpen(bs, [], Passes[k]);
      }
      FoldKeepsEdgeOpen(Pass(bs, [], Passes[k]).value, k + 1);
    }
  }

  /**
   * A binary operator at either end of a level, or NOT at its right end,
   * never gives a tree Populate can walk: either folding or closing the
   * level fails, or the tree has an operator without right operand (the
   * case of an operator swallowed as the operand of another, as in
   * "a and or").
   */
  lemma {:induction false} EdgeOperatorNeverBindable(bs: seq<Expr>)
    requires |bs| > 0
    requires (exists q :: bs[|bs| - 1] == Placeholder(q)) || (exists q :: q != NOT && bs[0] == Placeholder(q))
    ensures Reduce(bs).Ok? ==> !Bindable(Reduce(bs).value)
  {
    assert RightOpen(bs[|bs| - 1]) || LeftOpen(bs[0]);
    FoldKeepsEdgeOpen(bs, 0);
    if Reduce(bs).Ok? {
      var r := FoldAll(bs).value;
      assert |r| == 1;
      if RightOpen(r[0]) {
        RightOpenNotBindable(r[0]);
      } else {
        LeftOpenNotBindable(r[0]);
      }
    }
  }
}
