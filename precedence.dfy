/**
 * Operator precedence of the fold in Parse (src/PredicateInlay.cs).
 *
 * A level written as operands joined by binary operators, each operand
 * preceded by any number of NOTs, folds to the tree an independent
 * precedence-climbing reading gives: NOT binds tightest, then AND, then
 * XOR, then OR, and a run of one operator nests to the right. The
 * reference (Build) splits a level at the first of its weakest operators.
 */
module Precedence {
  import opened Wrappers
  import opened Tokens
  import opened Exprs
  import opened Parser

  // ------------------------------------------------ reference reading

  /** How tightly an operator binds. */
  function Strength(op: Op): nat
  {
    match op
    case NOT => 3
    case AND => 2
    case XOR => 1
    case OR => 0
  }

  /** Operands joined by binary operators: pairs[i].0 pairs[i].1 ... last. */
  datatype Infix = Infix(pairs: seq<(Expr, Op)>, last: Expr)

  /** The position of the first of the weakest operators. */
  function FirstWeakest(ps: seq<(Expr, Op)>): (k: nat)
    requires |ps| > 0
    ensures k < |ps|
    ensures forall i :: 0 <= i < |ps| ==> Strength(ps[k].1) <= Strength(ps[i].1)
    ensures forall i :: 0 <= i < k ==> Strength(ps[k].1) < Strength(ps[i].1)
    decreases |ps|
  {
    if |ps| == 1 then 0
    else
      var k := FirstWeakest(ps[..|ps| - 1]);
      if Strength(ps[|ps| - 1].1) < Strength(ps[k].1) then |ps| - 1 else k
  }

  lemma {:induction false} FirstWeakestUnique(ps: seq<(Expr, Op)>, k: nat)
    requires k < |ps|
    requires forall i :: 0 <= i < |ps| ==> Strength(ps[k].1) <= Strength(ps[i].1)
    requires forall i :: 0 <= i < k ==> Strength(ps[k].1) < Strength(ps[i].1)
    ensures FirstWeakest(ps) == k
  {
  }

  /**
   * The precedence reading of a level: the first of its weakest operators
   * is the root, with the reading of what is left of it and of what is
   * right of it as operands.
   */
  function Build(l: Infix): Expr
    decreases |l.pairs|
  {
    if |l.pairs| == 0 then l.last
    else
      var k := FirstWeakest(l.pairs);
      Oper(l.pairs[k].1, Some(Build(Infix(l.pairs[..k], l.pairs[k].0))), Some(Build(Infix(l.pairs[k + 1..], l.last))))
  }

  /** Operands joined by one operator, nested to the right. */
  function Chain(ps: seq<(Expr, Op)>, last: Expr, p: Op): Expr
    decreases |ps|
  {
    if |ps| == 0 then last else Oper(p, Some(ps[0].0), Some(Chain(ps[1..], last, p)))
  }

  /** Every operator of the level has a strength in [lo, hi]. */
  predicate OpsWithin(l: Infix, lo: int, hi: int)
  {
    forall i :: 0 <= i < |l.pairs| ==> lo <= Strength(l.pairs[i].1) <= hi
  }

  // ------------------------------------------------ one pass on an infix level

  /** The branch list of a level. */
  function Pre(ps: seq<(Expr, Op)>): seq<Expr>
    decreases |ps|
  {
    if |ps| == 0 then [] else Pre(ps[..|ps| - 1]) + [ps[|ps| - 1].0, Placeholder(ps[|ps| - 1].1)]
  }

  function Branches(l: Infix): seq<Expr>
  {
    Pre(l.pairs) + [l.last]
  }

  /**
   * What one binary pass for p does to an infix level, read from the
   * right: each operand pair joined by p becomes one operator node.
   */
  function Group(l: Infix, p: Op): Infix
    decreases |l.pairs|
  {
    var ps := l.pairs;
    if |ps| == 0 then l
    else
      var x, o := ps[|ps| - 1].0, ps[|ps| - 1].1;
      if o == p then Group(Infix(ps[..|ps| - 1], Oper(p, Some(x), Some(l.last))), p)
      else
        var g := Group(Infix(ps[..|ps| - 1], x), p);
        Infix(g.pairs + [(g.last, o)], l.last)
  }

  /** Not a placeholder: a leaf, a stub, a group's tree or a bound operator. */
  predicate IsOperand(e: Expr)
  {
    !(e.Oper? && e.left.None? && e.right.None?)
  }

  predicate Operands(l: Infix)
  {
    IsOperand(l.last) && forall i :: 0 <= i < |l.pairs| ==> IsOperand(l.pairs[i].0)
  }

  /** The scan moves past an operand. */
  lemma {:induction false} PassOperandStep(todo: seq<Expr>, v: Expr, done: seq<Expr>, p: Op)
    requires IsOperand(v)
    ensures Pass(todo + [v], done, p) == Pass(todo, [v] + done, p)
  {
    assert (todo + [v])[..|todo|] == todo;
  }

  lemma {:induction false} PreSnoc(ps: seq<(Expr, Op)>, x: Expr, o: Op)
    ensures Pre(ps + [(x, o)]) == Pre(ps) + [x, Placeholder(o)]
  {
    assert (ps + [(x, o)])[..|ps|] == ps;
  }

  lemma {:induction false} GroupKeepsOperands(l: Infix, p: Op)
    requires Operands(l)
    ensures Operands(Group(l, p))
    decreases |l.pairs|
  {
    var ps := l.pairs;
    if |ps| > 0 {
      var x, o := ps[|ps| - 1].0, ps[|ps| - 1].1;
      if o == p {
        GroupKeepsOperands(Infix(ps[..|ps| - 1], Oper(p, Some(x), Some(l.last))), p);
      } else {
        GroupKeepsOperands(Infix(ps[..|ps| - 1], x), p);
      }
    }
  }

  /** The scan binds the operands on either side of a placeholder for p. */
  lemma {:induction false} PassBindStep(front: seq<Expr>, x: Expr, last: Expr, done: seq<Expr>, p: Op)
    requires p != NOT
    ensures Pass(front + [x, Placeholder(p)], [last] + done, p) ==
      Pass(front, [Oper(p, Some(x), Some(last))] + done, p)
  {
    var t := front + [x, Placeholder(p)];
    assert t[..|t| - 2] == front;
    assert ([last] + done)[1..] == done;
  }

  /** The scan moves past a placeholder for an operator other than p. */
  lemma {:induction false} PassSkipOpStep(front: seq<Expr>, o: Op, last: Expr, done: seq<Expr>, p: Op)
    requires o != p
    ensures Pass(front + [Placeholder(o)], [last] + done, p) == Pass(front, [Placeholder(o), last] + done, p)
  {
    var t := front + [Placeholder(o)];
    assert t[..|t| - 1] == front;
    assert [Placeholder(o)] + ([last] + done) == [Placeholder(o), last] + done;
  }

  /** A binary pass over an infix level of operands is Group. */
  lemma {:induction false} PassGroup(l: Infix, done: seq<Expr>, p: Op)
    requires p != NOT && Operands(l)
    ensures Pass(Branches(l), done, p) == Ok(Branches(Group(l, p)) + done)
    decreases |l.pairs|, 1
  {
    var ps := l.pairs;
    if |ps| == 0 {
      PassOperandStep(Pre(ps), l.last, done, p);
      assert Pre(ps) == [];
    } else if ps[|ps| - 1].1 == p {
      PassGroupBinds(l, done, p);
    } else {
      PassGroupSkips(l, done, p);
    }
  }

  lemma {:induction false} PassGroupBinds(l: Infix, done: seq<Expr>, p: Op)
    requires p != NOT && Operands(l) && |l.pairs| > 0 && l.pairs[|l.pairs| - 1].1 == p
    ensures Pass(Branches(l), done, p) == Ok(Branches(Group(l, p)) + done)
    decreases |l.pairs|, 0
  {
    var ps := l.pairs;
    var ps', x := ps[..|ps| - 1], ps[|ps| - 1].0;
    PassOperandStep(Pre(ps), l.last, done, p);
    assert Pre(ps) == Pre(ps') + [x, Placeholder(p)];
    var b := Oper(p, Some(x), Some(l.last));
    PassBindStep(Pre(ps'), x, l.last, done, p);
    PassOperandStep(Pre(ps'), b, done, p);
    PassGroup(Infix(ps', b), done, p);
  }

  lemma {:induction false} PassGroupSkips(l: Infix, done: seq<Expr>, p: Op)
    requires p != NOT && Operands(l) && |l.pairs| > 0 && l.pairs[|l.pairs| - 1].1 != p
    ensures Pass(Branches(l), done, p) == Ok(Branches(Group(l, p)) + done)
    decreases |l.pairs|, 0
  {
    var ps := l.pairs;
    var ps', x, o := ps[..|ps| - 1], ps[|ps| - 1].0, ps[|ps| - 1].1;
    var moved := [Placeholder(o), l.last] + done;
    SkipFront(l, done, p);
    assert Operands(Infix(ps', x));
    PassGroup(Infix(ps', x), moved, p);
    SkipBranches(l, done, p);
  }

  /** The scan moves past the last operand and the last operator, which is not p. */
  lemma {:induction false} SkipFront(l: Infix, done: seq<Expr>, p: Op)
    requires Operands(l) && |l.pairs| > 0 && l.pairs[|l.pairs| - 1].1 != p
    ensures var ps := l.pairs;
      Pass(Branches(l), done, p) ==
      Pass(Pre(ps[..|ps| - 1]) + [ps[|ps| - 1].0], [Placeholder(ps[|ps| - 1].1), l.last] + done, p)
  {
    var ps := l.pairs;
    var ps', x, o := ps[..|ps| - 1], ps[|ps| - 1].0, ps[|ps| - 1].1;
    var front := Pre(ps') + [x];
    PassOperandStep(Pre(ps), l.last, done, p);
    assert Pre(ps) == front + [Placeholder(o)];
    PassSkipOpStep(front, o, l.last, done, p);
  }

  /** Group on a level whose last operator is not p: the group of the rest, then that operator and operand. */
  lemma {:induction false} SkipBranches(l: Infix, done: seq<Expr>, p: Op)
    requires |l.pairs| > 0 && l.pairs[|l.pairs| - 1].1 != p
    ensures var ps := l.pairs;
      Branches(Group(l, p)) + done ==
      Branches(Group(Infix(ps[..|ps| - 1], ps[|ps| - 1].0), p)) + ([Placeholder(ps[|ps| - 1].1), l.last] + done)
  {
    var ps := l.pairs;
    var ps', x, o := ps[..|ps| - 1], ps[|ps| - 1].0, ps[|ps| - 1].1;
    var g := Group(Infix(ps', x), p);
    assert Group(l, p) == Infix(g.pairs + [(g.last, o)], l.last);
    PreSnoc(g.pairs, g.last, o);
  }

  // ------------------------------------------------ Group computes the reference

  /** A pass keeps the strengths of the operators it leaves and drops its own. */
  lemma {:induction false} GroupKeepsRange(l: Infix, p: Op, lo: int, hi: int)
    requires OpsWithin(l, lo, hi)
    ensures OpsWithin(Group(l, p), lo, hi)
    ensures forall i :: 0 <= i < |Group(l, p).pairs| ==> Group(l, p).pairs[i].1 != p
    ensures |Group(l, p).pairs| <= |l.pairs|
    decreases |l.pairs|
  {
    var ps := l.pairs;
    if |ps| > 0 {
      var x, o := ps[|ps| - 1].0, ps[|ps| - 1].1;
      if o == p {
        GroupKeepsRange(Infix(ps[..|ps| - 1], Oper(p, Some(x), Some(l.last))), p, lo, hi);
      } else {
        GroupKeepsRange(Infix(ps[..|ps| - 1], x), p, lo, hi);
      }
    }
  }

  lemma {:induction false} ChainSnoc(ps: seq<(Expr, Op)>, x: Expr, last: Expr, p: Op)
    ensures Chain(ps, Oper(p, Some(x), Some(last)), p) == Chain(ps + [(x, p)], last, p)
    decreases |ps|
  {
    if |ps| > 0 {
      assert (ps + [(x, p)])[1..] == ps[1..] + [(x, p)];
      ChainSnoc(ps[1..], x, last, p);
    } else {
      assert ([(x, p)] + [])[1..] == [];
    }
  }

  /** A level of one operator throughout folds to its right-nested chain. */
  lemma {:induction false} GroupAllSame(l: Infix, p: Op)
    requires forall i :: 0 <= i < |l.pairs| ==> l.pairs[i].1 == p
    ensures Group(l, p) == Infix([], Chain(l.pairs, l.last, p))
    decreases |l.pairs|
  {
    var ps := l.pairs;
    if |ps| > 0 {
      var ps', x := ps[..|ps| - 1], ps[|ps| - 1].0;
      GroupAllSame(Infix(ps', Oper(p, Some(x), Some(l.last))), p);
      ChainSnoc(ps', x, l.last, p);
      assert ps' + [(x, p)] == ps;
    }
  }

  lemma {:induction false} BuildAllSame(l: Infix, p: Op)
    requires forall i :: 0 <= i < |l.pairs| ==> l.pairs[i].1 == p
    ensures Build(l) == Chain(l.pairs, l.last, p)
    decreases |l.pairs|
  {
    if |l.pairs| > 0 {
      var rest := Infix(l.pairs[1..], l.last);
      FirstWeakestUnique(l.pairs, 0);
      BuildHead(l);
      assert forall i :: 0 <= i < |rest.pairs| ==> rest.pairs[i] == l.pairs[i + 1];
      BuildAllSame(rest, p);
    }
  }

  /** When the first operator is the first weakest, it is the root of the reading. */
  lemma {:induction false} BuildHead(l: Infix)
    requires |l.pairs| > 0 && FirstWeakest(l.pairs) == 0
    ensures Build(l) == Oper(l.pairs[0].1, Some(l.pairs[0].0), Some(Build(Infix(l.pairs[1..], l.last))))
  {
    assert l.pairs[..0] == [];
    assert Build(Infix([], l.pairs[0].0)) == l.pairs[0].0;
  }

  /** Two levels joined by an operator. */
  function Join(a: Infix, q: Op, b: Infix): Infix
  {
    Infix(a.pairs + [(a.last, q)] + b.pairs, b.last)
  }

  /** A pass for p works on each side of an operator q other than p separately. */
  lemma {:induction false} SplitGroup(ps1: seq<(Expr, Op)>, x: Expr, q: Op, ps2: seq<(Expr, Op)>, last: Expr, p: Op)
    requires q != p
    ensures Group(Infix(ps1 + [(x, q)] + ps2, last), p) == Join(Group(Infix(ps1, x), p), q, Group(Infix(ps2, last), p))
    decreases |ps2|
  {
    var full := ps1 + [(x, q)] + ps2;
    var ga := Group(Infix(ps1, x), p);
    if |ps2| == 0 {
      assert full[..|full| - 1] == ps1;
      assert ga.pairs + [(ga.last, q)] + [] == ga.pairs + [(ga.last, q)];
    } else {
      var ps2', y, o := ps2[..|ps2| - 1], ps2[|ps2| - 1].0, ps2[|ps2| - 1].1;
      assert full[..|full| - 1] == ps1 + [(x, q)] + ps2';
      assert full[|full| - 1] == (y, o);
      if o == p {
        SplitGroup(ps1, x, q, ps2', Oper(p, Some(y), Some(last)), p);
      } else {
        SplitGroup(ps1, x, q, ps2', y, p);
        var g2 := Group(Infix(ps2', y), p);
        assert ga.pairs + [(ga.last, q)] + g2.pairs + [(g2.last, o)] ==
          ga.pairs + [(ga.last, q)] + (g2.pairs + [(g2.last, o)]);
      }
    }
  }

  /** The reading of two levels joined by an operator weaker than all of theirs. */
  lemma {:induction false} BuildJoin(a: Infix, q: Op, b: Infix)
    requires OpsWithin(a, Strength(q) + 1, 3) && OpsWithin(b, Strength(q), 3)
    ensures Build(Join(a, q, b)) == Oper(q, Some(Build(a)), Some(Build(b)))
  {
    var j := Join(a, q, b);
    var k := |a.pairs|;
    assert j.pairs[k] == (a.last, q);
    forall i | 0 <= i < |j.pairs| ensures Strength(j.pairs[k].1) <= Strength(j.pairs[i].1) {
      if i < k {
        assert j.pairs[i] == a.pairs[i];
      } else if i > k {
        assert j.pairs[i] == b.pairs[i - k - 1];
      }
    }
    forall i | 0 <= i < k ensures Strength(j.pairs[k].1) < Strength(j.pairs[i].1) {
      assert j.pairs[i] == a.pairs[i];
    }
    FirstWeakestUnique(j.pairs, k);
    assert j.pairs[..k] == a.pairs;
    assert j.pairs[k + 1..] == b.pairs;
  }

  /**
   * A pass for p on a level whose operators are all at most as strong as
   * p keeps its precedence reading.
   */
  lemma {:induction false} BuildGroup(l: Infix, p: Op)
    requires p != NOT && OpsWithin(l, 0, Strength(p))
    ensures Build(Group(l, p)) == Build(l)
    decreases |l.pairs|, 1
  {
    var ps := l.pairs;
    if |ps| > 0 {
      var k := FirstWeakest(ps);
      if ps[k].1 == p {
        assert forall i :: 0 <= i < |ps| ==> ps[i].1 == p;
        GroupAllSame(l, p);
        BuildAllSame(l, p);
      } else {
        BuildGroupSplit(l, p);
      }
    }
  }

  /** BuildGroup when the first weakest operator q of the level is not p: each side of q separately. */
  lemma {:induction false} BuildGroupSplit(l: Infix, p: Op)
    requires p != NOT && OpsWithin(l, 0, Strength(p))
    requires |l.pairs| > 0 && l.pairs[FirstWeakest(l.pairs)].1 != p
    ensures Build(Group(l, p)) == Build(l)
    decreases |l.pairs|, 0
  {
    var ps := l.pairs;
    var k := FirstWeakest(ps);
    var q := ps[k].1;
    var left, right := Infix(ps[..k], ps[k].0), Infix(ps[k + 1..], l.last);
    assert ps == ps[..k] + [(ps[k].0, q)] + ps[k + 1..];
    SplitGroup(ps[..k], ps[k].0, q, ps[k + 1..], l.last, p);
    SplitRanges(l, p);
    GroupKeepsRange(left, p, Strength(q) + 1, Strength(p));
    GroupKeepsRange(right, p, Strength(q), Strength(p));
    BuildGroup(left, p);
    BuildGroup(right, p);
    BuildJoin(Group(left, p), q, Group(right, p));
  }

  /** Left of the first weakest operator q every operator is stronger than q, right of it at least as strong. */
  lemma {:induction false} SplitRanges(l: Infix, p: Op)
    requires OpsWithin(l, 0, Strength(p)) && |l.pairs| > 0
    ensures var ps, k := l.pairs, FirstWeakest(l.pairs);
      OpsWithin(Infix(ps[..k], ps[k].0), Strength(ps[k].1) + 1, Strength(p)) &&
      OpsWithin(Infix(ps[k + 1..], l.last), Strength(ps[k].1), Strength(p))
  {
    var ps := l.pairs;
    var k := FirstWeakest(ps);
    var left, right := Infix(ps[..k], ps[k].0), Infix(ps[k + 1..], l.last);
    forall i | 0 <= i < k ensures Strength(ps[k].1) + 1 <= Strength(left.pairs[i].1) <= Strength(p) {
      assert left.pairs[i] == ps[i];
    }
    forall i | 0 <= i < |right.pairs| ensures Strength(ps[k].1) <= Strength(right.pairs[i].1) <= Strength(p) {
      assert right.pairs[i] == ps[k + 1 + i];
    }
  }

  /** The binary passes, in order. */
  const BinaryPasses: seq<Op> := [AND, XOR, OR]

  /** The binary passes BinaryPasses[j..] applied to an infix level. */
  function GroupFrom(l: Infix, j: nat): Infix
    requires j <= |BinaryPasses|
    decreases |BinaryPasses| - j
  {
    if j == |BinaryPasses| then l else GroupFrom(Group(l, BinaryPasses[j]), j + 1)
  }

  /** A binary pass other than the last keeps the reading and leaves only weaker operators. */
  lemma {:induction false} GroupStep(l: Infix, j: nat)
    requires j < |BinaryPasses| - 1 && OpsWithin(l, 0, 2 - j)
    ensures OpsWithin(Group(l, BinaryPasses[j]), 0, 1 - j)
    ensures Build(Group(l, BinaryPasses[j])) == Build(l)
  {
    var p := BinaryPasses[j];
    var g := Group(l, p);
    assert Strength(p) == 2 - j;
    BuildGroup(l, p);
    GroupKeepsRange(l, p, 0, 2 - j);
    forall i | 0 <= i < |g.pairs| ensures Strength(g.pairs[i].1) <= 1 - j {
      assert g.pairs[i].1 != p;
    }
  }

  /** The OR pass on a level of ORs leaves its reading alone. */
  lemma {:induction false} LastGroup(l: Infix)
    requires OpsWithin(l, 0, 0)
    ensures Group(l, OR) == Infix([], Build(l))
  {
    assert forall i :: 0 <= i < |l.pairs| ==> l.pairs[i].1 == OR;
    GroupAllSame(l, OR);
    BuildAllSame(l, OR);
  }

  /** The binary passes reduce a level of binary operators to its precedence reading. */
  lemma {:induction false} GroupFromBuilds(l: Infix, j: nat)
    requires j < |BinaryPasses| && OpsWithin(l, 0, 2 - j)
    ensures GroupFrom(l, j) == Infix([], Build(l))
    decreases |BinaryPasses| - j
  {
    if j == |BinaryPasses| - 1 {
      LastGroup(l);
    } else {
      GroupStep(l, j);
      GroupFromBuilds(Group(l, BinaryPasses[j]), j + 1);
    }
  }

  /** The binary passes of the fold are GroupFrom. */
  lemma {:induction false} FoldGroups(l: Infix, j: nat)
    requires j <= |BinaryPasses| && Operands(l)
    ensures FoldFrom(Branches(l), j + 1) == Ok(Branches(GroupFrom(l, j)))
    decreases |BinaryPasses| - j
  {
    if j < |BinaryPasses| {
      assert Passes[j + 1] == BinaryPasses[j];
      PassGroup(l, [], BinaryPasses[j]);
      assert Branches(Group(l, BinaryPasses[j])) + [] == Branches(Group(l, BinaryPasses[j]));
      GroupKeepsOperands(l, BinaryPasses[j]);
      FoldGroups(Group(l, BinaryPasses[j]), j + 1);
    }
  }

  // ------------------------------------------------ the NOT pass on a written level

  /** An operand with the NOTs written before it. */
  datatype Term = Term(nots: nat, atom: Expr)

  /** A level as written: terms joined by binary operators. */
  datatype Phrase = Phrase(pairs: seq<(Term, Op)>, last: Term)

  function Nots(k: nat): seq<Expr>
  {
    seq(k, _ => Placeholder(NOT))
  }

  function TermBranches(t: Term): seq<Expr>
  {
    Nots(t.nots) + [t.atom]
  }

  function EmitPre(ps: seq<(Term, Op)>): seq<Expr>
    decreases |ps|
  {
    if |ps| == 0 then [] else EmitPre(ps[..|ps| - 1]) + TermBranches(ps[|ps| - 1].0) + [Placeholder(ps[|ps| - 1].1)]
  }

  /** The branch list the scan produces for a written level. */
  function Emit(ph: Phrase): seq<Expr>
  {
    EmitPre(ph.pairs) + TermBranches(ph.last)
  }

  /** e under k NOTs. */
  function Negations(k: nat, e: Expr): Expr
  {
    if k == 0 then e else Negations(k - 1, Oper(NOT, None, Some(e)))
  }

  function Negated(t: Term): Expr
  {
    Negations(t.nots, t.atom)
  }

  /** The level after the NOT pass: each term with its NOTs applied. */
  function Negate(ph: Phrase): Infix
  {
    Infix(seq(|ph.pairs|, i requires 0 <= i < |ph.pairs| => (Negated(ph.pairs[i].0), ph.pairs[i].1)), Negated(ph.last))
  }

  /** Atoms are operands and every joining operator is binary. */
  predicate WellWritten(ph: Phrase)
  {
    IsOperand(ph.last.atom) &&
    forall i :: 0 <= i < |ph.pairs| ==> IsOperand(ph.pairs[i].0.atom) && ph.pairs[i].1 != NOT
  }

  lemma {:induction false} NegationsOperand(k: nat, e: Expr)
    requires IsOperand(e)
    ensures IsOperand(Negations(k, e))
    decreases k
  {
    if k > 0 {
      NegationsOperand(k - 1, Oper(NOT, None, Some(e)));
    }
  }

  /** A run of NOTs, right to left, wraps the operand after it. */
  lemma {:induction false} NotsFold(todo: seq<Expr>, k: nat, e: Expr, done: seq<Expr>)
    ensures Pass(todo + Nots(k), [e] + done, NOT) == Pass(todo, [Negations(k, e)] + done, NOT)
    decreases k
  {
    if k == 0 {
      assert todo + Nots(k) == todo;
    } else {
      var t := todo + Nots(k - 1);
      assert todo + Nots(k) == t + [Placeholder(NOT)];
      assert (t + [Placeholder(NOT)])[..|t|] == t;
      assert ([e] + done)[1..] == done;
      NotsFold(todo, k - 1, Oper(NOT, None, Some(e)), done);
    }
  }

  lemma {:induction false} TermStep(todo: seq<Expr>, t: Term, done: seq<Expr>)
    requires IsOperand(t.atom)
    ensures Pass(todo + TermBranches(t), done, NOT) == Pass(todo, [Negated(t)] + done, NOT)
  {
    assert todo + TermBranches(t) == (todo + Nots(t.nots)) + [t.atom];
    PassOperandStep(todo + Nots(t.nots), t.atom, done, NOT);
    NotsFold(todo, t.nots, t.atom, done);
  }

  lemma {:induction false} EmitSnoc(ps: seq<(Term, Op)>, t: Term, o: Op, last: Term)
    ensures Emit(Phrase(ps + [(t, o)], last)) == (Emit(Phrase(ps, t)) + [Placeholder(o)]) + TermBranches(last)
  {
    assert (ps + [(t, o)])[..|ps|] == ps;
  }

  lemma {:induction false} NegateSnoc(ps: seq<(Term, Op)>, t: Term, o: Op, last: Term)
    ensures Branches(Negate(Phrase(ps + [(t, o)], last))) ==
      Branches(Negate(Phrase(ps, t))) + [Placeholder(o), Negated(last)]
  {
    var n, m := Negate(Phrase(ps + [(t, o)], last)), Negate(Phrase(ps, t));
    assert n.pairs == m.pairs + [(Negated(t), o)];
    PreSnoc(m.pairs, Negated(t), o);
  }

  lemma {:induction false} WellWrittenPrefix(ps: seq<(Term, Op)>, t: Term, o: Op, last: Term)
    requires WellWritten(Phrase(ps + [(t, o)], last))
    ensures WellWritten(Phrase(ps, t)) && o != NOT && IsOperand(last.atom)
  {
    var all := ps + [(t, o)];
    assert all[|ps|] == (t, o);
    forall i | 0 <= i < |ps| ensures IsOperand(ps[i].0.atom) && ps[i].1 != NOT {
      assert ps[i] == all[i];
    }
  }

  /** The NOT pass over a written level applies each term's NOTs. */
  lemma {:induction false} PassNegates(ph: Phrase, done: seq<Expr>)
    requires WellWritten(ph)
    ensures Pass(Emit(ph), done, NOT) == Ok(Branches(Negate(ph)) + done)
    decreases |ph.pairs|
  {
    var ps := ph.pairs;
    var v := Negated(ph.last);
    if |ps| == 0 {
      assert Pass(Emit(ph), done, NOT) == Pass([], [v] + done, NOT) by {
        assert Emit(ph) == [] + TermBranches(ph.last);
        TermStep([], ph.last, done);
      }
      assert Branches(Negate(ph)) == [v] by {
        assert Negate(ph).pairs == [];
      }
    } else {
      var ps', t, o := ps[..|ps| - 1], ps[|ps| - 1].0, ps[|ps| - 1].1;
      var sub := Phrase(ps', t);
      var moved := [Placeholder(o), v] + done;
      assert ps == ps' + [(t, o)];
      WellWrittenPrefix(ps', t, o, ph.last);
      assert Pass(Emit(ph), done, NOT) == Pass(Emit(sub), moved, NOT) by {
        EmitSnoc(ps', t, o, ph.last);
        TermStep(Emit(sub) + [Placeholder(o)], ph.last, done);
        PassSkipOpStep(Emit(sub), o, v, done, NOT);
      }
      assert Pass(Emit(sub), moved, NOT) == Ok(Branches(Negate(sub)) + moved) by {
        PassNegates(sub, moved);
      }
      assert Branches(Negate(ph)) + done == Branches(Negate(sub)) + moved by {
        NegateSnoc(ps', t, o, ph.last);
      }
    }
  }

  lemma {:induction false} NegateIsWellFormed(ph: Phrase)
    requires WellWritten(ph)
    ensures Operands(Negate(ph)) && OpsWithin(Negate(ph), 0, 2)
  {
    NegationsOperand(ph.last.nots, ph.last.atom);
    forall i | 0 <= i < |ph.pairs| ensures IsOperand(Negate(ph).pairs[i].0) {
      NegationsOperand(ph.pairs[i].0.nots, ph.pairs[i].0.atom);
    }
  }

  /** The binary passes fold a level of operands and binary operators to its precedence reading. */
  lemma {:induction false} BinaryFold(l: Infix)
    requires Operands(l) && OpsWithin(l, 0, 2)
    ensures FoldFrom(Branches(l), 1) == Ok([Build(l)])
  {
    FoldGroups(l, 0);
    GroupFromBuilds(l, 0);
    assert Branches(Infix([], Build(l))) == [Build(l)];
  }

  /**
   * Precedence: the fold of a written level is the single tree of its
   * precedence reading, NOT tightest, then AND, XOR and OR, runs of one
   * operator nested to the right.
   */
  lemma {:induction false} FoldIsPrecedence(ph: Phrase)
    requires WellWritten(ph)
    ensures FoldAll(Emit(ph)) == Ok([Build(Negate(ph))])
    ensures Reduce(Emit(ph)) == Ok(Build(Negate(ph)))
  {
    var l := Negate(ph);
    PassNegates(ph, []);
    assert Branches(l) + [] == Branches(l);
    assert Passes[0] == NOT;
    NegateIsWellFormed(ph);
    BinaryFold(l);
  }
}
