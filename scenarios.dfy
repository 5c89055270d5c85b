/**
 * Worked token arrays for Parse (src/PredicateInlay.cs): the trees the
 * parser builds for a few small expressions.
 */
module Scenarios {
  import opened Wrappers
  import opened Tokens
  import opened Exprs
  import opened Parser
  import opened Levels
  import opened Precedence
  import opened Folding

  function W(s: string): Token { Token(Word, s) }
  function O(s: string): Token { Token(Operator, s) }

  function Atom(s: string): Expr { Leaf(s, [], None) }

  function Both(op: Op, l: Expr, r: Expr): Expr { Oper(op, Some(l), Some(r)) }

  /** A level without NOTs. */
  function Plain(e: Expr): Term { Term(0, e) }

  lemma {:induction false} PlainBranches(e: Expr)
    ensures TermBranches(Plain(e)) == [e]
  {
    assert Nots(0) == [];
  }

  /** A parse of a token array without delimiters, from its written form. */
  lemma {:induction false} ParseWritten(tokens: seq<Token>, ph: Phrase)
    requires NoDelims(tokens, 0, |tokens|) && |tokens| > 0
    requires WellWritten(ph) && LevelBranches(tokens, 0, |tokens|) == Ok(Emit(ph))
    ensures ParseAt(tokens, 0) == Ok(Parsed(Build(Negate(ph)), |tokens|))
  {
    ParseFlat(tokens);
    FoldIsPrecedence(ph);
    assert [] + Emit(ph) == Emit(ph);
  }

  /** The branches of a plain level x o1 y o2 z. */
  lemma {:induction false} EmitPlainThree(x: Expr, o1: Op, y: Expr, o2: Op, z: Expr)
    ensures Emit(Phrase([(Plain(x), o1), (Plain(y), o2)], Plain(z))) == [x, Placeholder(o1), y, Placeholder(o2), z]
  {
    var ps := [(Plain(x), o1), (Plain(y), o2)];
    PlainBranches(x);
    PlainBranches(y);
    PlainBranches(z);
    assert ps[..1] == [(Plain(x), o1)];
    assert ps[..1][..0] == [];
    assert EmitPre(ps[..1]) == [x, Placeholder(o1)];
    assert EmitPre(ps) == [x, Placeholder(o1), y, Placeholder(o2)];
  }

  /** The position-by-position branches of a b c with two operators between. */
  lemma {:induction false} LevelThree(a: string, o1: Op, w1: string, b: string, o2: Op, w2: string, c: string)
    requires w1 in Spellings(o1) && w2 in Spellings(o2)
    ensures LevelBranches([W(a), O(w1), W(b), O(w2), W(c)], 0, 5) ==
      Ok([Atom(a), Placeholder(o1), Atom(b), Placeholder(o2), Atom(c)])
  {
    var tokens := [W(a), O(w1), W(b), O(w2), W(c)];
    GetOpRoundTrip(o1, w1);
    GetOpRoundTrip(o2, w2);
    assert LiteralRun(tokens, 5) == [];
    assert LevelBranches(tokens, 5, 5) == Ok([]);
    assert tokens[3] == Token(Operator, w2) && tokens[1] == Token(Operator, w1);
    assert [Atom(c)] + [] == [Atom(c)];
    assert [Placeholder(o2)] + [Atom(c)] == [Placeholder(o2), Atom(c)];
    assert [Atom(b)] + [Placeholder(o2), Atom(c)] == [Atom(b), Placeholder(o2), Atom(c)];
    assert [Placeholder(o1)] + [Atom(b), Placeholder(o2), Atom(c)] == [Placeholder(o1), Atom(b), Placeholder(o2), Atom(c)];
    assert [Atom(a)] + [Placeholder(o1), Atom(b), Placeholder(o2), Atom(c)] ==
      [Atom(a), Placeholder(o1), Atom(b), Placeholder(o2), Atom(c)];
    assert WordLeaf(tokens, 2) == Atom(b) && WordLeaf(tokens, 0) == Atom(a) && WordLeaf(tokens, 4) == Atom(c);
    assert LevelBranches(tokens, 4, 5) == Ok([Atom(c)] + []);
    assert LiteralRun(tokens, 3) == [];
    assert LevelBranches(tokens, 3, 5) == Ok([Placeholder(o2)] + [Atom(c)]);
    assert LevelBranches(tokens, 2, 5) == Ok([Atom(b)] + [Placeholder(o2), Atom(c)]);
    assert LiteralRun(tokens, 1) == [];
    assert LevelBranches(tokens, 1, 5) == Ok([Placeholder(o1)] + [Atom(b), Placeholder(o2), Atom(c)]);
    assert LevelBranches(tokens, 0, 5) == Ok([Atom(a)] + [Placeholder(o1), Atom(b), Placeholder(o2), Atom(c)]);
  }

  /** Three words joined by two binary operators parse to the precedence reading of the level. */
  lemma {:induction false} ParseThree(a: string, o1: Op, w1: string, b: string, o2: Op, w2: string, c: string)
    requires w1 in Spellings(o1) && w2 in Spellings(o2) && o1 != NOT && o2 != NOT
    ensures ParseAt([W(a), O(w1), W(b), O(w2), W(c)], 0) ==
      Ok(Parsed(Build(Infix([(Atom(a), o1), (Atom(b), o2)], Atom(c))), 5))
  {
    var tokens := [W(a), O(w1), W(b), O(w2), W(c)];
    var ph := Phrase([(Plain(Atom(a)), o1), (Plain(Atom(b)), o2)], Plain(Atom(c)));
    LevelThree(a, o1, w1, b, o2, w2, c);
    EmitPlainThree(Atom(a), o1, Atom(b), o2, Atom(c));
    assert Negate(ph) == Infix([(Atom(a), o1), (Atom(b), o2)], Atom(c));
    ParseWritten(tokens, ph);
  }

  /** "a or b and c": AND binds tighter than OR, whatever the three words. */
  lemma {:induction false} AndBindsTighterThanOr(a: string, b: string, c: string)
    ensures ParseAt([W(a), O("or"), W(b), O("and"), W(c)], 0) ==
      Ok(Parsed(Both(OR, Atom(a), Both(AND, Atom(b), Atom(c))), 5))
  {
    ParseThree(a, OR, "or", b, AND, "and", c);
    var ps := [(Atom(a), OR), (Atom(b), AND)];
    assert FirstWeakest(ps) == 0;
    assert ps[..0] == [] && ps[1..] == [(Atom(b), AND)];
    assert Build(Infix([(Atom(b), AND)], Atom(c))) == Both(AND, Atom(b), Atom(c));
  }

  /** "a & b | c": the stronger operator binds first wherever it stands. */
  lemma {:induction false} AndBindsFirstOnTheLeft(a: string, b: string, c: string)
    ensures ParseAt([W(a), O("&"), W(b), O("|"), W(c)], 0) ==
      Ok(Parsed(Both(OR, Both(AND, Atom(a), Atom(b)), Atom(c)), 5))
  {
    ParseThree(a, AND, "&", b, OR, "|", c);
    var ps := [(Atom(a), AND), (Atom(b), OR)];
    assert FirstWeakest(ps) == 1;
    assert ps[..1] == [(Atom(a), AND)] && ps[2..] == [];
    assert Build(Infix([(Atom(a), AND)], Atom(b))) == Both(AND, Atom(a), Atom(b));
  }

  /** "a or b or c": a chain of one operator nests to the right. */
  lemma {:induction false} ChainNestsRight(a: string, b: string, c: string)
    ensures ParseAt([W(a), O("or"), W(b), O("or"), W(c)], 0) ==
      Ok(Parsed(Both(OR, Atom(a), Both(OR, Atom(b), Atom(c))), 5))
  {
    ParseThree(a, OR, "or", b, OR, "or", c);
    var ps := [(Atom(a), OR), (Atom(b), OR)];
    assert FirstWeakest(ps) == 0;
    assert ps[..0] == [] && ps[1..] == [(Atom(b), OR)];
    assert Build(Infix([(Atom(b), OR)], Atom(c))) == Both(OR, Atom(b), Atom(c));
  }

  /** The branches of a plain level x o y. */
  lemma {:induction false} EmitPlainTwo(x: Expr, o: Op, y: Expr)
    ensures Emit(Phrase([(Plain(x), o)], Plain(y))) == [x, Placeholder(o), y]
  {
    var ps := [(Plain(x), o)];
    PlainBranches(x);
    PlainBranches(y);
    assert ps[..0] == [];
    assert EmitPre(ps) == [x, Placeholder(o)];
  }

  /** A plain level x o y, with x and y operands, reduces to o applied to x and y. */
  lemma {:induction false} ReduceTwo(x: Expr, o: Op, y: Expr)
    requires o != NOT && IsOperand(x) && IsOperand(y)
    ensures Reduce([x, Placeholder(o), y]) == Ok(Both(o, x, y))
  {
    var ph := Phrase([(Plain(x), o)], Plain(y));
    EmitPlainTwo(x, o, y);
    FoldIsPrecedence(ph);
    assert Negate(ph) == Infix([(x, o)], y);
    assert FirstWeakest([(x, o)]) == 0;
    assert [(x, o)][..0] == [] && [(x, o)][1..] == [];
  }

  /** The branches of a word, a binary operator and a word ending a level. */
  lemma {:induction false} LevelWordOpWord(tokens: seq<Token>, i: nat, o: Op)
    requires i + 3 <= |tokens| && (i + 3 == |tokens| || tokens[i + 3].kind != Literal)
    requires tokens[i].kind == Word && tokens[i + 1].kind == Operator && tokens[i + 2].kind == Word
    requires GetOp(tokens[i + 1]) == Ok(Some(o))
    ensures LevelBranches(tokens, i, i + 3) ==
      Ok([Atom(tokens[i].text), Placeholder(o), Atom(tokens[i + 2].text)])
  {
    var a, b := Atom(tokens[i].text), Atom(tokens[i + 2].text);
    assert LiteralRun(tokens, i + 3) == [] && LiteralRun(tokens, i + 1) == [];
    assert WordLeaf(tokens, i + 2) == b && WordLeaf(tokens, i) == a;
    assert LevelBranches(tokens, i + 3, i + 3) == Ok([]);
    assert LevelBranches(tokens, i + 2, i + 3) == Ok([b] + []);
    assert [b] + [] == [b];
    assert LevelBranches(tokens, i + 1, i + 3) == Ok([Placeholder(o)] + [b]);
    assert [Placeholder(o)] + [b] == [Placeholder(o), b];
    assert LevelBranches(tokens, i, i + 3) == Ok([a] + [Placeholder(o), b]);
    assert [a] + [Placeholder(o), b] == [a, Placeholder(o), b];
  }

  /** "(a or b) and c" as tokens. */
  function GroupTokens(a: string, b: string, c: string): seq<Token>
  {
    [Token(DelimOpen, "("), W(a), O("or"), W(b), Token(DelimClose, ")"), O("and"), W(c)]
  }

  /** The group of "(a or b) and c" parses to OR(a, b) and leaves the cursor on its ")". */
  lemma {:induction false} GroupInside(a: string, b: string, c: string)
    ensures ParseAt(GroupTokens(a, b, c), 1) == Ok(Parsed(Both(OR, Atom(a), Atom(b)), 4))
  {
    var tokens := GroupTokens(a, b, c);
    GetOpRoundTrip(OR, "or");
    assert NoDelims(tokens, 1, 4);
    ScanFlat(tokens, 1, 4, [], None);
    LevelWordOpWord(tokens, 1, OR);
    assert [] + [Atom(a), Placeholder(OR), Atom(b)] == [Atom(a), Placeholder(OR), Atom(b)];
    ReduceTwo(Atom(a), OR, Atom(b));
  }

  /** After the group, "and c" completes the level with the group as left operand. */
  lemma {:induction false} GroupOutside(a: string, b: string, c: string, g: Expr)
    requires IsOperand(g)
    ensures ScanFrom(GroupTokens(a, b, c), 5, [g], None) == Ok(Parsed(Both(AND, g, Atom(c)), 7))
  {
    var tokens := GroupTokens(a, b, c);
    GetOpRoundTrip(AND, "and");
    assert NoDelims(tokens, 5, 7);
    ScanFlat(tokens, 5, 7, [g], None);
    assert LiteralRun(tokens, 7) == [];
    assert LevelBranches(tokens, 6, 7) == Ok([Atom(c)] + []);
    assert [Atom(c)] + [] == [Atom(c)];
    assert LevelBranches(tokens, 5, 7) == Ok([Placeholder(AND)] + [Atom(c)]);
    assert [g] + ([Placeholder(AND)] + [Atom(c)]) == [g, Placeholder(AND), Atom(c)];
    ReduceTwo(g, AND, Atom(c));
  }

  /** "(a or b) and c": a group is one operand of the level around it. */
  lemma {:induction false} GroupIsOneOperand(a: string, b: string, c: string)
    ensures ParseAt(GroupTokens(a, b, c), 0) == Ok(Parsed(Both(AND, Both(OR, Atom(a), Atom(b)), Atom(c)), 7))
  {
    var g := Both(OR, Atom(a), Atom(b));
    GroupInside(a, b, c);
    GroupOutside(a, b, c, g);
    assert [] + [g] == [g];
    assert ParseAt(GroupTokens(a, b, c), 0) == ScanFrom(GroupTokens(a, b, c), 5, [] + [g], None);
  }

  /** The branches of a level NOT x o y. */
  lemma {:induction false} EmitNotThenTwo(x: Expr, o: Op, y: Expr)
    ensures Emit(Phrase([(Term(1, x), o)], Plain(y))) == [Placeholder(NOT), x, Placeholder(o), y]
  {
    var ps := [(Term(1, x), o)];
    PlainBranches(y);
    assert Nots(1) == [Placeholder(NOT)];
    assert ps[..0] == [];
    assert EmitPre(ps) == [Placeholder(NOT), x, Placeholder(o)];
  }

  /** The NOT pass on a level NOT x o y negates x. */
  lemma {:induction false} NegateNotThenTwo(x: Expr, o: Op, y: Expr)
    ensures Negate(Phrase([(Term(1, x), o)], Plain(y))) == Infix([(Oper(NOT, None, Some(x)), o)], y)
  {
    var ph := Phrase([(Term(1, x), o)], Plain(y));
    assert Negations(0, Oper(NOT, None, Some(x))) == Oper(NOT, None, Some(x));
    assert Negations(1, x) == Negations(0, Oper(NOT, None, Some(x)));
    assert Negated(Term(1, x)) == Oper(NOT, None, Some(x));
    assert Negated(Plain(y)) == y;
    assert Negate(ph).pairs[0] == (Oper(NOT, None, Some(x)), o);
  }

  /** The reading of a level x o y is o applied to x and y. */
  lemma {:induction false} BuildTwo(x: Expr, o: Op, y: Expr)
    ensures Build(Infix([(x, o)], y)) == Both(o, x, y)
  {
    assert FirstWeakest([(x, o)]) == 0;
    assert [(x, o)][..0] == [] && [(x, o)][1..] == [];
  }

  /** "not a and b": NOT takes only the operand right after it. */
  lemma {:induction false} NotBindsToItsRight(a: string, b: string)
    ensures ParseAt([O("not"), W(a), O("and"), W(b)], 0) ==
      Ok(Parsed(Both(AND, Oper(NOT, None, Some(Atom(a))), Atom(b)), 4))
  {
    var tokens := [O("not"), W(a), O("and"), W(b)];
    var ph := Phrase([(Term(1, Atom(a)), AND)], Plain(Atom(b)));
    assert LevelBranches(tokens, 0, 4) == Ok([Placeholder(NOT)] + [Atom(a), Placeholder(AND), Atom(b)]) by {
      GetOpRoundTrip(NOT, "not");
      GetOpRoundTrip(AND, "and");
      LevelWordOpWord(tokens, 1, AND);
      assert LiteralRun(tokens, 1) == [];
    }
    EmitNotThenTwo(Atom(a), AND, Atom(b));
    assert [Placeholder(NOT)] + [Atom(a), Placeholder(AND), Atom(b)] == [Placeholder(NOT), Atom(a), Placeholder(AND), Atom(b)];
    NegateNotThenTwo(Atom(a), AND, Atom(b));
    BuildTwo(Oper(NOT, None, Some(Atom(a))), AND, Atom(b));
    ParseWritten(tokens, ph);
  }

  /** "f 'thing' -0.15 0.17": the literals after a word are its arguments, in order. */
  lemma {:induction false} LiteralsAreArguments(f: string, x: string, y: string, z: string)
    ensures ParseAt([W(f), Token(Literal, x), Token(Literal, y), Token(Literal, z)], 0) ==
      Ok(Parsed(Leaf(f, [x, y, z], None), 4))
  {
    var tokens := [W(f), Token(Literal, x), Token(Literal, y), Token(Literal, z)];
    var leaf := Leaf(f, [x, y, z], None);
    assert LiteralRun(tokens, 4) == [];
    assert LiteralRun(tokens, 3) == [z];
    assert LiteralRun(tokens, 2) == [y, z];
    assert LiteralRun(tokens, 1) == [x, y, z];
    assert LevelBranches(tokens, 1, 4) == Ok([]);
    assert LevelBranches(tokens, 0, 4) == Ok([leaf] + []);
    assert [leaf] + [] == [leaf];
    assert NoDelims(tokens, 0, 4);
    PlainBranches(leaf);
    assert Emit(Phrase([], Plain(leaf))) == [leaf];
    ParseWritten(tokens, Phrase([], Plain(leaf)));
  }

  /** "()": an empty group is the stub, and the cursor ends past its ")". */
  lemma {:induction false} EmptyGroupIsStub()
    ensures ParseAt([Token(DelimOpen, "("), Token(DelimClose, ")")], 0) == Ok(Parsed(Stub, 2))
  {
    var tokens := [Token(DelimOpen, "("), Token(DelimClose, ")")];
    assert Reduce([]) == Ok(Stub);
    assert ParseAt(tokens, 1) == Ok(Parsed(Stub, 1));
    PlainBranches(Stub);
    FoldIsPrecedence(Phrase([], Plain(Stub)));
    assert Reduce([Stub]) == Ok(Stub);
    assert ParseAt(tokens, 0) == ScanFrom(tokens, 2, [] + [Stub], None);
  }

  /**
   * "f -0.15 0.17 and 'thing'": the literal after the operator follows no
   * word and is dropped, so the AND has no right operand and the parse fails.
   */
  lemma {:induction false} DanglingOperatorFails(f: string, x: string, y: string, z: string)
    ensures ParseAt([W(f), Token(Literal, x), Token(Literal, y), O("and"), Token(Literal, z)], 0) ==
      Err(MissingOperand)
  {
    var tokens := [W(f), Token(Literal, x), Token(Literal, y), O("and"), Token(Literal, z)];
    var leaf := Leaf(f, [x, y], None);
    GetOpRoundTrip(AND, "and");
    assert LiteralRun(tokens, 3) == [];
    assert LiteralRun(tokens, 2) == [y];
    assert LiteralRun(tokens, 1) == [x, y];
    assert LevelBranches(tokens, 4, 5) == Ok([]);
    assert LevelBranches(tokens, 3, 5) == Ok([Placeholder(AND)] + []);
    assert [Placeholder(AND)] + [] == [Placeholder(AND)];
    assert LevelBranches(tokens, 1, 5) == Ok([Placeholder(AND)]);
    assert LevelBranches(tokens, 0, 5) == Ok([leaf] + [Placeholder(AND)]);
    assert NoDelims(tokens, 0, 5);
    ParseFlat(tokens);
    var bs := [leaf, Placeholder(AND)];
    assert [] + ([leaf] + [Placeholder(AND)]) == bs;
    assert bs[..1] == [leaf];
    PassWithoutPlaceholders(bs, [], NOT);
    assert bs + [] == bs;
    assert Pass(bs, [], AND) == Err(MissingOperand);
  }
}
