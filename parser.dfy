/**
 * The parser (Parse and MakeLeaf in src/PredicateInlay.cs).
 *
 * One level of the token array is scanned left to right into a list of
 * branches: a leaf per word (with the literals that follow it as
 * arguments), the tree of each nested group, and an unbound operator (a
 * placeholder) per operator token. The level is then folded: one pass per
 * operator, NOT, AND, XOR, OR, each scanning the branches right to left
 * and binding every placeholder of its operator to its neighbours.
 */
module Parser {
  import opened Wrappers
  import opened Tokens
  import opened Exprs

  // ---------------------------------------------------------------- leaves

  /** The texts of the Literal tokens that start at position i, up to the first other token. */
  function LiteralRun(tokens: seq<Token>, i: nat): seq<string>
    decreases |tokens| - i
  {
    if i >= |tokens| || tokens[i].kind != Literal then []
    else [tokens[i].text] + LiteralRun(tokens, i + 1)
  }

  /**
   * LiteralRun is the maximal run: every token it covers is a literal
   * whose text it holds, in order, and the token after it is not a literal.
   */
  lemma {:induction false} LiteralRunIsMaximal(tokens: seq<Token>, i: nat)
    ensures var args := LiteralRun(tokens, i);
      (|args| == 0 || i + |args| <= |tokens|) &&
      (forall k :: i <= k < i + |args| ==> tokens[k].kind == Literal && args[k - i] == tokens[k].text) &&
      (i + |args| < |tokens| ==> tokens[i + |args|].kind != Literal)
    decreases |tokens| - i
  {
    if i < |tokens| && tokens[i].kind == Literal {
      LiteralRunIsMaximal(tokens, i + 1);
    }
  }

  /** The leaf for the word at position j. */
  function WordLeaf(tokens: seq<Token>, j: nat): Expr
    requires j < |tokens|
  {
    Leaf(tokens[j].text, LiteralRun(tokens, j + 1), None)
  }

  /** What MakeLeaf returns: null unless position index holds a word. */
  function LeafAt(tokens: seq<Token>, index: int): (r: Option<Expr>)
    ensures r.None? <==> index < 0 || index >= |tokens| || tokens[index].kind != Word
    ensures r.Some? ==> r.value.Leaf? && r.value.name == tokens[index].text && r.value.cb.None?
    ensures r.Some? ==> var args := r.value.args;
      index + 1 + |args| <= |tokens| &&
      (forall k :: index < k <= index + |args| ==> tokens[k].kind == Literal && args[k - index - 1] == tokens[k].text) &&
      (index + 1 + |args| < |tokens| ==> tokens[index + 1 + |args|].kind != Literal)
  {
    if index < 0 || index >= |tokens| || tokens[index].kind != Word then None
    else
      LiteralRunIsMaximal(tokens, index + 1);
      Some(WordLeaf(tokens, index))
  }

  /**
   * MakeLeaf: the word's text as the function name and the texts of the
   * literals right after it as the arguments; null for a position outside
   * the array or a token that is not a word.
   */
  method MakeLeaf(tokens: seq<Token>, index: int) returns (r: Option<Expr>)
    ensures r == LeafAt(tokens, index)
    ensures r.None? <==> index < 0 || index >= |tokens| || tokens[index].kind != Word
  {
    if index < 0 || index >= |tokens| {
      return None;
    }
    var tok := tokens[index];
    if tok.kind != Word {
      return None;
    }
    var args: seq<string> := [];
    for i := index + 1 to |tokens|
      invariant args + LiteralRun(tokens, i) == LiteralRun(tokens, index + 1)
    {
      if tokens[i].kind != Literal {
        assert args == LiteralRun(tokens, index + 1);
        break;
      }
      assert LiteralRun(tokens, i) == [tokens[i].text] + LiteralRun(tokens, i + 1);
      assert (args + [tokens[i].text]) + LiteralRun(tokens, i + 1) == args + LiteralRun(tokens, i);
      args := args + [tokens[i].text];
    }
    assert LiteralRun(tokens, |tokens|) == [];
    assert args == LiteralRun(tokens, index + 1);
    return Some(Leaf(tok.text, args, None));
  }

  // ---------------------------------------------------------------- folding

  /** The unbound operator pushed for an operator token. */
  function Placeholder(op: Op): Expr
  {
    Oper(op, None, None)
  }

  /**
   * One folding pass for op, right to left. todo holds the branches left
   * of the scan position together with the one at it; done holds the
   * branches right of it, which the pass has gone past. A placeholder of
   * op takes the nearest branch on its right (and, unless it is NOT, the
   * nearest on its left) as operands; a missing neighbour is an index out
   * of range.
   */
  function Pass(todo: seq<Expr>, done: seq<Expr>, op: Op): (r: Result<seq<Expr>, ParseError>)
    ensures r.Err? ==> r.error == MissingOperand
    decreases |todo|
  {
    if |todo| == 0 then Ok(done)
    else
      var n := |todo| - 1;
      if todo[n] != Placeholder(op) then Pass(todo[..n], [todo[n]] + done, op)
      else if |done| == 0 then Err(MissingOperand)
      else if op == NOT then Pass(todo[..n], [Oper(NOT, None, Some(done[0]))] + done[1..], op)
      else if n == 0 then Err(MissingOperand)
      else Pass(todo[..n - 1], [Oper(op, Some(todo[n - 1]), Some(done[0]))] + done[1..], op)
  }

  /** A pass never lengthens the branch list. */
  lemma {:induction false} PassNoLonger(todo: seq<Expr>, done: seq<Expr>, op: Op)
    ensures Pass(todo, done, op).Ok? ==> |Pass(todo, done, op).value| <= |todo| + |done|
    decreases |todo|
  {
    if |todo| > 0 {
      var n := |todo| - 1;
      if todo[n] != Placeholder(op) {
        PassNoLonger(todo[..n], [todo[n]] + done, op);
      } else if |done| > 0 && op == NOT {
        PassNoLonger(todo[..n], [Oper(NOT, None, Some(done[0]))] + done[1..], op);
      } else if |done| > 0 && n > 0 {
        PassNoLonger(todo[..n - 1], [Oper(op, Some(todo[n - 1]), Some(done[0]))] + done[1..], op);
      }
    }
  }

  /** The passes, in the order the parser runs them. */
  const Passes: seq<Op> := [NOT, AND, XOR, OR]

  /** The passes Passes[k..] applied in turn. */
  function FoldFrom(bs: seq<Expr>, k: nat): (r: Result<seq<Expr>, ParseError>)
    requires k <= |Passes|
    ensures r.Ok? ==> |r.value| <= |bs|
    ensures r.Err? ==> r.error == MissingOperand
    decreases |Passes| - k
  {
    if k == |Passes| then Ok(bs)
    else
      PassNoLonger(bs, [], Passes[k]);
      match Pass(bs, [], Passes[k])
      case Err(e) => Err(e)
      case Ok(bs') => FoldFrom(bs', k + 1)
  }

  /**
   * The four passes in turn. The branch list never grows, and the only
   * failure is an operator missing an operand.
   */
  function FoldAll(bs: seq<Expr>): (r: Result<seq<Expr>, ParseError>)
    ensures r.Ok? ==> |r.value| <= |bs|
    ensures r.Err? ==> r.error == MissingOperand
  {
    FoldFrom(bs, 0)
  }

  /** The result of a level: Stub for no branch, the branch for one, an error for more. */
  function Close(bs: seq<Expr>): (r: Result<Expr, ParseError>)
    ensures r.Ok? <==> |bs| <= 1
    ensures r.Ok? ==> r.value == (if |bs| == 0 then Stub else bs[0])
    ensures r.Err? ==> r.error == Unreduced(|bs|)
  {
    if |bs| == 0 then Ok(Stub)
    else if |bs| == 1 then Ok(bs[0])
    else Err(Unreduced(|bs|))
  }

  /** Folding and closing a level. */
  function Reduce(bs: seq<Expr>): Result<Expr, ParseError>
  {
    match FoldAll(bs)
    case Err(e) => Err(e)
    case Ok(folded) => Close(folded)
  }

  // ---------------------------------------------------------------- scanning

  /** A parsed level and the cursor position it leaves behind. */
  datatype Parsed = Parsed(tree: Expr, cursor: nat)

  /** Distance of the cursor from the end of the array, 0 once past it. */
  function Remaining(tokens: seq<Token>, i: nat): nat
  {
    if i <= |tokens| then |tokens| - i else 0
  }

  /** A pending word (cWord with prevWordIndex) is the position of a word. */
  predicate PendingWord(tokens: seq<Token>, pending: Option<nat>)
  {
    pending.Some? ==> pending.value < |tokens| && tokens[pending.value].kind == Word
  }

  /** FinalizeWord, when a word is pending: its leaf is appended. */
  function WithPending(tokens: seq<Token>, bs: seq<Expr>, pending: Option<nat>): seq<Expr>
    requires PendingWord(tokens, pending)
  {
    if pending.Some? then bs + [WordLeaf(tokens, pending.value)] else bs
  }

  /** The end of a level at cursor i: the pending word is finalized and the branches reduced. */
  function Finish(tokens: seq<Token>, i: nat, bs: seq<Expr>, pending: Option<nat>): Result<Parsed, ParseError>
    requires PendingWord(tokens, pending)
  {
    match Reduce(WithPending(tokens, bs, pending))
    case Err(e) => Err(e)
    case Ok(t) => Ok(Parsed(t, i))
  }

  /** Parse from position start: one level and the cursor where it ended. */
  function ParseAt(tokens: seq<Token>, start: nat): (r: Result<Parsed, ParseError>)
    ensures r.Ok? ==> r.value.cursor >= start
    decreases Remaining(tokens, start), 1
  {
    if |tokens| == 0 then Ok(Parsed(Stub, start))
    else ScanFrom(tokens, start, [], None)
  }

  /**
   * The scan of one level from cursor i, with the branches bs and the
   * pending word so far. A token that is not a literal first finalizes the
   * pending word. An opening delimiter parses a nested group and goes on
   * after the cursor the group left; a closing delimiter ends the level;
   * an operator pushes a placeholder; a word becomes the pending word; any
   * other token is skipped.
   */
  function ScanFrom(tokens: seq<Token>, i: nat, bs: seq<Expr>, pending: Option<nat>): (r: Result<Parsed, ParseError>)
    requires PendingWord(tokens, pending)
    ensures r.Ok? ==> r.value.cursor >= i
    decreases Remaining(tokens, i), 0
  {
    if i >= |tokens| then Finish(tokens, i, bs, pending)
    else
      var t := tokens[i];
      var bs' := if t.kind != Literal then WithPending(tokens, bs, pending) else bs;
      var pending' := if t.kind != Literal then None else pending;
      match t.kind
      case DelimOpen =>
        (match ParseAt(tokens, i + 1)
         case Err(e) => Err(e)
         case Ok(p) => ScanFrom(tokens, p.cursor + 1, bs' + [p.tree], None))
      case DelimClose => Finish(tokens, i, bs', None)
      case Operator =>
        (match GetOp(t)
         case Err(e) => Err(e)
         case Ok(op) => ScanFrom(tokens, i + 1, bs' + [Placeholder(op.value)], None))
      case Word => ScanFrom(tokens, i + 1, bs', Some(i))
      case _ => ScanFrom(tokens, i + 1, bs', pending')
  }

  // ---------------------------------------------------------------- methods

  /** The scan position moves left past a branch that is not a placeholder of op. */
  lemma {:induction false} PassSkipStep(bs: seq<Expr>, i: nat, op: Op)
    requires i < |bs| && bs[i] != Placeholder(op)
    ensures Pass(bs[..i + 1], bs[i + 1..], op) == Pass(bs[..i], bs[i..], op)
  {
    assert bs[..i + 1][..i] == bs[..i];
    assert [bs[i]] + bs[i + 1..] == bs[i..];
  }

  /** Binding a binary placeholder at i to its neighbours, in place. */
  lemma {:induction false} PassBinaryStep(bs: seq<Expr>, i: nat, op: Op)
    requires 1 <= i && i + 1 < |bs| && bs[i] == Placeholder(op) && op != NOT
    ensures var bs' := bs[..i - 1] + [Oper(op, Some(bs[i - 1]), Some(bs[i + 1]))] + bs[i + 2..];
      Pass(bs[..i + 1], bs[i + 1..], op) == Pass(bs'[..i - 1], bs'[i - 1..], op)
  {
    var bs' := bs[..i - 1] + [Oper(op, Some(bs[i - 1]), Some(bs[i + 1]))] + bs[i + 2..];
    var todo, done := bs[..i + 1], bs[i + 1..];
    assert todo[..i - 1] == bs[..i - 1] == bs'[..i - 1];
    assert done[1..] == bs[i + 2..];
    assert bs'[i - 1..] == [Oper(op, Some(todo[i - 1]), Some(done[0]))] + done[1..];
  }

  /** Binding a NOT placeholder at i to its right neighbour, in place. */
  lemma {:induction false} PassNotStep(bs: seq<Expr>, i: nat)
    requires i + 1 < |bs| && bs[i] == Placeholder(NOT)
    ensures var bs' := bs[..i] + [Oper(NOT, None, Some(bs[i + 1]))] + bs[i + 2..];
      Pass(bs[..i + 1], bs[i + 1..], NOT) == Pass(bs'[..i], bs'[i..], NOT)
  {
    var bs' := bs[..i] + [Oper(NOT, None, Some(bs[i + 1]))] + bs[i + 2..];
    var todo, done := bs[..i + 1], bs[i + 1..];
    assert todo[..i] == bs[..i] == bs'[..i];
    assert done[1..] == bs[i + 2..];
    assert bs'[i..] == [Oper(NOT, None, Some(done[0]))] + done[1..];
  }

  /** One pass of the fold over the branch list, right to left, in place. */
  method FoldPass(branches: seq<Expr>, op: Op) returns (r: Result<seq<Expr>, ParseError>)
    ensures r == Pass(branches, [], op)
  {
    var bs := branches;
    var i := |bs| - 1;
    assert bs[..i + 1] == bs && bs[i + 1..] == [];
    while i >= 0
      invariant -1 <= i < |bs|
      invariant Pass(bs[..i + 1], bs[i + 1..], op) == Pass(branches, [], op)
      decreases i + 1
    {
      if bs[i] == Placeholder(op) {
        if op != NOT {
          if i + 1 >= |bs| || i - 1 < 0 {
            return Err(MissingOperand);
          }
          PassBinaryStep(bs, i, op);
          bs := bs[..i - 1] + [Oper(op, Some(bs[i - 1]), Some(bs[i + 1]))] + bs[i + 2..];
          i := i - 2;
        } else {
          if i + 1 >= |bs| {
            return Err(MissingOperand);
          }
          PassNotStep(bs, i);
          bs := bs[..i] + [Oper(NOT, None, Some(bs[i + 1]))] + bs[i + 2..];
          i := i - 1;
        }
      } else {
        PassSkipStep(bs, i, op);
        i := i - 1;
      }
    }
    assert bs[..0] == [];
    return Ok(bs);
  }

  /** The fold: the four passes in turn. */
  method Fold(branches: seq<Expr>) returns (r: Result<seq<Expr>, ParseError>)
    ensures r == FoldAll(branches)
  {
    var bs := branches;
    for k := 0 to |Passes|
      invariant FoldFrom(bs, k) == FoldAll(branches)
    {
      var res := FoldPass(bs, Passes[k]);
      if res.Err? {
        return res;
      }
      bs := res.value;
    }
    return Ok(bs);
  }

  /** One step of ScanFrom at position i, for each kind of token there. */
  lemma {:induction false} ScanCases(tokens: seq<Token>, i: nat, bs: seq<Expr>, pending: Option<nat>)
    requires i < |tokens| && PendingWord(tokens, pending)
    ensures var t := tokens[i];
      var f := if t.kind != Literal then WithPending(tokens, bs, pending) else bs;
      var sc := ScanFrom(tokens, i, bs, pending);
      && (t.kind == Literal ==> sc == ScanFrom(tokens, i + 1, bs, pending))
      && (t.kind == Separator ==> sc == ScanFrom(tokens, i + 1, f, None))
      && (t.kind == Word ==> sc == ScanFrom(tokens, i + 1, f, Some(i)))
      && (t.kind == Operator && GetOp(t).Err? ==> sc == Err(GetOp(t).error))
      && (t.kind == Operator && GetOp(t).Ok? ==> sc == ScanFrom(tokens, i + 1, f + [Placeholder(GetOp(t).value.value)], None))
      && (t.kind == DelimClose ==> sc == Finish(tokens, i, f, None))
      && (t.kind == DelimOpen && ParseAt(tokens, i + 1).Err? ==> sc == Err(ParseAt(tokens, i + 1).error))
      && (t.kind == DelimOpen && ParseAt(tokens, i + 1).Ok? ==>
            sc == ScanFrom(tokens, ParseAt(tokens, i + 1).value.cursor + 1, f + [ParseAt(tokens, i + 1).value.tree], None))
  {
  }

  /**
   * Parse, with the shared cursor: the level starting at position start,
   * and the cursor where it ended. An error stands for the exception the
   * source throws; the cursor is then of no use.
   */
  method Parse(tokens: seq<Token>, start: nat) returns (r: Result<Expr, ParseError>, index: nat)
    ensures ParseAt(tokens, start).Ok? ==>
      r == Ok(ParseAt(tokens, start).value.tree) && index == ParseAt(tokens, start).value.cursor
    ensures ParseAt(tokens, start).Err? ==> r == Err(ParseAt(tokens, start).error)
    decreases Remaining(tokens, start)
  {
    index := start;
    if |tokens| == 0 {
      return Ok(Stub), index;
    }
    var branches: seq<Expr> := [];
    var prevWordIndex: nat := index;
    var inWord := false;
    while index < |tokens|
      invariant inWord ==> prevWordIndex < |tokens| && tokens[prevWordIndex].kind == Word
      invariant ScanFrom(tokens, index, branches, if inWord then Some(prevWordIndex) else None) == ParseAt(tokens, start)
      decreases Remaining(tokens, index)
    {
      var tok := tokens[index];
      ScanCases(tokens, index, branches, if inWord then Some(prevWordIndex) else None);
      if tok.kind != Literal && inWord {
        var leaf := MakeLeaf(tokens, prevWordIndex);
        branches := branches + [leaf.value];
        inWord := false;
      }
      match tok.kind {
        case DelimOpen =>
          var sub, j := Parse(tokens, index + 1);
          if sub.Err? {
            return sub, j;
          }
          branches := branches + [sub.value];
          index := j;
        case DelimClose =>
          break;
        case Operator =>
          var op := GetOp(tok);
          if op.Err? {
            return Err(op.error), index;
          }
          branches := branches + [Placeholder(op.value.value)];
        case Word =>
          prevWordIndex := index;
          inWord := true;
        case _ =>
      }
      index := index + 1;
    }
    r := CloseLevel(tokens, index, branches, inWord, prevWordIndex);
  }

  /**
   * The end of a level (the label finish: of Parse): the pending word is
   * finalized, the branches are folded and the level is closed.
   */
  method CloseLevel(tokens: seq<Token>, index: nat, branches: seq<Expr>, inWord: bool, prevWordIndex: nat)
    returns (r: Result<Expr, ParseError>)
    requires inWord ==> prevWordIndex < |tokens| && tokens[prevWordIndex].kind == Word
    ensures var f := Finish(tokens, index, branches, if inWord then Some(prevWordIndex) else None);
      (f.Ok? ==> r == Ok(f.value.tree)) && (f.Err? ==> r == Err(f.error))
  {
    var bs := branches;
    if inWord {
      var leaf := MakeLeaf(tokens, prevWordIndex);
      bs := bs + [leaf.value];
    }
    var folded := Fold(bs);
    if folded.Err? {
      return Err(folded.error);
    }
    var level := folded.value;
    if |level| == 0 {
      r := Ok(Stub);
    } else if |level| == 1 {
      r := Ok(level[0]);
    } else {
      r := Err(Unreduced(|level|));
    }
  }
}
