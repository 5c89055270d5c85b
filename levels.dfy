/**
 * The scan of one level of tokens (Parse in src/PredicateInlay.cs),
 * described item by item: every word at the level gives one leaf, named by
 * the word and carrying the literals right after it; every operator gives
 * one placeholder; every nested group gives one branch, its own tree, and
 * the scan goes on after the cursor the group left; a literal that follows
 * no word and a separator give nothing. The level ends at its first
 * closing delimiter outside every group, or at the end of the array, and
 * what follows a top-level close is never read.
 */
module Levels {
  import opened Wrappers
  import opened Tokens
  import opened Exprs
  import opened Parser

  // ---------------------------------------------------------------- levels

  /**
   * A level read item by item: its branches, the position of the token each
   * branch comes from, and the position where the level ends (its closing
   * delimiter, or past the end of the array).
   */
  datatype Level = Level(branches: seq<Expr>, origins: seq<nat>, end: nat)

  /** Branch b, from the token at position o, in front of a level. */
  function Cons(b: Expr, o: nat, rest: Result<Level, ParseError>): Result<Level, ParseError>
  {
    match rest
    case Err(e) => Err(e)
    case Ok(l) => Ok(Level([b] + l.branches, [o] + l.origins, l.end))
  }

  /**
   * The items of the level that starts at position i, one token (or one
   * nested group) at a time; the first error of a group or of an unknown
   * operator is the level's error.
   */
  function LevelFrom(tokens: seq<Token>, i: nat): Result<Level, ParseError>
    decreases Remaining(tokens, i)
  {
    if i >= |tokens| then Ok(Level([], [], i))
    else
      var t := tokens[i];
      match t.kind
      case DelimOpen =>
        (match ParseAt(tokens, i + 1)
         case Err(e) => Err(e)
         case Ok(p) => Cons(p.tree, i, LevelFrom(tokens, p.cursor + 1)))
      case DelimClose => Ok(Level([], [], i))
      case Operator =>
        (match GetOp(t)
         case Err(e) => Err(e)
         case Ok(op) => Cons(Placeholder(op.value), i, LevelFrom(tokens, i + 1)))
      case Word => Cons(WordLeaf(tokens, i), i, LevelFrom(tokens, i + 1))
      case _ => LevelFrom(tokens, i + 1)
  }

  /** The level result once its items are known: prefix then the level's branches, reduced. */
  function FinishLevel(tokens: seq<Token>, prefix: seq<Expr>, level: Result<Level, ParseError>)
    : Result<Parsed, ParseError>
  {
    match level
    case Err(e) => Err(e)
    case Ok(l) => Finish(tokens, l.end, prefix + l.branches, None)
  }

  // ---------------------------------------------------------------- scanning is reading the level

  /**
   * Scanning from i with branches bs and a pending word gives the items of
   * the level from i after bs and the pending word's leaf, reduced, with
   * the cursor where the level ends.
   */
  lemma {:induction false} ScanLevel(tokens: seq<Token>, i: nat, bs: seq<Expr>, pending: Option<nat>)
    requires PendingWord(tokens, pending)
    ensures ScanFrom(tokens, i, bs, pending) ==
      FinishLevel(tokens, WithPending(tokens, bs, pending), LevelFrom(tokens, i))
    decreases Remaining(tokens, i), 1
  {
    var flushed := WithPending(tokens, bs, pending);
    if i >= |tokens| {
      assert flushed + [] == flushed;
    } else {
      match tokens[i].kind
      case DelimOpen => ScanGroup(tokens, i, bs, pending);
      case DelimClose => assert flushed + [] == flushed;
      case Operator => ScanOperator(tokens, i, bs, pending);
      case Word => ScanWord(tokens, i, bs, pending);
      case Literal => ScanLevel(tokens, i + 1, bs, pending);
      case Separator => ScanLevel(tokens, i + 1, flushed, None);
    }
  }

  /** One branch x moves from the prefix to the front of the level. */
  lemma {:induction false} FinishLevelCons(tokens: seq<Token>, prefix: seq<Expr>, x: Expr, o: nat,
                                           level: Result<Level, ParseError>)
    ensures FinishLevel(tokens, prefix + [x], level) == FinishLevel(tokens, prefix, Cons(x, o, level))
  {
    if level.Ok? {
      assert (prefix + [x]) + level.value.branches == prefix + ([x] + level.value.branches);
    }
  }

  /** ScanLevel when the token at i opens a group. */
  lemma {:induction false} ScanGroup(tokens: seq<Token>, i: nat, bs: seq<Expr>, pending: Option<nat>)
    requires i < |tokens| && PendingWord(tokens, pending) && tokens[i].kind == DelimOpen
    ensures ScanFrom(tokens, i, bs, pending) ==
      FinishLevel(tokens, WithPending(tokens, bs, pending), LevelFrom(tokens, i))
    decreases Remaining(tokens, i), 0
  {
    var flushed := WithPending(tokens, bs, pending);
    match ParseAt(tokens, i + 1)
    case Err(e) =>
    case Ok(p) =>
      assert ScanFrom(tokens, i, bs, pending) == ScanFrom(tokens, p.cursor + 1, flushed + [p.tree], None);
      ScanLevel(tokens, p.cursor + 1, flushed + [p.tree], None);
      FinishLevelCons(tokens, flushed, p.tree, i, LevelFrom(tokens, p.cursor + 1));
  }

  /** ScanLevel when the token at i is an operator. */
  lemma {:induction false} ScanOperator(tokens: seq<Token>, i: nat, bs: seq<Expr>, pending: Option<nat>)
    requires i < |tokens| && PendingWord(tokens, pending) && tokens[i].kind == Operator
    ensures ScanFrom(tokens, i, bs, pending) ==
      FinishLevel(tokens, WithPending(tokens, bs, pending), LevelFrom(tokens, i))
    decreases Remaining(tokens, i), 0
  {
    var t := tokens[i];
    var flushed := WithPending(tokens, bs, pending);
    if GetOp(t).Ok? {
      var p := Placeholder(GetOp(t).value.value);
      assert ScanFrom(tokens, i, bs, pending) == ScanFrom(tokens, i + 1, flushed + [p], None);
      ScanLevel(tokens, i + 1, flushed + [p], None);
      FinishLevelCons(tokens, flushed, p, i, LevelFrom(tokens, i + 1));
    }
  }

  /** ScanLevel when the token at i is a word. */
  lemma {:induction false} ScanWord(tokens: seq<Token>, i: nat, bs: seq<Expr>, pending: Option<nat>)
    requires i < |tokens| && PendingWord(tokens, pending) && tokens[i].kind == Word
    ensures ScanFrom(tokens, i, bs, pending) ==
      FinishLevel(tokens, WithPending(tokens, bs, pending), LevelFrom(tokens, i))
    decreases Remaining(tokens, i), 0
  {
    var flushed := WithPending(tokens, bs, pending);
    assert ScanFrom(tokens, i, bs, pending) == ScanFrom(tokens, i + 1, flushed, Some(i));
    ScanLevel(tokens, i + 1, flushed, Some(i));
    FinishLevelCons(tokens, flushed, WordLeaf(tokens, i), i, LevelFrom(tokens, i + 1));
  }

  /**
   * The parse of a whole array is its top level, reduced: it stops at the
   * first closing delimiter outside every group, or past the end of the
   * array, and leaves the cursor there.
   */
  lemma {:induction false} TopLevelCloseEndsParse(tokens: seq<Token>)
    ensures ParseAt(tokens, 0) == FinishLevel(tokens, [], LevelFrom(tokens, 0))
    ensures ParseAt(tokens, 0).Ok? ==>
      LevelFrom(tokens, 0).Ok? && ParseAt(tokens, 0).value.cursor == LevelFrom(tokens, 0).value.end
    ensures ParseAt(tokens, 0).Ok? && ParseAt(tokens, 0).value.cursor < |tokens| ==>
      tokens[ParseAt(tokens, 0).value.cursor].kind == DelimClose
  {
    if |tokens| > 0 {
      ScanLevel(tokens, 0, [], None);
      if LevelFrom(tokens, 0).Ok? {
        LevelEnd(tokens, 0);
      }
    } else {
      assert Reduce([]) == Ok(Stub);
    }
  }

  // ---------------------------------------------------------------- what a level holds

  /** The branch b is what the token at position k contributes to its level. */
  predicate FromToken(tokens: seq<Token>, k: nat, b: Expr)
    requires k < |tokens|
  {
    match tokens[k].kind
    case Word => b == WordLeaf(tokens, k)
    case Operator => GetOp(tokens[k]).Ok? && GetOp(tokens[k]).value.Some? &&
      b == Placeholder(GetOp(tokens[k]).value.value)
    case DelimOpen => ParseAt(tokens, k + 1).Ok? && b == ParseAt(tokens, k + 1).value.tree
    case _ => false
  }

  /** Position k lies inside the group opened at position o. */
  predicate Inside(tokens: seq<Token>, o: nat, k: nat)
  {
    o < |tokens| && tokens[o].kind == DelimOpen && ParseAt(tokens, o + 1).Ok? &&
    o < k <= ParseAt(tokens, o + 1).value.cursor
  }

  /** Position k lies inside a group opened at one of the origins. */
  predicate InGroup(tokens: seq<Token>, origins: seq<nat>, k: nat)
  {
    exists n :: 0 <= n < |origins| && Inside(tokens, origins[n], k)
  }

  /** A token that contributes nothing to its level. */
  predicate Skipped(t: Token)
  {
    t.kind == Literal || t.kind == Separator
  }

  /** The level from i ends on a closing delimiter, or past the end of the array. */
  predicate Ends(tokens: seq<Token>, i: nat, l: Level)
  {
    i <= l.end && (l.end < |tokens| ==> tokens[l.end].kind == DelimClose)
  }

  /** Every branch comes from the token at its origin, inside the level. */
  predicate Sound(tokens: seq<Token>, i: nat, l: Level)
  {
    |l.origins| == |l.branches| &&
    forall n :: 0 <= n < |l.origins| ==>
      i <= l.origins[n] < l.end && l.origins[n] < |tokens| && FromToken(tokens, l.origins[n], l.branches[n])
  }

  /** The origins follow token order. */
  predicate Ascending(origins: seq<nat>)
  {
    forall n, m :: 0 <= n < m < |origins| ==> origins[n] < origins[m]
  }

  /** Every other position of the level contributes nothing, or lies inside a group of it. */
  predicate Covers(tokens: seq<Token>, i: nat, l: Level)
  {
    forall k :: i <= k < l.end && k < |tokens| && k !in l.origins ==>
      Skipped(tokens[k]) || InGroup(tokens, l.origins, k)
  }

  predicate Describes(tokens: seq<Token>, i: nat, l: Level)
  {
    Ends(tokens, i, l) && Sound(tokens, i, l) && Ascending(l.origins) && Covers(tokens, i, l)
  }

  lemma {:induction false} LevelEnd(tokens: seq<Token>, i: nat)
    requires LevelFrom(tokens, i).Ok?
    ensures Ends(tokens, i, LevelFrom(tokens, i).value)
  {
    LevelItems(tokens, i);
  }

  /**
   * A level, read item by item: every branch comes from one token of the
   * level, in token order (a word gives its leaf, an operator its
   * placeholder, an opening delimiter the tree of its group); every other
   * position is a literal, a separator or inside one of the level's
   * groups; and the level ends on a closing delimiter or past the end of
   * the array.
   */
  lemma {:induction false} LevelItems(tokens: seq<Token>, i: nat)
    ensures LevelFrom(tokens, i).Ok? ==> Describes(tokens, i, LevelFrom(tokens, i).value)
    decreases Remaining(tokens, i), 1
  {
    if i < |tokens| && LevelFrom(tokens, i).Ok? {
      var t := tokens[i];
      if t.kind == DelimOpen {
        GroupItems(tokens, i);
      } else if t.kind == Operator || t.kind == Word {
        TokenItems(tokens, i);
      } else if t.kind != DelimClose {
        LevelItems(tokens, i + 1);
        DescribesSkip(tokens, i, LevelFrom(tokens, i + 1).value);
      }
    }
  }

  /** LevelItems when the token at i opens a group. */
  lemma {:induction false} GroupItems(tokens: seq<Token>, i: nat)
    requires i < |tokens| && tokens[i].kind == DelimOpen && LevelFrom(tokens, i).Ok?
    ensures Describes(tokens, i, LevelFrom(tokens, i).value)
    decreases Remaining(tokens, i), 0
  {
    var p := ParseAt(tokens, i + 1).value;
    var rest := LevelFrom(tokens, p.cursor + 1).value;
    assert LevelFrom(tokens, i).value == Level([p.tree] + rest.branches, [i] + rest.origins, rest.end);
    LevelItems(tokens, p.cursor + 1);
    DescribesCons(tokens, i, p.cursor + 1, p.tree, rest);
  }

  /** LevelItems when the token at i is an operator or a word. */
  lemma {:induction false} TokenItems(tokens: seq<Token>, i: nat)
    requires i < |tokens| && (tokens[i].kind == Operator || tokens[i].kind == Word) && LevelFrom(tokens, i).Ok?
    ensures Describes(tokens, i, LevelFrom(tokens, i).value)
    decreases Remaining(tokens, i), 0
  {
    var t := tokens[i];
    var b := if t.kind == Word then WordLeaf(tokens, i) else Placeholder(GetOp(t).value.value);
    var rest := LevelFrom(tokens, i + 1).value;
    assert LevelFrom(tokens, i).value == Level([b] + rest.branches, [i] + rest.origins, rest.end);
    LevelItems(tokens, i + 1);
    DescribesCons(tokens, i, i + 1, b, rest);
  }

  /** A skipped token in front of a level. */
  lemma {:induction false} DescribesSkip(tokens: seq<Token>, i: nat, l: Level)
    requires i < |tokens| && Skipped(tokens[i]) && Describes(tokens, i + 1, l)
    ensures Describes(tokens, i, l)
  {
  }

  /**
   * A branch from the token at i in front of the level that goes on at j:
   * right after it, or after the group the token opens.
   */
  lemma {:induction false} DescribesCons(tokens: seq<Token>, i: nat, j: nat, b: Expr, rest: Level)
    requires i < |tokens| && i < j && FromToken(tokens, i, b) && Describes(tokens, j, rest)
    requires j == i + 1 || (tokens[i].kind == DelimOpen && ParseAt(tokens, i + 1).Ok? &&
                            j == ParseAt(tokens, i + 1).value.cursor + 1)
    ensures Describes(tokens, i, Level([b] + rest.branches, [i] + rest.origins, rest.end))
  {
    ConsSound(tokens, i, j, b, rest);
    ConsAscending(i, j, rest.origins);
    ConsCovers(tokens, i, j, b, rest);
  }

  lemma {:induction false} ConsSound(tokens: seq<Token>, i: nat, j: nat, b: Expr, rest: Level)
    requires i < |tokens| && i < j <= rest.end && FromToken(tokens, i, b) && Sound(tokens, j, rest)
    ensures Sound(tokens, i, Level([b] + rest.branches, [i] + rest.origins, rest.end))
  {
    var l := Level([b] + rest.branches, [i] + rest.origins, rest.end);
    forall n | 0 <= n < |l.origins|
      ensures i <= l.origins[n] < l.end && l.origins[n] < |tokens| && FromToken(tokens, l.origins[n], l.branches[n])
    {
      if n > 0 {
        assert l.origins[n] == rest.origins[n - 1] && l.branches[n] == rest.branches[n - 1];
      }
    }
  }

  lemma {:induction false} ConsAscending(i: nat, j: nat, origins: seq<nat>)
    requires i < j && Ascending(origins) && forall n :: 0 <= n < |origins| ==> j <= origins[n]
    ensures Ascending([i] + origins)
  {
    var os := [i] + origins;
    forall n, m | 0 <= n < m < |os|
      ensures os[n] < os[m]
    {
      assert os[m] == origins[m - 1];
      if n > 0 {
        assert os[n] == origins[n - 1];
      }
    }
  }

  lemma {:induction false} ConsCovers(tokens: seq<Token>, i: nat, j: nat, b: Expr, rest: Level)
    requires i < j && Covers(tokens, j, rest)
    requires j == i + 1 || (i < |tokens| && tokens[i].kind == DelimOpen && ParseAt(tokens, i + 1).Ok? &&
                            j == ParseAt(tokens, i + 1).value.cursor + 1)
    ensures Covers(tokens, i, Level([b] + rest.branches, [i] + rest.origins, rest.end))
  {
    var l := Level([b] + rest.branches, [i] + rest.origins, rest.end);
    forall k | i <= k < l.end && k < |tokens| && k !in l.origins
      ensures Skipped(tokens[k]) || InGroup(tokens, l.origins, k)
    {
      assert k != l.origins[0];
      if k < j {
        assert Inside(tokens, l.origins[0], k);
      } else {
        assert k !in rest.origins;
        if !Skipped(tokens[k]) {
          var n :| 0 <= n < |rest.origins| && Inside(tokens, rest.origins[n], k);
          assert l.origins[n + 1] == rest.origins[n];
        }
      }
    }
  }

  /**
   * Every word at a level, outside its groups, gives exactly one branch:
   * its leaf, named by the word and carrying the literals right after it.
   */
  lemma {:induction false} LevelLeaves(tokens: seq<Token>, i: nat, k: nat)
    requires LevelFrom(tokens, i).Ok?
    requires i <= k < LevelFrom(tokens, i).value.end && k < |tokens| && tokens[k].kind == Word
    requires !InGroup(tokens, LevelFrom(tokens, i).value.origins, k)
    ensures var l := LevelFrom(tokens, i).value;
      exists n :: 0 <= n < |l.origins| && n < |l.branches| && l.origins[n] == k && l.branches[n] == WordLeaf(tokens, k) &&
        forall m :: 0 <= m < |l.origins| && m != n ==> l.origins[m] != k
  {
    var l := LevelFrom(tokens, i).value;
    LevelItems(tokens, i);
    assert k in l.origins;
    var n :| 0 <= n < |l.origins| && l.origins[n] == k;
    assert FromToken(tokens, l.origins[n], l.branches[n]);
    forall m | 0 <= m < |l.origins| && m != n
      ensures l.origins[m] != k
    {
      if m < n {
        assert l.origins[m] < l.origins[n];
      } else {
        assert l.origins[n] < l.origins[m];
      }
    }
  }

  // ---------------------------------------------------------------- the text after a top-level close

  /** A run of literals never reaches past a token that is not a literal. */
  lemma {:induction false} LiteralRunStops(tokens: seq<Token>, tokens2: seq<Token>, i: nat, k: nat)
    requires i <= k < |tokens| && k < |tokens2| && tokens[..k + 1] == tokens2[..k + 1]
    requires tokens[k].kind != Literal
    ensures LiteralRun(tokens, i) == LiteralRun(tokens2, i)
    decreases k - i
  {
    assert tokens[i] == tokens[..k + 1][i] == tokens2[i];
    if i < k && tokens[i].kind == Literal {
      LiteralRunStops(tokens, tokens2, i + 1, k);
    }
  }

  /** tokens and tokens2 agree up to position k. */
  predicate Agree(tokens: seq<Token>, tokens2: seq<Token>, k: nat)
  {
    k < |tokens| && k < |tokens2| && tokens[..k + 1] == tokens2[..k + 1]
  }

  lemma {:induction false} AgreeAt(tokens: seq<Token>, tokens2: seq<Token>, i: nat, k: nat)
    requires Agree(tokens, tokens2, k) && i <= k
    ensures Agree(tokens, tokens2, i) && tokens[i] == tokens2[i]
  {
    assert tokens[..i + 1] == tokens[..k + 1][..i + 1];
    assert tokens2[..i + 1] == tokens2[..k + 1][..i + 1];
    assert tokens[i] == tokens[..k + 1][i];
    assert tokens2[i] == tokens2[..k + 1][i];
  }

  /** The pending word's leaf, finalized at a token that is not a literal. */
  lemma {:induction false} PendingAgrees(tokens: seq<Token>, tokens2: seq<Token>, i: nat, k: nat,
                                         bs: seq<Expr>, pending: Option<nat>)
    requires Agree(tokens, tokens2, k) && i <= k && tokens[i].kind != Literal
    requires PendingWord(tokens, pending) && (pending.Some? ==> pending.value < i)
    ensures PendingWord(tokens2, pending)
    ensures WithPending(tokens2, bs, pending) == WithPending(tokens, bs, pending)
  {
    if pending.Some? {
      AgreeAt(tokens, tokens2, i, k);
      AgreeAt(tokens, tokens2, pending.value, k);
      LiteralRunStops(tokens, tokens2, pending.value + 1, i);
    }
  }

  /**
   * A scan whose level ends by position k gives the same result on any
   * array that agrees with tokens up to k.
   */
  lemma {:induction false} ScanAgrees(tokens: seq<Token>, tokens2: seq<Token>, i: nat, k: nat,
                                      bs: seq<Expr>, pending: Option<nat>)
    requires Agree(tokens, tokens2, k) && i <= k
    requires PendingWord(tokens, pending) && (pending.Some? ==> pending.value < i)
    requires ScanFrom(tokens, i, bs, pending).Ok? && ScanFrom(tokens, i, bs, pending).value.cursor <= k
    ensures PendingWord(tokens2, pending)
    ensures ScanFrom(tokens2, i, bs, pending) == ScanFrom(tokens, i, bs, pending)
    decreases Remaining(tokens, i), 1
  {
    AgreeAt(tokens, tokens2, i, k);
    var t := tokens[i];
    if t.kind == Literal {
      if pending.Some? {
        AgreeAt(tokens, tokens2, pending.value, k);
      }
      LiteralAgrees(tokens, tokens2, i, k, bs, pending);
    } else {
      PendingAgrees(tokens, tokens2, i, k, bs, pending);
      var flushed := WithPending(tokens, bs, pending);
      assert ScanFrom(tokens, i, bs, pending) == ScanFrom(tokens, i, flushed, None);
      assert ScanFrom(tokens2, i, bs, pending) == ScanFrom(tokens2, i, flushed, None);
      if t.kind == DelimOpen {
        GroupAgrees(tokens, tokens2, i, k, flushed);
      } else {
        StepAgrees(tokens, tokens2, i, k, flushed);
      }
    }
  }

  /** ScanAgrees when the token at i is a literal. */
  lemma {:induction false} LiteralAgrees(tokens: seq<Token>, tokens2: seq<Token>, i: nat, k: nat,
                                         bs: seq<Expr>, pending: Option<nat>)
    requires Agree(tokens, tokens2, k) && i <= k && tokens[i].kind == Literal && tokens2[i] == tokens[i]
    requires PendingWord(tokens, pending) && PendingWord(tokens2, pending) && (pending.Some? ==> pending.value < i)
    requires ScanFrom(tokens, i, bs, pending).Ok? && ScanFrom(tokens, i, bs, pending).value.cursor <= k
    ensures ScanFrom(tokens2, i, bs, pending) == ScanFrom(tokens, i, bs, pending)
    decreases Remaining(tokens, i), 0
  {
    assert ScanFrom(tokens, i, bs, pending) == ScanFrom(tokens, i + 1, bs, pending);
    ScanAgrees(tokens, tokens2, i + 1, k, bs, pending);
  }

  /** ScanAgrees when the token at i is an operator, a word, a separator or a close. */
  lemma {:induction false} StepAgrees(tokens: seq<Token>, tokens2: seq<Token>, i: nat, k: nat, bs: seq<Expr>)
    requires Agree(tokens, tokens2, k) && i <= k && tokens2[i] == tokens[i]
    requires tokens[i].kind != Literal && tokens[i].kind != DelimOpen
    requires ScanFrom(tokens, i, bs, None).Ok? && ScanFrom(tokens, i, bs, None).value.cursor <= k
    ensures ScanFrom(tokens2, i, bs, None) == ScanFrom(tokens, i, bs, None)
    decreases Remaining(tokens, i), 0
  {
    var t := tokens[i];
    match t.kind
    case DelimClose =>
    case Operator => ScanAgrees(tokens, tokens2, i + 1, k, bs + [Placeholder(GetOp(t).value.value)], None);
    case Word => ScanAgrees(tokens, tokens2, i + 1, k, bs, Some(i));
    case Separator => ScanAgrees(tokens, tokens2, i + 1, k, bs, None);
  }

  /** ScanAgrees when the token at i opens a group. */
  lemma {:induction false} GroupAgrees(tokens: seq<Token>, tokens2: seq<Token>, i: nat, k: nat, bs: seq<Expr>)
    requires Agree(tokens, tokens2, k) && i <= k && tokens[i].kind == DelimOpen && tokens2[i] == tokens[i]
    requires ScanFrom(tokens, i, bs, None).Ok? && ScanFrom(tokens, i, bs, None).value.cursor <= k
    ensures ScanFrom(tokens2, i, bs, None) == ScanFrom(tokens, i, bs, None)
    decreases Remaining(tokens, i), 0
  {
    var p := ParseAt(tokens, i + 1).value;
    ParseAgrees(tokens, tokens2, i + 1, k);
    ScanAgrees(tokens, tokens2, p.cursor + 1, k, bs + [p.tree], None);
  }

  /** A parse whose level ends by position k reads nothing after k. */
  lemma {:induction false} ParseAgrees(tokens: seq<Token>, tokens2: seq<Token>, start: nat, k: nat)
    requires Agree(tokens, tokens2, k) && start <= k
    requires ParseAt(tokens, start).Ok? && ParseAt(tokens, start).value.cursor <= k
    ensures ParseAt(tokens2, start) == ParseAt(tokens, start)
    decreases Remaining(tokens, start), 2
  {
    ScanAgrees(tokens, tokens2, start, k, [], None);
  }

  /**
   * Whatever follows the closing delimiter that ends a parse at the top
   * level is never read: any array that agrees up to it parses the same.
   */
  lemma {:induction false} AfterTopLevelCloseIgnored(tokens: seq<Token>, tokens2: seq<Token>, k: nat)
    requires ParseAt(tokens, 0).Ok? && ParseAt(tokens, 0).value.cursor == k
    requires k < |tokens| && k < |tokens2| && tokens[..k + 1] == tokens2[..k + 1]
    ensures tokens[k].kind == DelimClose
    ensures ParseAt(tokens2, 0) == ParseAt(tokens, 0)
  {
    TopLevelCloseEndsParse(tokens);
    ParseAgrees(tokens, tokens2, 0, k);
  }

  // ---------------------------------------------------------------- levels without parentheses

  /** No delimiter among tokens[i..end]. */
  predicate NoDelims(tokens: seq<Token>, i: nat, end: nat)
    requires i <= end <= |tokens|
  {
    forall k :: i <= k < end ==> tokens[k].kind != DelimOpen && tokens[k].kind != DelimClose
  }

  /** The level ends at end: the token there closes it, or the array ends. */
  predicate EndsAt(tokens: seq<Token>, end: nat)
  {
    end == |tokens| || (end < |tokens| && tokens[end].kind == DelimClose)
  }

  /**
   * The branches the tokens tokens[i..end] contribute, read position by
   * position: a leaf for each word, a placeholder for each operator,
   * nothing for anything else; the first unknown operator is an error.
   */
  function LevelBranches(tokens: seq<Token>, i: nat, end: nat): Result<seq<Expr>, ParseError>
    requires i <= end <= |tokens|
    decreases end - i
  {
    if i == end then Ok([])
    else
      var t := tokens[i];
      if t.kind == Operator && GetOp(t).Err? then Err(GetOp(t).error)
      else
        match LevelBranches(tokens, i + 1, end)
        case Err(e) => Err(e)
        case Ok(rest) =>
          if t.kind == Word then Ok([WordLeaf(tokens, i)] + rest)
          else if t.kind == Operator then Ok([Placeholder(GetOp(t).value.value)] + rest)
          else Ok(rest)
  }

  /** The branches of a level, or its error. */
  function Branches(level: Result<Level, ParseError>): Result<seq<Expr>, ParseError>
  {
    match level
    case Err(e) => Err(e)
    case Ok(l) => Ok(l.branches)
  }

  /**
   * Without delimiters, the level from i is read position by position and
   * ends at end.
   */
  lemma {:induction false} FlatLevel(tokens: seq<Token>, i: nat, end: nat)
    requires i <= end <= |tokens| && NoDelims(tokens, i, end) && EndsAt(tokens, end)
    ensures Branches(LevelFrom(tokens, i)) == LevelBranches(tokens, i, end)
    ensures LevelFrom(tokens, i).Ok? ==> LevelFrom(tokens, i).value.end == end
    decreases end - i
  {
    if i < end {
      assert NoDelims(tokens, i + 1, end);
      FlatLevel(tokens, i + 1, end);
    }
  }

  /** A level fails exactly when one of its operators is unknown. */
  lemma {:induction false} LevelFailsOnUnknownOperator(tokens: seq<Token>, i: nat, end: nat)
    requires i <= end <= |tokens|
    ensures LevelBranches(tokens, i, end).Ok? <==>
      forall k :: i <= k < end && tokens[k].kind == Operator ==> GetOp(tokens[k]).Ok?
    decreases end - i
  {
    if i < end {
      LevelFailsOnUnknownOperator(tokens, i + 1, end);
    }
  }

  /** The level result once its branches are known, ending at end. */
  function FinishFlat(tokens: seq<Token>, end: nat, prefix: seq<Expr>, level: Result<seq<Expr>, ParseError>)
    : Result<Parsed, ParseError>
  {
    if level.Err? then Err(level.error) else Finish(tokens, end, prefix + level.value, None)
  }

  /**
   * Scanning a level without delimiters from i gives its position-by-position
   * branches after bs and the pending word's leaf, reduced, with the cursor
   * at end.
   */
  lemma {:induction false} ScanFlat(tokens: seq<Token>, i: nat, end: nat, bs: seq<Expr>, pending: Option<nat>)
    requires i <= end <= |tokens| && NoDelims(tokens, i, end) && EndsAt(tokens, end)
    requires PendingWord(tokens, pending)
    ensures ScanFrom(tokens, i, bs, pending) ==
      FinishFlat(tokens, end, WithPending(tokens, bs, pending), LevelBranches(tokens, i, end))
  {
    ScanLevel(tokens, i, bs, pending);
    FlatLevel(tokens, i, end);
  }

  /**
   * A token array without delimiters parses to its position-by-position
   * branches, reduced; the cursor ends at the end of the array.
   */
  lemma {:induction false} ParseFlat(tokens: seq<Token>)
    requires NoDelims(tokens, 0, |tokens|)
    ensures ParseAt(tokens, 0) ==
      FinishFlat(tokens, |tokens|, [], LevelBranches(tokens, 0, |tokens|))
  {
    TopLevelCloseEndsParse(tokens);
    FlatLevel(tokens, 0, |tokens|);
  }

  lemma {:induction false} LevelBranchesPrefix(tokens: seq<Token>, tokens2: seq<Token>, i: nat, k: nat)
    requires i <= k < |tokens| && k < |tokens2| && tokens[..k + 1] == tokens2[..k + 1]
    requires tokens[k].kind == DelimClose
    ensures LevelBranches(tokens, i, k) == LevelBranches(tokens2, i, k)
    decreases k - i
  {
    if i < k {
      assert tokens[i] == tokens[..k + 1][i] == tokens2[i];
      LevelBranchesPrefix(tokens, tokens2, i + 1, k);
      LiteralRunStops(tokens, tokens2, i + 1, k);
    }
  }

  /**
   * Before a top-level close with no delimiter in front of it, the text
   * after the close is never read, whether the parse succeeds or fails.
   */
  lemma {:induction false} FlatCloseIgnored(tokens: seq<Token>, tokens2: seq<Token>, k: nat)
    requires k < |tokens| && tokens[k].kind == DelimClose && NoDelims(tokens, 0, k)
    requires k < |tokens2| && tokens[..k + 1] == tokens2[..k + 1]
    ensures ParseAt(tokens, 0) == ParseAt(tokens2, 0)
  {
    assert tokens2[k] == tokens2[..k + 1][k] == tokens[k];
    assert NoDelims(tokens2, 0, k) by {
      forall j | 0 <= j < k ensures tokens2[j] == tokens[j] {
        assert tokens2[j] == tokens2[..k + 1][j];
      }
    }
    ScanFlat(tokens, 0, k, [], None);
    ScanFlat(tokens2, 0, k, [], None);
    LevelBranchesPrefix(tokens, tokens2, 0, k);
    if LevelBranches(tokens, 0, k).Ok? {
      var ls := LevelBranches(tokens, 0, k).value;
      assert Finish(tokens, k, ls, None) == Finish(tokens2, k, ls, None);
    }
  }
}
