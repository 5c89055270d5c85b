/**
 * The lexer (Tokenize in src/PredicateInlay.cs). Each round searches the
 * remaining text for every token kind, keeps the match that starts first
 * (ties go to the kind declared first), drops the text before it, emits
 * the match as a token unless it is a separator, and goes on after it.
 * When no kind matches, lexing stops and the tokens so far are the result.
 */
module Lexer {
  import opened Wrappers
  import opened Tokens
  import opened Matchers

  /** int.MaxValue, the initial value of the closest-start accumulator. */
  const IntMax: int := 0x7fff_ffff

  /** Match m of kind k is preferred to match m2 of kind k2. */
  predicate Beats(k: TokenType, m: Match, k2: TokenType, m2: Match)
  {
    m.start < m2.start || (m.start == m2.start && Rank(k) <= Rank(k2))
  }

  /** (k, m) is the match a round selects: it starts first, and is of the earliest kind among those. */
  ghost predicate Earliest(matcher: Matcher, s: string, k: TokenType, m: Match)
  {
    matcher(k, s) == Some(m) &&
    forall k2 :: matcher(k2, s).Some? ==> Beats(k, m, k2, matcher(k2, s).value)
  }

  /** The preferred match among the kinds Kinds[i..]. */
  function Best(matcher: Matcher, s: string, i: nat): (r: Option<(TokenType, Match)>)
    requires i <= |Kinds|
    ensures r.None? <==> forall j :: i <= j < |Kinds| ==> matcher(Kinds[j], s).None?
    ensures r.Some? ==> i <= Rank(r.value.0) && matcher(r.value.0, s) == Some(r.value.1)
    ensures r.Some? ==> forall j :: i <= j < |Kinds| && matcher(Kinds[j], s).Some? ==>
      Beats(r.value.0, r.value.1, Kinds[j], matcher(Kinds[j], s).value)
    decreases |Kinds| - i
  {
    if i == |Kinds| then None
    else
      var rest := Best(matcher, s, i + 1);
      match matcher(Kinds[i], s)
      case None => rest
      case Some(m) =>
        if rest.None? || m.start <= rest.value.1.start then Some((Kinds[i], m)) else rest
  }

  /** The match one round of the lexer selects in the remaining text s. */
  function Select(matcher: Matcher, s: string): (r: Option<(TokenType, Match)>)
    ensures r.Some? ==> matcher(r.value.0, s) == Some(r.value.1)
  {
    Best(matcher, s, 0)
  }

  /**
   * Selection: a round selects nothing exactly when no kind matches, and
   * otherwise the match with the smallest start, of the earliest-declared
   * kind among the matches at that start.
   */
  lemma {:induction false} SelectIsEarliest(matcher: Matcher, s: string)
    ensures Select(matcher, s).None? <==> forall k :: matcher(k, s).None?
    ensures Select(matcher, s).Some? ==>
      Earliest(matcher, s, Select(matcher, s).value.0, Select(matcher, s).value.1)
  {
    var r := Best(matcher, s, 0);
    if r.None? {
      forall k ensures matcher(k, s).None? {
        var j := Rank(k);
        assert Kinds[j] == k;
      }
    } else {
      forall k2 | matcher(k2, s).Some?
        ensures Beats(r.value.0, r.value.1, k2, matcher(k2, s).value)
      {
        var j := Rank(k2);
        assert Kinds[j] == k2;
        assert matcher(Kinds[j], s).Some?;
      }
    }
  }

  /** At most one match is the earliest. */
  lemma {:induction false} EarliestUnique(matcher: Matcher, s: string, k1: TokenType, m1: Match, k2: TokenType, m2: Match)
    requires Earliest(matcher, s, k1, m1) && Earliest(matcher, s, k2, m2)
    ensures k1 == k2 && m1 == m2
  {
    assert Beats(k1, m1, k2, m2) && Beats(k2, m2, k1, m1);
    assert Kinds[Rank(k1)] == k1 && Kinds[Rank(k2)] == k2;
  }

  /** What a round emits for a match of kind k with text w: nothing for a separator. */
  function Emitted(k: TokenType, w: string): seq<Token>
  {
    if k == Separator then [] else [Token(k, w)]
  }

  /**
   * One round of the lexer on s: the tokens it emits and the text left
   * after the selected match, or None when lexing stops. A match that does
   * not fit the text (which a well-formed matcher never reports) stops it
   * like no match at all.
   */
  function Round(matcher: Matcher, s: string): (r: Option<(seq<Token>, string)>)
    ensures r.Some? ==> |r.value.1| < |s|
  {
    var sel := Select(matcher, s);
    if |s| == 0 || sel.None? || !Fits(s, Some(sel.value.1)) then None
    else
      var k, m := sel.value.0, sel.value.1;
      Some((Emitted(k, s[m.start..m.start + m.len]), s[m.start + m.len..]))
  }

  /** The tokens lexed from s, round after round. */
  function Lex(matcher: Matcher, s: string): (tokens: seq<Token>)
    decreases |s|
  {
    match Round(matcher, s)
    case None => []
    case Some((emitted, rest)) => emitted + Lex(matcher, rest)
  }

  /** Separators are consumed and never emitted. */
  lemma {:induction false} LexHasNoSeparators(matcher: Matcher, s: string)
    ensures forall t :: t in Lex(matcher, s) ==> t.kind != Separator
    decreases |s|
  {
    var r := Round(matcher, s);
    if r.Some? {
      LexHasNoSeparators(matcher, r.value.1);
      assert forall t :: t in r.value.0 ==> t.kind != Separator;
    }
  }

  /**
   * One round: the first token is the text of the earliest match, and the
   * rest is lexed from the text after that match; the text before the
   * match is skipped.
   */
  lemma {:induction false} LexRound(matcher: Matcher, s: string, k: TokenType, m: Match)
    requires Earliest(matcher, s, k, m) && Fits(s, Some(m))
    ensures m.start + m.len <= |s|
    ensures Lex(matcher, s) == Emitted(k, s[m.start..m.start + m.len]) + Lex(matcher, s[m.start + m.len..])
  {
    assert Select(matcher, s) == Some((k, m)) by {
      SelectIsEarliest(matcher, s);
      var sel := Select(matcher, s);
      EarliestUnique(matcher, s, k, m, sel.value.0, sel.value.1);
    }
    LexAfter(matcher, s, k, m);
  }

  /** When the selected match fits the text, lexing goes on right after it. */
  lemma {:induction false} LexAfter(matcher: Matcher, s: string, k: TokenType, m: Match)
    requires Select(matcher, s) == Some((k, m)) && Fits(s, Some(m))
    ensures m.start + m.len <= |s|
    ensures Lex(matcher, s) == Emitted(k, s[m.start..m.start + m.len]) + Lex(matcher, s[m.start + m.len..])
  {
    assert Round(matcher, s) == Some((Emitted(k, s[m.start..m.start + m.len]), s[m.start + m.len..]));
  }

  /** When no kind matches, lexing stops without error. */
  lemma {:induction false} LexStopsWhenNothingMatches(matcher: Matcher, s: string)
    requires forall k :: matcher(k, s).None?
    ensures Lex(matcher, s) == []
  {
    SelectIsEarliest(matcher, s);
  }

  /** The token texts occur in s from left to right, without overlapping. */
  ghost predicate Embedded(tokens: seq<Token>, s: string)
    decreases |tokens|
  {
    tokens == [] ||
    exists i, j :: 0 <= i <= j <= |s| && s[i..j] == tokens[0].text && Embedded(tokens[1..], s[j..])
  }

  lemma {:induction false} EmbeddedInSuffix(tokens: seq<Token>, s: string, off: nat)
    requires off <= |s|
    requires Embedded(tokens, s[off..])
    ensures Embedded(tokens, s)
  {
    if tokens != [] {
      var i, j :| 0 <= i <= j <= |s[off..]| && s[off..][i..j] == tokens[0].text && Embedded(tokens[1..], s[off..][j..]);
      assert s[off + i..off + j] == tokens[0].text;
      assert s[off + j..] == s[off..][j..];
    }
  }

  /** Every token is the text of its match, and the matches come in order of the input. */
  lemma {:induction false} LexEmbedded(matcher: Matcher, s: string)
    ensures Embedded(Lex(matcher, s), s)
    decreases |s|
  {
    var sel := Select(matcher, s);
    if |s| > 0 && sel.Some? && Fits(s, Some(sel.value.1)) {
      var k, m := sel.value.0, sel.value.1;
      var off := m.start + m.len;
      var rest := s[off..];
      LexEmbedded(matcher, rest);
      var tail := Lex(matcher, rest);
      if k == Separator {
        assert Lex(matcher, s) == tail;
        EmbeddedInSuffix(tail, s, off);
      } else {
        var tokens := Lex(matcher, s);
        assert tokens == [Token(k, s[m.start..off])] + tail;
        assert tokens[1..] == tail;
        assert 0 <= m.start <= off <= |s| && s[m.start..off] == tokens[0].text && Embedded(tokens[1..], s[off..]);
      }
    }
  }

  /** The first scan of a round over Kinds[..n]: the matches found, in declaration order. */
  function Gather(matcher: Matcher, s: string, n: nat): seq<(TokenType, Match)>
    requires n <= |Kinds|
  {
    if n == 0 then []
    else match matcher(Kinds[n - 1], s)
      case None => Gather(matcher, s, n - 1)
      case Some(m) => Gather(matcher, s, n - 1) + [(Kinds[n - 1], m)]
  }

  /** The closest start among gathered matches, as the scan updates it: int.MaxValue to begin with. */
  function Closest(results: seq<(TokenType, Match)>): int
  {
    if |results| == 0 then IntMax
    else
      var c := Closest(results[..|results| - 1]);
      var start := results[|results| - 1].1.start;
      if start < c then start else c
  }

  /** The scan gathers every match of the kinds tried, and closest is their smallest start. */
  lemma {:induction false} GatherIsGathered(matcher: Matcher, s: string, n: nat)
    requires n <= |Kinds| && |s| < IntMax
    requires forall k :: Fits(s, matcher(k, s))
    ensures Gathered(matcher, s, n, Gather(matcher, s, n), Closest(Gather(matcher, s, n)))
  {
    GatherSound(matcher, s, n);
    GatherComplete(matcher, s, n);
    GatherOrdered(matcher, s, n);
    GatherClosest(matcher, s, n);
  }

  lemma {:induction false} GatherSound(matcher: Matcher, s: string, n: nat)
    requires n <= |Kinds|
    ensures GatheredSound(matcher, s, n, Gather(matcher, s, n))
  {
    if n > 0 {
      GatherSound(matcher, s, n - 1);
      var m := matcher(Kinds[n - 1], s);
      if m.Some? {
        SoundStep(matcher, s, n - 1, Gather(matcher, s, n - 1), m.value);
      } else {
        assert Gather(matcher, s, n) == Gather(matcher, s, n - 1);
      }
    }
  }

  lemma {:induction false} GatherComplete(matcher: Matcher, s: string, n: nat)
    requires n <= |Kinds|
    ensures GatheredComplete(matcher, s, n, Gather(matcher, s, n))
  {
    if n > 0 {
      GatherComplete(matcher, s, n - 1);
      var m := matcher(Kinds[n - 1], s);
      if m.Some? {
        CompleteStep(matcher, s, n - 1, Gather(matcher, s, n - 1), m.value);
      } else {
        assert Gather(matcher, s, n) == Gather(matcher, s, n - 1);
      }
    }
  }

  lemma {:induction false} GatherOrdered(matcher: Matcher, s: string, n: nat)
    requires n <= |Kinds|
    ensures RankOrdered(Gather(matcher, s, n))
  {
    if n > 0 {
      GatherOrdered(matcher, s, n - 1);
      var m := matcher(Kinds[n - 1], s);
      if m.Some? {
        GatherSound(matcher, s, n - 1);
        assert Rank(Kinds[n - 1]) == n - 1;
        OrderedStep(Gather(matcher, s, n - 1), (Kinds[n - 1], m.value));
      } else {
        assert Gather(matcher, s, n) == Gather(matcher, s, n - 1);
      }
    }
  }

  lemma {:induction false} GatherClosest(matcher: Matcher, s: string, n: nat)
    requires n <= |Kinds| && |s| < IntMax
    requires forall k :: Fits(s, matcher(k, s))
    ensures IsClosest(Gather(matcher, s, n), Closest(Gather(matcher, s, n)))
  {
    if n > 0 {
      GatherClosest(matcher, s, n - 1);
      var r := Gather(matcher, s, n - 1);
      var m := matcher(Kinds[n - 1], s);
      if m.Some? {
        assert Fits(s, m);
        ClosestStep(r, Closest(r), (Kinds[n - 1], m.value));
        assert (r + [(Kinds[n - 1], m.value)])[..|r|] == r;
      } else {
        assert Gather(matcher, s, n) == r;
      }
    }
  }

  /**
   * After the first scan of a round: results lists the matches of the kinds
   * tried so far (Kinds[..i]) in declaration order, and closest is the
   * smallest of their starts (int.MaxValue when there is none).
   */
  ghost predicate Gathered(matcher: Matcher, s: string, i: nat, results: seq<(TokenType, Match)>, closest: int)
  {
    GatheredSound(matcher, s, i, results) && GatheredComplete(matcher, s, i, results) &&
    RankOrdered(results) && IsClosest(results, closest)
  }

  /** Every gathered entry is the match of its kind, of a kind tried so far. */
  ghost predicate GatheredSound(matcher: Matcher, s: string, i: nat, results: seq<(TokenType, Match)>)
  {
    forall q :: 0 <= q < |results| ==> matcher(results[q].0, s) == Some(results[q].1) && Rank(results[q].0) < i
  }

  /** Every kind tried so far that matches has its match gathered. */
  ghost predicate GatheredComplete(matcher: Matcher, s: string, i: nat, results: seq<(TokenType, Match)>)
  {
    forall j :: 0 <= j < i <= |Kinds| && matcher(Kinds[j], s).Some? ==>
      (Kinds[j], matcher(Kinds[j], s).value) in results
  }

  /** The entries come in declaration order. */
  predicate RankOrdered(results: seq<(TokenType, Match)>)
  {
    forall a, b :: 0 <= a < b < |results| ==> Rank(results[a].0) < Rank(results[b].0)
  }

  /** closest is the smallest start, int.MaxValue when there is none. */
  predicate IsClosest(results: seq<(TokenType, Match)>, closest: int)
  {
    && (forall q :: 0 <= q < |results| ==> closest <= results[q].1.start)
    && (results == [] ==> closest == IntMax)
    && (results != [] ==> exists q :: 0 <= q < |results| && results[q].1.start == closest)
  }

  lemma {:induction false} SoundStep(matcher: Matcher, s: string, i: nat, results: seq<(TokenType, Match)>, m: Match)
    requires i < |Kinds| && GatheredSound(matcher, s, i, results) && matcher(Kinds[i], s) == Some(m)
    ensures GatheredSound(matcher, s, i + 1, results + [(Kinds[i], m)])
  {
    var r := results + [(Kinds[i], m)];
    forall q | 0 <= q < |r| ensures matcher(r[q].0, s) == Some(r[q].1) && Rank(r[q].0) < i + 1 {
      if q < |results| { assert r[q] == results[q]; }
    }
  }

  lemma {:induction false} CompleteStep(matcher: Matcher, s: string, i: nat, results: seq<(TokenType, Match)>, m: Match)
    requires i < |Kinds| && GatheredComplete(matcher, s, i, results) && matcher(Kinds[i], s) == Some(m)
    ensures GatheredComplete(matcher, s, i + 1, results + [(Kinds[i], m)])
  {
    var r := results + [(Kinds[i], m)];
    forall j | 0 <= j < i + 1 && matcher(Kinds[j], s).Some? ensures (Kinds[j], matcher(Kinds[j], s).value) in r {
      if j < i {
        assert (Kinds[j], matcher(Kinds[j], s).value) in results;
      } else {
        assert r[|results|] == (Kinds[i], m);
      }
    }
  }

  lemma {:induction false} OrderedStep(results: seq<(TokenType, Match)>, x: (TokenType, Match))
    requires RankOrdered(results)
    requires forall q :: 0 <= q < |results| ==> Rank(results[q].0) < Rank(x.0)
    ensures RankOrdered(results + [x])
  {
    var r := results + [x];
    forall a, b | 0 <= a < b < |r| ensures Rank(r[a].0) < Rank(r[b].0) {
      assert r[a] == results[a];
      if b < |results| { assert r[b] == results[b]; }
    }
  }

  lemma {:induction false} ClosestStep(results: seq<(TokenType, Match)>, closest: int, x: (TokenType, Match))
    requires IsClosest(results, closest) && x.1.start < IntMax
    ensures IsClosest(results + [x], if x.1.start < closest then x.1.start else closest)
  {
    var r := results + [x];
    var c := if x.1.start < closest then x.1.start else closest;
    forall q | 0 <= q < |r| ensures c <= r[q].1.start {
      if q < |results| { assert r[q] == results[q]; }
    }
    if x.1.start < closest || results == [] {
      assert r[|results|].1.start == c;
    } else {
      var q :| 0 <= q < |results| && results[q].1.start == closest;
      assert r[q] == results[q];
    }
  }

  /** When no gathered match starts at closest, nothing was gathered, so no kind matches. */
  lemma {:induction false} NoneGathered(matcher: Matcher, s: string, results: seq<(TokenType, Match)>, closest: int)
    requires Gathered(matcher, s, |Kinds|, results, closest)
    requires forall j :: 0 <= j < |results| ==> results[j].1.start != closest
    ensures forall k :: matcher(k, s).None?
  {
    assert results == [];
    forall k ensures matcher(k, s).None? {
      assert Kinds[Rank(k)] == k;
    }
  }

  /** The first gathered match that starts at closest is the earliest match. */
  lemma {:induction false} FirstClosestIsEarliest(matcher: Matcher, s: string, results: seq<(TokenType, Match)>,
                                                  closest: int, a: nat)
    requires Gathered(matcher, s, |Kinds|, results, closest)
    requires a < |results| && results[a].1.start == closest
    requires forall j :: 0 <= j < a ==> results[j].1.start != closest
    ensures Earliest(matcher, s, results[a].0, results[a].1)
  {
    var (k, m) := results[a];
    assert results[a] in results;
    forall k2 | matcher(k2, s).Some?
      ensures Beats(k, m, k2, matcher(k2, s).value)
    {
      assert Kinds[Rank(k2)] == k2;
      var t := (k2, matcher(k2, s).value);
      assert t in results;
      var b :| 0 <= b < |results| && results[b] == t;
      if b > a {
        assert Rank(k) < Rank(k2);
      }
    }
  }

  /** The second scan of a round picks the first gathered match that starts at closest. */
  lemma {:induction false} FirstClosestIsSelect(matcher: Matcher, s: string, results: seq<(TokenType, Match)>,
                                                closest: int, a: int)
    requires |s| < IntMax && forall k :: Fits(s, matcher(k, s))
    requires results == Gather(matcher, s, |Kinds|) && closest == Closest(results)
    requires 0 <= a <= |results|
    requires forall j :: 0 <= j < a ==> results[j].1.start != closest
    requires a < |results| ==> results[a].1.start == closest
    ensures a == |results| ==> Select(matcher, s).None?
    ensures a < |results| ==> Select(matcher, s) == Some(results[a])
  {
    GatherIsGathered(matcher, s, |Kinds|);
    SelectIsEarliest(matcher, s);
    if a == |results| {
      NoneGathered(matcher, s, results, closest);
    } else {
      FirstClosestIsEarliest(matcher, s, results, closest, a);
      var sel := Select(matcher, s);
      EarliestUnique(matcher, s, results[a].0, results[a].1, sel.value.0, sel.value.1);
    }
  }

  /** One round of Tokenize: the two scans over the kinds. */
  method SelectRound(matcher: Matcher, remaining: string) returns (selected: Option<(TokenType, Match)>)
    requires WellFormed(matcher)
    requires |remaining| < IntMax
    ensures selected == Select(matcher, remaining)
  {
    var results: seq<(TokenType, Match)> := [];
    var closest := IntMax;
    for i := 0 to |Kinds|
      invariant results == Gather(matcher, remaining, i) && closest == Closest(results)
    {
      var m := matcher(Kinds[i], remaining);
      if m.Some? {
        if m.value.start < closest {
          closest := m.value.start;
        }
        ghost var before := results;
        results := results + [(Kinds[i], m.value)];
        assert results[..|results| - 1] == before;
      }
    }
    selected := None;
    var a := |results|;
    for i := 0 to |results|
      invariant forall j :: 0 <= j < i ==> results[j].1.start != closest
      invariant selected.None? && a == |results|
    {
      if results[i].1.start == closest {
        selected := Some(results[i]);
        a := i;
        break;
      }
    }
    FirstClosestIsSelect(matcher, remaining, results, closest, a);
  }

  /** Lexing continues after the selected match, or stops when nothing is selected. */
  lemma {:induction false} LexSelected(matcher: Matcher, s: string)
    requires WellFormed(matcher)
    ensures Select(matcher, s).None? ==> Lex(matcher, s) == []
    ensures Select(matcher, s).Some? ==>
      var (k, m) := Select(matcher, s).value;
      m.start + m.len <= |s| &&
      Lex(matcher, s) == Emitted(k, s[m.start..m.start + m.len]) + Lex(matcher, s[m.start + m.len..])
  {
    var sel := Select(matcher, s);
    if sel.Some? {
      assert Fits(s, matcher(sel.value.0, s));
      var (k, m) := sel.value;
      assert Round(matcher, s) == Some((Emitted(k, s[m.start..m.start + m.len]), s[m.start + m.len..]));
    }
  }

  /** The tokens so far and the lexing of what remains, across one round that selects (k, m). */
  lemma {:induction false} LexStep(matcher: Matcher, s: string, tokens: seq<Token>, k: TokenType, m: Match)
    requires Select(matcher, s) == Some((k, m)) && Fits(s, Some(m))
    ensures m.start + m.len <= |s|
    ensures tokens + Lex(matcher, s) ==
      (if k != Separator then tokens + [Token(k, s[m.start..m.start + m.len])] else tokens) + Lex(matcher, s[m.start + m.len..])
  {
    var w, rest := s[m.start..m.start + m.len], s[m.start + m.len..];
    LexAfter(matcher, s, k, m);
    AppendAssoc(tokens, Emitted(k, w), Lex(matcher, rest));
    if k == Separator {
      assert tokens + Emitted(k, w) == tokens;
    }
  }

  lemma {:induction false} AppendAssoc<T>(a: seq<T>, b: seq<T>, c: seq<T>)
    ensures a + (b + c) == (a + b) + c
  {
  }

  /** Tokenize: the tokens of an expression, round by round. */
  method Tokenize(matcher: Matcher, expression: string) returns (tokens: seq<Token>)
    requires WellFormed(matcher)
    requires |expression| < IntMax
    ensures tokens == Lex(matcher, expression)
  {
    tokens := [];
    var remaining := expression;
    while |remaining| > 0
      invariant |remaining| < IntMax
      invariant tokens + Lex(matcher, remaining) == Lex(matcher, expression)
      decreases |remaining|
    {
      var selected := SelectRound(matcher, remaining);
      if selected.None? {
        LexSelected(matcher, remaining);
        break;
      }
      var kind, m := selected.value.0, selected.value.1;
      assert Fits(remaining, matcher(kind, remaining));
      LexStep(matcher, remaining, tokens, kind, m);
      var text := remaining[m.start..m.start + m.len];
      remaining := remaining[m.start + m.len..];
      if kind != Separator {
        tokens := tokens + [Token(kind, text)];
      }
    }
  }
  /** "xor " lexes as one Operator token, not a Word: both match at 0, and Operator is declared first. */
  lemma {:induction false} XorLexesAsOperator()
    ensures Lex(Standard, "xor ") == [Token(Operator, "xor")]
  {
    var s := "xor ";
    XorEarliest();
    assert s[0..3] == "xor" && s[3..] == " ";
    LexRound(Standard, s, Operator, Match(0, 3));
    SpaceIsSeparator();
  }

  lemma {:induction false} XorEarliest()
    ensures Earliest(Standard, "xor ", Operator, Match(0, 3))
  {
    XorMatches();
    forall k ensures Standard(k, "xor ").Some? ==> Beats(Operator, Match(0, 3), k, Standard(k, "xor ").value) {
      XorBeats(k);
    }
  }

  /** The operator match at 0 beats the match of every other kind. */
  lemma {:induction false} XorBeats(k: TokenType)
    ensures Standard(k, "xor ").Some? ==> Beats(Operator, Match(0, 3), k, Standard(k, "xor ").value)
  {
    match k
    case DelimOpen => XorNoDelimiter();
    case DelimClose => XorNoDelimiter();
    case Separator => XorSeparator();
    case Operator => XorMatches();
    case Literal => XorNoLiteral();
    case Word => XorMatches();
  }

  lemma {:induction false} XorMatches()
    ensures Standard(Operator, "xor ") == Some(Match(0, 3))
    ensures Standard(Word, "xor ") == Some(Match(0, 3))
  {
    var s := "xor ";
    assert s[0..2][0] == 'x' && s[0..3][0] == 'x';
    assert !At(s, 0, "!=") && s[0] !in "&|^!";
    assert !KeywordAt(s, 0, "and") && !KeywordAt(s, 0, "or");
    assert KeywordAt(s, 0, "xor");
    assert Run("xor ", 3, IsWordChar) == 0;
  }

  lemma {:induction false} XorNoDelimiter()
    ensures Standard(DelimOpen, "xor ").None? && Standard(DelimClose, "xor ").None?
  {
  }

  lemma {:induction false} XorNoLiteral()
    ensures Standard(Literal, "xor ").None?
  {
  }

  lemma {:induction false} XorSeparator()
    ensures Standard(Separator, "xor ") == Some(Match(3, 1))
  {
  }

  lemma {:induction false} SpaceIsSeparator()
    ensures Lex(Standard, " ") == []
  {
    var s := " ";
    assert Standard(Separator, s) == Some(Match(0, 1));
    forall k ensures Standard(k, s).Some? ==> Beats(Separator, Match(0, 1), k, Standard(k, s).value) {
      SpaceOnlySeparator(k);
    }
    LexRound(Standard, s, Separator, Match(0, 1));
    assert s[1..] == "";
  }

  /** A single space matches no pattern but the separator's. */
  lemma {:induction false} SpaceOnlySeparator(k: TokenType)
    ensures k != Separator ==> Standard(k, " ").None?
  {
  }
}
