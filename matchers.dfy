/**
 * The recognition patterns of the six token kinds (RegexForTT in
 * src/PredicateInlay.cs). The lexer sees a pattern only through a matcher:
 * "find the leftmost match of this kind in this text". A matcher is
 * well-formed when every match it reports lies inside the text and ends at
 * offset 1 or later, which is what makes the lexer advance.
 *
 * Standard is a hand-written matcher for the six patterns, with .NET's
 * leftmost, first-alternative, greedy choice:
 *   DelimOpen  [([{]          DelimClose [)\]}]         Separator [\s,]+
 *   Operator   !=|[&|^!]|(and|or|xor|not)(?=\s)
 *   Literal    -?\d+(\.\d+)?|(?<=').*(?=')
 *   Word       [a-zA-Z_]+
 */
module Matchers {
  import opened Wrappers
  import opened Tokens

  /** A match: its start offset and its length. */
  datatype Match = Match(start: nat, len: nat)

  type Matcher = (TokenType, string) -> Option<Match>

  predicate Fits(s: string, m: Option<Match>)
  {
    m.Some? ==> m.value.start + m.value.len <= |s| && 1 <= m.value.start + m.value.len
  }

  ghost predicate WellFormed(matcher: Matcher)
  {
    forall k, s :: Fits(s, matcher(k, s))
  }

  // Character classes. \s is .NET's white space: tab to carriage return,
  // U+0085 and the Unicode separators (category Z). \d is ASCII digits only.

  predicate IsSpace(c: char)
  {
    '\t' <= c <= '\r' || c == ' ' || c == '\U{85}' || c == '\U{A0}' || c == '\U{1680}' ||
    '\U{2000}' <= c <= '\U{200A}' || c == '\U{2028}' || c == '\U{2029}' || c == '\U{202F}' ||
    c == '\U{205F}' || c == '\U{3000}'
  }
  predicate IsSeparatorChar(c: char) { IsSpace(c) || c == ',' }
  predicate IsDigit(c: char) { '0' <= c <= '9' }
  predicate IsWordChar(c: char) { 'a' <= c <= 'z' || 'A' <= c <= 'Z' || c == '_' }
  predicate NotNewline(c: char) { c != '\n' }

  /** Length of the longest run of characters of a class starting at p (a greedy `+` or `*`). */
  function Run(s: string, p: nat, cls: char -> bool): (n: nat)
    requires p <= |s|
    ensures p + n <= |s|
    ensures forall i :: p <= i < p + n ==> cls(s[i])
    ensures p + n == |s| || !cls(s[p + n])
    decreases |s| - p
  {
    if p < |s| && cls(s[p]) then 1 + Run(s, p + 1, cls) else 0
  }

  /** Whether the text w occurs at offset p. */
  predicate At(s: string, p: nat, w: string)
  {
    p + |w| <= |s| && s[p..p + |w|] == w
  }

  /** Whether the word w occurs at p and is followed by whitespace: `w(?=\s)`. */
  predicate KeywordAt(s: string, p: nat, w: string)
  {
    At(s, p, w) && p + |w| < |s| && IsSpace(s[p + |w|])
  }

  /** `!=|[&|^!]|(and|or|xor|not)(?=\s)` anchored at p, alternatives tried in order. */
  function OperatorAt(s: string, p: nat): (r: Option<nat>)
    requires p <= |s|
    ensures r.Some? ==> 1 <= r.value && p + r.value <= |s|
    ensures r.Some? ==> s[p..p + r.value] in {"!=", "&", "|", "^", "!", "and", "or", "xor", "not"}
  {
    if At(s, p, "!=") then Some(2)
    else if p < |s| && s[p] in "&|^!" then
      assert s[p..p + 1] == [s[p]];
      Some(1)
    else if KeywordAt(s, p, "and") then Some(3)
    else if KeywordAt(s, p, "or") then Some(2)
    else if KeywordAt(s, p, "xor") then Some(3)
    else if KeywordAt(s, p, "not") then Some(3)
    else None
  }

  /** `-?\d+(\.\d+)?` anchored at p. */
  function NumberAt(s: string, p: nat): (r: Option<nat>)
    requires p <= |s|
    ensures r.Some? ==> 1 <= r.value && p + r.value <= |s|
    ensures var sign := if p < |s| && s[p] == '-' then 1 else 0;
      r.Some? <==> p + sign < |s| && IsDigit(s[p + sign])
    ensures r.Some? ==> forall i :: p < i < p + r.value ==> IsDigit(s[i]) || s[i] == '.'
    ensures r.Some? ==> IsDigit(s[p + r.value - 1])
  {
    var sign := if p < |s| && s[p] == '-' then 1 else 0;
    var digits := Run(s, p + sign, IsDigit);
    var e := p + sign + digits;
    if digits == 0 then None
    else if e < |s| && s[e] == '.' && Run(s, e + 1, IsDigit) > 0 then
      Some(sign + digits + 1 + Run(s, e + 1, IsDigit))
    else Some(sign + digits)
  }

  /** The largest q with lo <= q < hi and s[q] a single quote. */
  function LastQuote(s: string, lo: nat, hi: nat): (r: Option<nat>)
    requires lo <= hi <= |s|
    ensures r.Some? ==> lo <= r.value < hi && s[r.value] == '\''
    ensures r.Some? ==> forall q :: r.value < q < hi ==> s[q] != '\''
    ensures r.None? ==> forall q :: lo <= q < hi ==> s[q] != '\''
    decreases hi - lo
  {
    if lo == hi then None
    else if s[hi - 1] == '\'' then Some(hi - 1)
    else LastQuote(s, lo, hi - 1)
  }

  /**
   * `(?<=').*(?=')` anchored at p: preceded by a quote, then the longest
   * stretch inside the line that is followed by a quote.
   */
  function QuotedAt(s: string, p: nat): (r: Option<nat>)
    requires p <= |s|
    ensures r.Some? ==> 1 <= p && s[p - 1] == '\'' && p + r.value < |s| && s[p + r.value] == '\''
  {
    if p == 0 || s[p - 1] != '\'' then None
    else match LastQuote(s, p, p + Run(s, p, NotNewline))
      case None => None
      case Some(q) => Some(q - p)
  }

  /** The pattern of a kind, anchored at p: the length of the match there, if any. */
  function MatchAt(k: TokenType, s: string, p: nat): (r: Option<nat>)
    requires p <= |s|
    ensures r.Some? ==> p + r.value <= |s| && 1 <= p + r.value
    ensures r.Some? && k == Operator ==> s[p..p + r.value] in {"!=", "&", "|", "^", "!", "and", "or", "xor", "not"}
  {
    match k
    case DelimOpen => if p < |s| && s[p] in "([{" then Some(1) else None
    case DelimClose => if p < |s| && s[p] in ")]}" then Some(1) else None
    case Separator => var n := Run(s, p, IsSeparatorChar); if n > 0 then Some(n) else None
    case Operator => OperatorAt(s, p)
    case Literal => if NumberAt(s, p).Some? then NumberAt(s, p) else QuotedAt(s, p)
    case Word => var n := Run(s, p, IsWordChar); if n > 0 then Some(n) else None
  }

  /** The leftmost match of a kind at offset p or later. */
  function FindFrom(k: TokenType, s: string, p: nat): (r: Option<Match>)
    requires p <= |s|
    ensures r.Some? ==> p <= r.value.start <= |s| && MatchAt(k, s, r.value.start) == Some(r.value.len)
    ensures r.Some? ==> forall q :: p <= q < r.value.start ==> MatchAt(k, s, q).None?
    ensures r.None? ==> forall q :: p <= q <= |s| ==> MatchAt(k, s, q).None?
    decreases |s| - p
  {
    match MatchAt(k, s, p)
    case Some(n) => Some(Match(p, n))
    case None => if p == |s| then None else FindFrom(k, s, p + 1)
  }

  /** Regex.Match for the pattern of each kind. */
  function Standard(k: TokenType, s: string): (r: Option<Match>)
    ensures r.Some? ==> r.value.start <= |s| && MatchAt(k, s, r.value.start) == Some(r.value.len)
    ensures r.Some? ==> forall q :: 0 <= q < r.value.start ==> MatchAt(k, s, q).None?
    ensures r.None? ==> forall q :: 0 <= q <= |s| ==> MatchAt(k, s, q).None?
  {
    FindFrom(k, s, 0)
  }

  lemma {:induction false} StandardWellFormed()
    ensures WellFormed(Standard)
  {
    forall k, s ensures Fits(s, Standard(k, s)) {
      var r := FindFrom(k, s, 0);
      if r.Some? {
        assert MatchAt(k, s, r.value.start) == Some(r.value.len);
      }
    }
  }

  /** Every Operator match of the standard matcher is an operator spelling GetOp accepts. */
  lemma {:induction false} StandardOperatorsKnown(s: string)
    requires Standard(Operator, s).Some?
    ensures var m := Standard(Operator, s).value;
      m.start + m.len <= |s| && GetOp(Token(Operator, s[m.start..m.start + m.len])).Ok?
  {
    var m := Standard(Operator, s).value;
    var w := s[m.start..m.start + m.len];
    assert w in {"!=", "&", "|", "^", "!", "and", "or", "xor", "not"};
    if w in {"|", "or"} { GetOpRoundTrip(OR, w); }
    else if w in {"&", "and"} { GetOpRoundTrip(AND, w); }
    else if w in {"^", "xor", "!="} { GetOpRoundTrip(XOR, w); }
    else { GetOpRoundTrip(NOT, w); }
  }
}
