/**
 * Tokens of the rule language: the six token kinds in declaration order,
 * the four operators, and the mapping from operator text to operator
 * (GetOp in src/PredicateInlay.cs).
 */
module Tokens {
  import opened Wrappers

  /** Token kinds. The declaration order is the lexer's tie-break order. */
  datatype TokenType = DelimOpen | DelimClose | Separator | Operator | Literal | Word

  /** The kinds as enumerated by the lexer: in declaration order. */
  const Kinds: seq<TokenType> := [DelimOpen, DelimClose, Separator, Operator, Literal, Word]

  /** Position of a kind in the declaration order. */
  function Rank(k: TokenType): (r: nat)
    ensures r < |Kinds| && Kinds[r] == k
  {
    match k
    case DelimOpen => 0
    case DelimClose => 1
    case Separator => 2
    case Operator => 3
    case Literal => 4
    case Word => 5
  }

  datatype Token = Token(kind: TokenType, text: string)

  /** Operators, in the order the parser folds them (highest precedence first). */
  datatype Op = NOT | AND | XOR | OR

  /** The exceptions the parser can raise. */
  datatype ParseError =
    | UnknownOperator(text: string)   // ArgumentException from GetOp
    | MissingOperand                  // list index out of range while folding
    | Unreduced(count: nat)           // InvalidOperationException: a level left more than one branch

  /** Lower-casing of one character (ASCII letters only). */
  function LowerChar(c: char): char
  {
    if 'A' <= c <= 'Z' then (c as int + 32) as char else c
  }

  function Lower(s: string): string
  {
    seq(|s|, i requires 0 <= i < |s| => LowerChar(s[i]))
  }

  /** Every lower-case text the source accepts for an operator. */
  function Spellings(op: Op): set<string>
  {
    match op
    case OR => {"|", "or"}
    case AND => {"&", "and"}
    case XOR => {"^", "xor", "!="}
    case NOT => {"!", "not"}
  }

  /** The switch in GetOp: the operator named by a text, compared after lower-casing. */
  function OpOfText(text: string): (r: Result<Op, ParseError>)
    ensures r.Ok? ==> Lower(text) in Spellings(r.value)
    ensures r.Err? ==> r.error == UnknownOperator(text) && forall op :: Lower(text) !in Spellings(op)
  {
    var w := Lower(text);
    if w == "|" || w == "or" then Ok(OR)
    else if w == "&" || w == "and" then Ok(AND)
    else if w == "^" || w == "xor" || w == "!=" then Ok(XOR)
    else if w == "!" || w == "not" then Ok(NOT)
    else Err(UnknownOperator(text))
  }

  /**
   * GetOp: no operator (null) for a token that is not an Operator token,
   * the operator its text names otherwise, and an error for unknown text.
   */
  function GetOp(t: Token): (r: Result<Option<Op>, ParseError>)
    ensures t.kind != Operator ==> r == Ok(None)
    ensures t.kind == Operator ==> (r.Ok? <==> exists op :: Lower(t.text) in Spellings(op))
    ensures t.kind == Operator && r.Ok? ==> r.value.Some? && Lower(t.text) in Spellings(r.value.value)
  {
    if t.kind != Operator then Ok(None)
    else match OpOfText(t.text)
      case Ok(op) => Ok(Some(op))
      case Err(e) => Err(e)
  }

  lemma {:induction false} LowerIdempotent(s: string)
    ensures Lower(Lower(s)) == Lower(s)
  {
  }

  /** Each spelling of an operator maps back to that operator. */
  lemma {:induction false} GetOpRoundTrip(op: Op, w: string)
    requires w in Spellings(op)
    ensures GetOp(Token(Operator, w)) == Ok(Some(op))
  {
    assert Lower(w) == w by {
      match op
      case OR => assert w == "|" || w == "or";
      case AND => assert w == "&" || w == "and";
      case XOR => assert w == "^" || w == "xor" || w == "!=";
      case NOT => assert w == "!" || w == "not";
    }
  }

  /** Operator words are recognised whatever their case, e.g. "AND" and "Xor". */
  lemma {:induction false} GetOpIgnoresCase(a: string, b: string)
    requires Lower(a) == Lower(b)
    ensures GetOp(Token(Operator, a)).Ok? <==> GetOp(Token(Operator, b)).Ok?
    ensures GetOp(Token(Operator, a)).Ok? ==> GetOp(Token(Operator, a)) == GetOp(Token(Operator, b))
  {
  }

  lemma {:induction false} GetOpUpperCaseExample()
    ensures GetOp(Token(Operator, "AND")) == Ok(Some(AND))
    ensures GetOp(Token(Operator, "Xor")) == Ok(Some(XOR))
    ensures GetOp(Token(Operator, "nand")).Err?
  {
    assert Lower("AND") == "and";
    assert Lower("Xor") == "xor";
    assert Lower("nand") == "nand";
  }
}
