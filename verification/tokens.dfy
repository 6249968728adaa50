/** Token kinds of the exercise grammar's lexer as far as the detokenizer
    distinguishes them, and the adjacency rule that decides where a space is
    put back between two tokens (IRBuilder.cpp, the token-class predicates and
    the body of textJoin). */
module Tokens {

  datatype Kind =
    | Letters
    | Number
    | Punctuation
    | Newline
    | Connection
    | OpenParen      // literal token T__0, '('
    | CloseParen     // literal token T__1, ')'
    | Colon          // literal token T__2, ':'
    | Semicolon      // literal token T__3, ';'
    | Dash           // literal token T__4, '-'
    | Slash          // literal token T__5, '/'
    | SquareBracket  // literal token T__6 (called both '[' and ']' by the source's comments)
    | CommaLiteral   // literal token T__7, ','
    | Other          // every other token type (task keywords, answers, ...)

  datatype Token = Token(kind: Kind, text: string)

  predicate IsWordish(k: Kind) {
    k == Letters || k == Number
  }

  /** Tokens that never get a space before them. */
  predicate NoSpaceLeft(k: Kind) {
    k == Punctuation || k == Connection || k == CloseParen || k == SquareBracket
    || k == Semicolon || k == Slash || k == CommaLiteral
  }

  /** Tokens that never get a space after them. */
  predicate NoSpaceRight(k: Kind) {
    k == OpenParen || k == Dash || k == Colon || k == Slash || k == SquareBracket
  }

  /** Whether textJoin writes one space between two consecutive non-newline
      tokens of kinds `prev` and `cur`. The suppression branch of the source
      writes nothing, exactly like falling through, so only three rules ever
      insert a space. */
  function SpaceBetween(prev: Kind, cur: Kind): (r: bool)
    ensures r ==> !NoSpaceLeft(cur) && !NoSpaceRight(prev)
    ensures r ==> IsWordish(cur) || cur == OpenParen
    ensures r ==> IsWordish(prev) || prev == CloseParen
    ensures prev == Number && cur == Number ==> !r
    ensures IsWordish(prev) && IsWordish(cur) && !(prev == Number && cur == Number) ==> r
    ensures IsWordish(prev) && cur == OpenParen ==> r
    ensures prev == CloseParen && IsWordish(cur) ==> r
    ensures prev == CloseParen && cur == OpenParen ==> !r
  {
    if prev == Number && cur == Number then false
    else if IsWordish(prev) && IsWordish(cur) then true
    else if IsWordish(prev) && cur == OpenParen then true
    else if prev == CloseParen && IsWordish(cur) then true
    else false
  }
}
