/**
 * The tokenizer: each character is classified, then folded into the token
 * list from left to right.  Letters start identifiers and digits extend them;
 * digits start whole numbers; every punctuation character is an operator of
 * its own; a run of whitespace becomes a single Space token.
 *
 * An unknown character ends tokenization with TokenizeError(c), the error the
 * parser's entry point propagates.
 */
module Tokenizer {
  import opened Wrappers
  import opened Ascii
  import opened Errors

  datatype Token =
    | Identifier(text: string)
    | WholeNumber(text: string)
    | Operator(text: string)
    | Space

  /** What one input character is to the tokenizer (the program's Char). */
  datatype CharClass = Digit(c: char) | Letter(c: char) | Symbol(c: char) | Blank | Unknown(c: char)

  /** Char::new: ASCII letter, then ASCII digit, then ASCII punctuation, then ASCII whitespace, else unknown. */
  function Classify(c: char): (k: CharClass)
    ensures k == Letter(c) <==> IsAlphabetic(c)
    ensures k == Digit(c) <==> IsDigit(c)
    ensures k == Symbol(c) <==> IsPunctuation(c)
    ensures k == Blank <==> IsWhitespace(c)
    ensures k == Unknown(c) <==> !IsAlphabetic(c) && !IsDigit(c) && !IsPunctuation(c) && !IsWhitespace(c)
  {
    if IsAlphabetic(c) then Letter(c)
    else if IsDigit(c) then Digit(c)
    else if IsPunctuation(c) then Symbol(c)
    else if IsWhitespace(c) then Blank
    else Unknown(c)
  }

  /** The text a token stands for; a Space stands for one blank. */
  function ToStr(t: Token): string {
    match t
    case Identifier(s) => s
    case WholeNumber(s) => s
    case Operator(s) => s
    case Space => " "
  }

  /** The last token with c appended to its text. */
  function Extend(tokens: seq<Token>, c: char): seq<Token>
    requires tokens != [] && !tokens[|tokens| - 1].Space?
  {
    var last := tokens[|tokens| - 1];
    tokens[..|tokens| - 1] + [last.(text := last.text + [c])]
  }

  /** One arm of tokenize's match on (tokens.last_mut(), c). */
  function Absorb(tokens: seq<Token>, k: CharClass): Result<seq<Token>, Error> {
    match k
    case Unknown(c) => Err(TokenizeError(c))
    case Blank => if tokens != [] && tokens[|tokens| - 1].Space? then Ok(tokens) else Ok(tokens + [Space])
    case Letter(c) =>
      if tokens != [] && tokens[|tokens| - 1].Identifier? then Ok(Extend(tokens, c))
      else Ok(tokens + [Identifier([c])])
    case Digit(c) =>
      if tokens != [] && (tokens[|tokens| - 1].Identifier? || tokens[|tokens| - 1].WholeNumber?) then Ok(Extend(tokens, c))
      else Ok(tokens + [WholeNumber([c])])
    case Symbol(c) => Ok(tokens + [Operator([c])])
  }

  /** The fold of Absorb over s, starting from the tokens acc. */
  function Fold(acc: seq<Token>, s: string): Result<seq<Token>, Error>
    decreases |s|
  {
    if s == [] then Ok(acc)
    else match Absorb(acc, Classify(s[0]))
      case Err(e) => Err(e)
      case Ok(next) => Fold(next, s[1..])
  }

  function TokenizeSpec(s: string): Result<seq<Token>, Error> {
    Fold([], s)
  }

  /** tokenize, as the loop that pushes onto and extends the token list. */
  method Tokenize(expr: string) returns (r: Result<seq<Token>, Error>)
    ensures r == TokenizeSpec(expr)
  {
    var tokens: seq<Token> := [];
    for i := 0 to |expr|
      invariant Fold(tokens, expr[i..]) == TokenizeSpec(expr)
    {
      assert expr[i..][1..] == expr[i + 1..];
      var n := |tokens|;
      match Classify(expr[i]) {
        case Unknown(c) =>
          return Err(TokenizeError(c));
        case Blank =>
          if !(n > 0 && tokens[n - 1].Space?) {
            tokens := tokens + [Space];
          }
        case Letter(c) =>
          if n > 0 && tokens[n - 1].Identifier? {
            tokens := tokens[..n - 1] + [Identifier(tokens[n - 1].text + [c])];
          } else {
            tokens := tokens + [Identifier([c])];
          }
        case Digit(c) =>
          if n > 0 && tokens[n - 1].Identifier? {
            tokens := tokens[..n - 1] + [Identifier(tokens[n - 1].text + [c])];
          } else if n > 0 && tokens[n - 1].WholeNumber? {
            tokens := tokens[..n - 1] + [WholeNumber(tokens[n - 1].text + [c])];
          } else {
            tokens := tokens + [WholeNumber([c])];
          }
        case Symbol(c) =>
          tokens := tokens + [Operator([c])];
      }
    }
    assert expr[|expr|..] == [];
    return Ok(tokens);
  }
}
