/** The parser's error type. */
module Errors {
  datatype Error =
    | TokenizeError(c: char)
    | SyntaxError(message: string)
    | EvalError(message: string)
      /**
       * Not a variant of the program's own enum: a panic the parser can reach
       * (a failed let_match, a Temp that persists, unreachable code), recorded
       * as a value so that every path of the model ends in a result.
       */
    | Panic(message: string)
}
