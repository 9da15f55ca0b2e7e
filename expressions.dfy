/**
 * Expression trees and their evaluation.  Only Constant is declared in the
 * program's expression module; UnaryPlus, UnaryMinus, Sum and Difference are
 * the variants the parser builds, with the meaning the parser's tests give
 * them.  Integers are unbounded here.
 */
module Expressions {
  datatype Value = Integer(n: int)

  datatype Expression =
    | Constant(value: Value)
    | UnaryPlus(operand: Expression)
    | UnaryMinus(operand: Expression)
    | Sum(lhs: Expression, rhs: Expression)
    | Difference(lhs: Expression, rhs: Expression)

  /** eval: a constant is its own value; the other variants are integer identity, negation, addition and subtraction. */
  function Eval(e: Expression): (v: Value)
    ensures e.Constant? ==> v == e.value
  {
    match e
    case Constant(v) => v
    case UnaryPlus(x) => Integer(Eval(x).n)
    case UnaryMinus(x) => Integer(-Eval(x).n)
    case Sum(l, r) => Integer(Eval(l).n + Eval(r).n)
    case Difference(l, r) => Integer(Eval(l).n - Eval(r).n)
  }
}
