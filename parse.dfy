/**
 * The parser's passes as the index loops that rewrite the list: a splice
 * replaces a range by Temp, and the Temp is then overwritten by the parsed
 * expression.  Each method returns what the matching function of ParseSpec
 * computes; the list a pass takes by mutable reference is its parameter, and
 * the list it leaves is its result.
 */
module Parser {
  import opened Wrappers
  import Ascii
  import opened Errors
  import opened Expressions
  import opened Tokenizer
  import opened ParseSpec

  /** parse_impl */
  method ParseImpl(tokens: seq<Parse>) returns (r: Result<Expression, Error>)
    ensures r == Impl(tokens)
    decreases |tokens|, 1
  {
    var p := ParseParens(tokens);
    if p.Err? {
      return Err(p.error);
    }
    var w := ParseWholeNumbers(p.value);
    if w.Err? {
      return Err(w.error);
    }
    var u := ParseUnaryOps(w.value);
    if u.Err? {
      return Err(u.error);
    }
    var s := ParseSumsDifferences(u.value);
    if s.Err? {
      return Err(s.error);
    }
    r := GetResult(TrimSpaces(s.value));
  }

  /** parse_parens: scan right to left; each outermost group is parsed recursively and replaces its parentheses. */
  method ParseParens(tokens: seq<Parse>) returns (r: Result<seq<Parse>, Error>)
    ensures r == Parens(tokens)
    decreases |tokens|, 0, 1
  {
    var ts := tokens;
    var close: Option<nat> := None;
    var nested: nat := 0;
    var i: nat := |ts|;
    while i > 0
      invariant i <= |ts| <= |tokens|
      invariant close.Some? ==> i <= close.value < |ts|
      invariant ParensFrom(ts, i, close, nested) == Parens(tokens)
      decreases i
    {
      i := i - 1;
      if IsOp(ts[i], ")") {
        if close.None? {
          ParensCloses(ts, i, nested);
          close := Some(i);
        } else if nested == U8Max {
          ParensOverflow(ts, i, close.value);
          return Err(Panic("attempt to add with overflow"));
        } else {
          ParensNests(ts, i, close.value, nested);
          nested := nested + 1;
        }
      } else if IsOp(ts[i], "(") {
        if close.None? {
          ParensUnmatchedOpen(ts, i, nested);
          return Err(SyntaxError("unmatched \"(\""));
        } else if nested > 0 {
          ParensUnnests(ts, i, close.value, nested);
          nested := nested - 1;
        } else {
          ParensGroup(ts, i, close.value, nested);
          var spliced := SpliceGroup(ts, i, close.value);
          if spliced.Err? {
            return Err(spliced.error);
          }
          ts := spliced.value;
          close := None;
        }
      } else {
        ParensSkips(ts, i, close, nested);
      }
    }
    if close.Some? {
      return Err(SyntaxError("unmatched \")\""));
    }
    return Ok(ts);
  }

  // One step of the parentheses scan, for each branch of its match.

  /** The splice of parse_parens: the group becomes Temp, its inside is parsed, and the Temp is overwritten. */
  method SpliceGroup(ts: seq<Parse>, i: nat, c: nat) returns (r: Result<seq<Parse>, Error>)
    requires i < c < |ts|
    ensures r == Group(ts, i, c)
    decreases |ts|, 0, 0
  {
    var removed := ts[i + 1..c];
    var rest := ts[c + 1..];
    var spliced := ts[..i] + [Temp] + rest;
    removed := TrimSpaces(removed);
    if removed == [] {
      return Err(SyntaxError("empty parentheses"));
    }
    var inner := ParseImpl(removed);
    if inner.Err? {
      return Err(inner.error);
    }
    spliced := spliced[i := Expr(inner.value)];
    assert spliced == ts[..i] + [Expr(inner.value)] + rest;
    return Ok(spliced);
  }

  /** parse_whole_numbers: overwrite each WholeNumber token with the constant of its value. */
  method ParseWholeNumbers(tokens: seq<Parse>) returns (r: Result<seq<Parse>, Error>)
    ensures r == WholeNumbers(tokens)
  {
    var ts := tokens;
    for k := 0 to |ts|
      invariant |ts| == |tokens|
      invariant forall m :: 0 <= m < k ==> !Overflows(tokens[m])
      invariant forall m :: 0 <= m < k ==>
        if tokens[m].Tok? && tokens[m].t.WholeNumber?
        then ts[m] == Expr(Constant(Integer(DecimalValue(tokens[m].t.text))))
        else ts[m] == tokens[m]
      invariant ts[k..] == tokens[k..]
    {
      assert ts[k] == ts[k..][0] == tokens[k];
      if ts[k].Tok? && ts[k].t.WholeNumber? {
        var num := ParseI64(ts[k].t.text);
        if num.None? {
          return Err(NotANumber);
        }
        ts := ts[k := Expr(Constant(Integer(num.value)))];
      }
    }
    assert WholeNumbers(tokens).Ok?;
    assert ts == WholeNumbers(tokens).value;
    return Ok(ts);
  }

  /** parse_unary_ops: scan right to left; a unary sign and the expression after it become one expression. */
  method ParseUnaryOps(tokens: seq<Parse>) returns (r: Result<seq<Parse>, Error>)
    ensures r == Unary(tokens)
  {
    var ts := tokens;
    var exprIdx: Option<nat> := None;
    var i: nat := |ts|;
    while i > 0
      invariant i <= |ts|
      invariant exprIdx.Some? ==> i <= exprIdx.value < |ts|
      invariant UnaryFrom(ts, i, exprIdx) == Unary(tokens)
      decreases i
    {
      i := i - 1;
      UnaryStep(ts, i, exprIdx);
      if ts[i].Expr? {
        exprIdx := Some(i);
      } else if IsOperator(ts[i]) && exprIdx.Some? {
        var op := ts[i].t.text;
        if !(op == "+" || op == "-") {
          exprIdx := None;
          continue;
        }
        var w := Before(ts, i);
        if Blocks(w) {
          exprIdx := None;
        } else if Opens(w) {
          var spliced := FoldUnary(ts, i, exprIdx.value);
          if spliced.Err? {
            return Err(spliced.error);
          }
          ts := spliced.value;
          exprIdx := Some(i);
        }
      }
    }
    return Ok(ts);
  }

  /** The splice of parse_unary_ops: the sign, the Spaces after it and the operand become Temp, then the unary expression. */
  method FoldUnary(ts: seq<Parse>, i: nat, expri: nat) returns (r: Result<seq<Parse>, Error>)
    requires i <= expri < |ts|
    ensures r == SpliceUnary(ts, i, expri)
  {
    var removed := NonSpace(ts[i..expri + 1]);
    var rest := ts[expri + 1..];
    var spliced := ts[..i] + [Temp] + rest;
    if |removed| == 0 || !IsOperator(removed[0]) {
      return Err(LetMatchFailed);
    }
    var sign := removed[0].t.text;
    if |removed| == 1 || !removed[1].Expr? {
      return Err(LetMatchFailed);
    }
    var operand := removed[1].e;
    if |removed| > 2 {
      return Err(Panic("splice should have exactly 2 elements"));
    }
    var e := if sign == "+" then UnaryPlus(operand) else UnaryMinus(operand);
    spliced := spliced[i := Expr(e)];
    assert spliced == ts[..i] + [Expr(e)] + rest;
    return Ok(spliced);
  }

  /** parse_sums_differences: scan left to right; an expression, a sign and an expression become one, and the scan resumes after it. */
  method ParseSumsDifferences(tokens: seq<Parse>) returns (r: Result<seq<Parse>, Error>)
    ensures r == Sums(tokens)
  {
    var ts := tokens;
    var lhsIdx: Option<nat> := None;
    var foundOp := false;
    var i: nat := 0;
    while i < |ts|
      invariant i <= |ts|
      invariant lhsIdx.Some? ==> lhsIdx.value < i
      invariant SumsFrom(ts, i, lhsIdx, foundOp) == Sums(tokens)
      decreases |ts| - i
    {
      SumsStep(ts, i, lhsIdx, foundOp);
      if ts[i].Expr? && !foundOp {
        lhsIdx := Some(i);
      } else if IsOperator(ts[i]) && lhsIdx.Some? && !foundOp {
        var op := ts[i].t.text;
        if op == "+" || op == "-" {
          foundOp := true;
        } else {
          lhsIdx := None;
        }
      } else if IsOperator(ts[i]) && lhsIdx.Some? && foundOp {
        foundOp := false;
        lhsIdx := None;
      } else if ts[i].Expr? && lhsIdx.Some? && foundOp {
        var lhsi := lhsIdx.value;
        var spliced := FoldBinary(ts, lhsi, i);
        if spliced.Err? {
          return Err(spliced.error);
        }
        ts := spliced.value;
        i := lhsi;
        foundOp := false;
      }
      i := i + 1;
    }
    return Ok(ts);
  }

  /** The splice of parse_sums_differences: both operands, the sign and the Spaces become Temp, then the binary expression. */
  method FoldBinary(ts: seq<Parse>, lhsi: nat, i: nat) returns (r: Result<seq<Parse>, Error>)
    requires lhsi < i < |ts|
    ensures r == SpliceBinary(ts, lhsi, i)
  {
    var removed := NonSpace(ts[lhsi..i + 1]);
    var rest := ts[i + 1..];
    var spliced := ts[..lhsi] + [Temp] + rest;
    if |removed| == 0 || !removed[0].Expr? {
      return Err(LetMatchFailed);
    }
    var lhs := removed[0].e;
    if |removed| == 1 || !IsOperator(removed[1]) {
      return Err(LetMatchFailed);
    }
    var op := removed[1].t.text;
    if |removed| == 2 || !removed[2].Expr? {
      return Err(LetMatchFailed);
    }
    var rhs := removed[2].e;
    if |removed| > 3 {
      return Err(Panic("splice should have exactly 3 elements"));
    }
    var e := if op == "+" then Sum(lhs, rhs) else Difference(lhs, rhs);
    spliced := spliced[lhsi := Expr(e)];
    assert spliced == ts[..lhsi] + [Expr(e)] + rest;
    return Ok(spliced);
  }

  /** get_result: the one remaining expression, or a syntax error quoting the first run of tokens. */
  method GetResult(tokens: seq<Parse>) returns (r: Result<Expression, Error>)
    ensures r == Final(tokens)
  {
    if |tokens| == 1 && tokens[0].Expr? {
      return Ok(tokens[0].e);
    }
    var message: Option<string> := None;
    for i := 0 to |tokens| + 1
      invariant ScanFrom(tokens, i, message) == ScanFrom(tokens, 0, None)
    {
      if i < |tokens| && tokens[i].Temp? {
        return Err(Panic("Temps aren't allowed to persist"));
      } else if i < |tokens| && tokens[i].Tok? {
        var text := ToStr(tokens[i].t);
        message := Some(if message.None? then text else message.value + text);
      } else if message.Some? {
        return Err(SyntaxError("invalid syntax \"" + Ascii.Trim(message.value) + "\""));
      }
    }
    return Err(Unreachable);
  }

  /** parse */
  method Parse(expr: string) returns (r: Result<Expression, Error>)
    ensures r == ParseOf(expr)
  {
    var tokens := Tokenize(expr);
    if tokens.Err? {
      return Err(tokens.error);
    }
    r := ParseImpl(Toks(tokens.value));
  }
}
