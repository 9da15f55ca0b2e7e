/** What the parser's passes guarantee, proved about the functions of ParseSpec. */
module ParseProps {
  import opened Wrappers
  import opened Ascii
  import opened Errors
  import opened Expressions
  import opened Tokenizer
  import opened ParseSpec

  // ---------------------------------------------------------------------------
  // Numerals

  function DigitChar(d: nat): (c: char)
    requires d < 10
    ensures IsDigit(c) && c as int - '0' as int == d
  {
    ('0' as int + d) as char
  }

  /** The shortest numeral of n. */
  function DecimalText(n: nat): (s: string)
    ensures s != [] && AllDigits(s)
    decreases n
  {
    if n < 10 then [DigitChar(n)] else DecimalText(n / 10) + [DigitChar(n % 10)]
  }

  /** Reading back the numeral of n gives n. */
  lemma {:induction false} DecimalRoundTrip(n: nat)
    ensures DecimalValue(DecimalText(n)) == n
    decreases n
  {
    var s := DecimalText(n);
    if n < 10 {
      assert s[..|s| - 1] == [];
    } else {
      DecimalRoundTrip(n / 10);
      assert s[..|s| - 1] == DecimalText(n / 10);
    }
  }

  /** A leading zero does not change the value of a numeral. */
  lemma {:induction false} LeadingZero(s: string)
    requires AllDigits(s)
    ensures AllDigits(['0'] + s) && DecimalValue(['0'] + s) == DecimalValue(s)
    decreases |s|
  {
    var z := ['0'] + s;
    assert AllDigits(z) by {
      assert forall j :: 0 < j < |z| ==> z[j] == s[j - 1];
    }
    if s == [] {
      assert z[..|z| - 1] == [];
    } else {
      LeadingZero(s[..|s| - 1]);
      assert z[..|z| - 1] == ['0'] + s[..|s| - 1];
    }
  }

  // ---------------------------------------------------------------------------
  // The parentheses pass

  predicate NoTemp(s: seq<Parse>) {
    forall k :: 0 <= k < |s| ==> !s[k].Temp?
  }

  /** Neither a parenthesis nor a Temp. */
  predicate Flat(s: seq<Parse>) {
    forall k :: 0 <= k < |s| ==> !IsParen(s[k]) && !s[k].Temp?
  }

  /** Where the part of the list the scan has finished with starts: after the pending ")" if there is one. */
  function Done(i: nat, close: Option<nat>): nat {
    if close.Some? then close.value + 1 else i
  }

  lemma {:induction false} ParensFromFlat(ts: seq<Parse>, i: nat, close: Option<nat>, nested: nat)
    requires i <= |ts| && (close.Some? ==> i <= close.value < |ts|)
    requires NoTemp(ts) && Flat(ts[Done(i, close)..])
    ensures ParensFrom(ts, i, close, nested).Ok? ==> Flat(ParensFrom(ts, i, close, nested).value)
    decreases i, 2
  {
    if i == 0 {
      assert ts[0..] == ts;
    } else if IsOp(ts[i - 1], ")") {
      CloseFlat(ts, i - 1, close, nested);
    } else if IsOp(ts[i - 1], "(") {
      OpenFlat(ts, i - 1, close, nested);
    } else {
      var j := i - 1;
      ParensSkips(ts, j, close, nested);
      if close.None? {
        assert ts[j..] == [ts[j]] + ts[i..];
      }
      ParensFromFlat(ts, j, close, nested);
    }
  }

  /** The step of ParensFromFlat at a ")". */
  lemma {:induction false} CloseFlat(ts: seq<Parse>, j: nat, close: Option<nat>, nested: nat)
    requires j < |ts| && IsOp(ts[j], ")") && (close.Some? ==> j < close.value < |ts|)
    requires NoTemp(ts) && Flat(ts[Done(j + 1, close)..])
    ensures ParensFrom(ts, j + 1, close, nested).Ok? ==> Flat(ParensFrom(ts, j + 1, close, nested).value)
    decreases j + 1, 1
  {
    if close.None? {
      ParensCloses(ts, j, nested);
      ParensFromFlat(ts, j, Some(j), nested);
    } else if nested != U8Max {
      ParensNests(ts, j, close.value, nested);
      ParensFromFlat(ts, j, close, nested + 1);
    } else {
      ParensOverflow(ts, j, close.value);
    }
  }

  /** The step of ParensFromFlat at a "(". */
  lemma {:induction false} OpenFlat(ts: seq<Parse>, j: nat, close: Option<nat>, nested: nat)
    requires j < |ts| && IsOp(ts[j], "(") && (close.Some? ==> j < close.value < |ts|)
    requires NoTemp(ts) && Flat(ts[Done(j + 1, close)..])
    ensures ParensFrom(ts, j + 1, close, nested).Ok? ==> Flat(ParensFrom(ts, j + 1, close, nested).value)
    decreases j + 1, 1
  {
    if close.None? {
      ParensUnmatchedOpen(ts, j, nested);
    } else if nested > 0 {
      ParensUnnests(ts, j, close.value, nested);
      ParensFromFlat(ts, j, close, nested - 1);
    } else {
      GroupedFlat(ts, j, close.value);
    }
  }

  /** The step of ParensFromFlat at the "(" that closes a group. */
  lemma {:induction false} GroupedFlat(ts: seq<Parse>, j: nat, c: nat)
    requires j < c < |ts| && IsOp(ts[j], "(")
    requires NoTemp(ts) && Flat(ts[c + 1..])
    ensures ParensFrom(ts, j + 1, Some(c), 0).Ok? ==> Flat(ParensFrom(ts, j + 1, Some(c), 0).value)
    decreases j + 1, 0
  {
    ParensGroup(ts, j, c, 0);
    var g := Group(ts, j, c);
    if g.Ok? {
      GroupFlat(ts, j, c);
      ParensFromFlat(g.value, j, None, 0);
    }
  }

  /** Replacing ts[j..c + 1] by one expression keeps Temp out and the part from j on flat. */
  lemma SpliceFlat(ts: seq<Parse>, j: nat, c: nat, x: Parse, sp: seq<Parse>)
    requires j < c < |ts| && NoTemp(ts) && Flat(ts[c + 1..]) && x.Expr?
    requires sp == ts[..j] + [x] + ts[c + 1..]
    ensures NoTemp(sp) && Flat(sp[j..])
  {
    assert sp[j..] == [x] + ts[c + 1..];
    forall k | 0 <= k < |sp| ensures !sp[k].Temp? {
      if k < j {
        assert sp[k] == ts[k];
      } else if k > j {
        assert sp[k] == ts[k + c - j];
      }
    }
  }

  /** A successful splice of a group keeps Temp out and the part after it flat. */
  lemma GroupFlat(ts: seq<Parse>, j: nat, c: nat)
    requires j < c < |ts| && NoTemp(ts) && Flat(ts[c + 1..]) && Group(ts, j, c).Ok?
    ensures NoTemp(Group(ts, j, c).value) && Flat(Group(ts, j, c).value[j..])
  {
    var sp := Group(ts, j, c).value;
    SpliceFlat(ts, j, c, sp[j], sp);
  }

  /** After a successful parentheses pass no parenthesis and no Temp is left: every Temp spliced in was overwritten. */
  lemma ParensFlat(ts: seq<Parse>)
    requires NoTemp(ts)
    ensures Parens(ts).Ok? ==> Flat(Parens(ts).value)
  {
    ParensFromFlat(ts, |ts|, None, 0);
  }

  /**
   * No parenthesis in s. Recursive, so that the solver unfolds it only on
   * demand rather than at every index the scan mentions.
   */
  predicate NoParens(s: seq<Parse>)
    decreases |s|
  {
    s == [] || (!IsParen(s[|s| - 1]) && NoParens(s[..|s| - 1]))
  }

  /** Elements other than parentheses leave the scan's state as it was. */
  lemma {:induction false} ParensSkip(ts: seq<Parse>, i: nat, k: nat, close: Option<nat>, nested: nat)
    requires k <= i <= |ts| && (close.Some? ==> i <= close.value < |ts|)
    requires NoParens(ts[k..i])
    ensures ParensFrom(ts, i, close, nested) == ParensFrom(ts, k, close, nested)
    decreases i
  {
    if i > k {
      assert ts[k..i][..i - 1 - k] == ts[k..i - 1];
      ParensSkip(ts, i - 1, k, close, nested);
    }
  }

  /** The scan reaches the rightmost parenthesis, at k, in its initial state. */
  lemma ScanToLast(ts: seq<Parse>, k: nat)
    requires k < |ts| && NoParens(ts[k + 1..])
    ensures Parens(ts) == ParensFrom(ts, k + 1, None, 0)
  {
    assert ts[k + 1..|ts|] == ts[k + 1..];
    ParensSkip(ts, |ts|, k + 1, None, 0);
  }

  /** If the rightmost parenthesis is "(", it has no ")" to close it. */
  lemma UnmatchedOpen(ts: seq<Parse>, k: nat)
    requires k < |ts| && IsOp(ts[k], "(") && NoParens(ts[k + 1..])
    ensures Parens(ts) == Err(SyntaxError("unmatched \"(\""))
  {
    ScanToLast(ts, k);
    ParensUnmatchedOpen(ts, k, 0);
  }

  predicate NoOpen(s: seq<Parse>) {
    forall k :: 0 <= k < |s| ==> !IsOp(s[k], "(")
  }

  /** The number of ")" operators. */
  function Closes(s: seq<Parse>): nat
    decreases |s|
  {
    if s == [] then 0 else Closes(s[..|s| - 1]) + (if IsOp(s[|s| - 1], ")") then 1 else 0)
  }

  lemma {:induction false} ParensFromWithoutOpen(ts: seq<Parse>, i: nat, close: Option<nat>, nested: nat)
    requires i <= |ts| && (close.Some? ==> i <= close.value < |ts|) && nested <= U8Max
    requires NoOpen(ts[..i])
    ensures ParensFrom(ts, i, close, nested)
         == if close.None? && Closes(ts[..i]) == 0 then Ok(ts)
            else if nested + Closes(ts[..i]) - (if close.None? then 1 else 0) > U8Max then Err(Panic("attempt to add with overflow"))
            else Err(SyntaxError("unmatched \")\""))
    decreases i
  {
    if i > 0 {
      var j := i - 1;
      assert ts[..i][..j] == ts[..j];
      assert ts[..i][j] == ts[j];
      assert NoOpen(ts[..j]) by {
        forall m | 0 <= m < j ensures !IsOp(ts[..j][m], "(") {
          assert ts[..j][m] == ts[..i][m];
        }
      }
      if IsOp(ts[j], ")") {
        if close.None? {
          ParensFromWithoutOpen(ts, j, Some(j), nested);
        } else if nested < U8Max {
          ParensFromWithoutOpen(ts, j, close, nested + 1);
        }
      } else {
        ParensFromWithoutOpen(ts, j, close, nested);
      }
    }
  }

  /**
   * Without "(", the pass succeeds unchanged when there is no ")", and
   * otherwise reports the unmatched ")" -- unless more than 256 of them
   * overflow the u8 nesting counter first.
   */
  lemma UnmatchedClose(ts: seq<Parse>)
    requires NoOpen(ts)
    ensures Parens(ts) == if Closes(ts) == 0 then Ok(ts)
                          else if Closes(ts) > U8Max + 1 then Err(Panic("attempt to add with overflow"))
                          else Err(SyntaxError("unmatched \")\""))
  {
    assert ts[..|ts|] == ts;
    ParensFromWithoutOpen(ts, |ts|, None, 0);
  }

  /** The group closed at c, with nothing but Spaces since the "(" at j, fails with "empty parentheses". */
  lemma EmptyInside(ts: seq<Parse>, j: nat, c: nat)
    requires j < c < |ts| && IsOp(ts[j], "(")
    requires NoParens(ts[j + 1..c]) && TrimSpaces(ts[j + 1..c]) == []
    ensures ParensFrom(ts, c, Some(c), 0) == Err(SyntaxError("empty parentheses"))
  {
    ParensSkip(ts, c, j + 1, Some(c), 0);
    ParensGroup(ts, j, c, 0);
  }

  /** A rightmost group with nothing but Spaces inside fails with "empty parentheses". */
  lemma EmptyGroup(ts: seq<Parse>, j: nat, c: nat)
    requires j < c < |ts| && IsOp(ts[j], "(") && IsOp(ts[c], ")")
    requires NoParens(ts[j + 1..c]) && NoParens(ts[c + 1..])
    requires TrimSpaces(ts[j + 1..c]) == []
    ensures Parens(ts) == Err(SyntaxError("empty parentheses"))
  {
    ScanToLast(ts, c);
    ParensCloses(ts, c, 0);
    EmptyInside(ts, j, c);
  }

  // ---------------------------------------------------------------------------
  // get_result

  const InvalidSyntax: string := "invalid syntax \""

  /** The scan of get_result never succeeds: an Ok comes only from the single-expression case. */
  lemma {:induction false} ScanFails(ts: seq<Parse>, i: nat, message: Option<string>)
    requires i <= |ts| + 1
    ensures ScanFrom(ts, i, message).Err?
    decreases |ts| + 1 - i
  {
    if i <= |ts| {
      if i < |ts| && ts[i].Tok? {
        var text := ToStr(ts[i].t);
        ScanFails(ts, i + 1, Some(if message.None? then text else message.value + text));
      } else if !(i < |ts| && ts[i].Temp?) && message.None? {
        ScanFails(ts, i + 1, message);
      }
    }
  }

  /** get_result succeeds exactly when the list is one expression, and then returns it. */
  lemma FinalOk(ts: seq<Parse>)
    ensures Final(ts).Ok? <==> |ts| == 1 && ts[0].Expr?
    ensures Final(ts).Ok? ==> Final(ts).value == ts[0].e
  {
    if !(|ts| == 1 && ts[0].Expr?) {
      ScanFails(ts, 0, None);
    }
  }

  /** The texts of the run of tokens starting at k, concatenated. */
  function RunText(ts: seq<Parse>, k: nat): string
    requires k <= |ts|
    decreases |ts| - k
  {
    if k < |ts| && ts[k].Tok? then ToStr(ts[k].t) + RunText(ts, k + 1) else ""
  }

  /** A token extends the pending message by its text. */
  lemma ScanTok(ts: seq<Parse>, i: nat, acc: string)
    requires i < |ts| && ts[i].Tok?
    ensures ScanFrom(ts, i, Some(acc)) == ScanFrom(ts, i + 1, Some(acc + ToStr(ts[i].t)))
    ensures acc + ToStr(ts[i].t) + RunText(ts, i + 1) == acc + RunText(ts, i)
  {
  }

  /** Anything but a token or a Temp ends the run, and the pending message is reported. */
  lemma ScanStop(ts: seq<Parse>, i: nat, acc: string)
    requires i <= |ts| && NoTemp(ts) && !(i < |ts| && ts[i].Tok?)
    ensures ScanFrom(ts, i, Some(acc)) == Err(SyntaxError(InvalidSyntax + Trim(acc + RunText(ts, i)) + "\""))
  {
    assert acc + RunText(ts, i) == acc;
  }

  lemma {:induction false} ScanRun(ts: seq<Parse>, i: nat, acc: string)
    requires i <= |ts| && NoTemp(ts)
    ensures ScanFrom(ts, i, Some(acc)) == Err(SyntaxError(InvalidSyntax + Trim(acc + RunText(ts, i)) + "\""))
    decreases |ts| - i
  {
    if i < |ts| && ts[i].Tok? {
      ScanTok(ts, i, acc);
      ScanRun(ts, i + 1, acc + ToStr(ts[i].t));
    } else {
      ScanStop(ts, i, acc);
    }
  }

  lemma {:induction false} ScanToRun(ts: seq<Parse>, i: nat, k: nat)
    requires i <= k < |ts| && ts[k].Tok? && NoTemp(ts)
    requires forall m :: i <= m < k ==> ts[m].Expr?
    ensures ScanFrom(ts, i, None) == Err(SyntaxError(InvalidSyntax + Trim(RunText(ts, k)) + "\""))
    decreases k - i
  {
    if i < k {
      ScanToRun(ts, i + 1, k);
    } else {
      ScanRun(ts, k + 1, ToStr(ts[k].t));
    }
  }

  /**
   * A list without Temp whose first non-expression is a token fails with "invalid syntax",
   * quoting the run of tokens that starts there, trimmed.
   */
  lemma FinalReports(ts: seq<Parse>, k: nat)
    requires k < |ts| && ts[k].Tok? && NoTemp(ts)
    requires forall m :: 0 <= m < k ==> ts[m].Expr?
    ensures Final(ts) == Err(SyntaxError(InvalidSyntax + Trim(RunText(ts, k)) + "\""))
  {
    assert !ts[k].Expr?;
    assert Final(ts) == ScanFrom(ts, 0, None);
    ScanToRun(ts, 0, k);
  }

  lemma {:induction false} ScanExprs(ts: seq<Parse>, i: nat)
    requires i <= |ts| + 1
    requires forall m :: 0 <= m < |ts| ==> ts[m].Expr?
    ensures ScanFrom(ts, i, None) == Err(Unreachable)
    decreases |ts| + 1 - i
  {
    if i <= |ts| {
      ScanExprs(ts, i + 1);
    }
  }

  /** Nothing but expressions, and not exactly one of them: get_result falls through to unreachable!(). */
  lemma FinalOnlyExprs(ts: seq<Parse>)
    requires |ts| != 1 && forall m :: 0 <= m < |ts| ==> ts[m].Expr?
    ensures Final(ts) == Err(Unreachable)
  {
    ScanExprs(ts, 0);
  }

  /**
   * get_result as written pops a lone token before the scan, which then
   * finds nothing and reaches unreachable!(); inspected in place, the token
   * is reported as invalid syntax.
   */
  lemma LoneToken(t: Token)
    ensures FinalAsWritten([Tok(t)]) == Err(Unreachable)
    ensures Final([Tok(t)]) == Err(SyntaxError(InvalidSyntax + Trim(ToStr(t)) + "\""))
  {
    var ts := [Tok(t)];
    assert ScanFrom([], 0, None) == ScanFrom([], 1, None);
    FinalReports(ts, 0);
    assert RunText(ts, 1) == "";
    assert ToStr(t) + "" == ToStr(t);
  }

  /** Everywhere else the two agree. */
  lemma FinalAgrees(ts: seq<Parse>)
    requires |ts| != 1 || ts[0].Expr?
    ensures FinalAsWritten(ts) == Final(ts)
  {
  }

  // ---------------------------------------------------------------------------
  // parse_unary_ops

  /** The filter of the splices distributes over concatenation. */
  lemma {:induction false} NonSpaceAppend(a: seq<Parse>, b: seq<Parse>)
    ensures NonSpace(a + b) == NonSpace(a) + NonSpace(b)
    decreases |a|
  {
    if a != [] {
      assert (a + b)[1..] == a[1..] + b;
      NonSpaceAppend(a[1..], b);
    } else {
      assert a + b == b;
    }
  }

  /** The operator token of a sign: "+" when plus, "-" otherwise. */
  function SignTok(plus: bool): (p: Parse)
    ensures IsSign(p) && IsOperator(p)
  {
    Tok(Operator(if plus then "+" else "-"))
  }

  /** The unary expression a sign builds. */
  function Signed(plus: bool, e: Expression): Expression {
    if plus then UnaryPlus(e) else UnaryMinus(e)
  }

  /** Signs each followed by a Space, outermost first. */
  function Spaced(signs: seq<bool>): (r: seq<Parse>)
    ensures |r| == 2 * |signs|
    decreases |signs|
  {
    if signs == [] then [] else Spaced(signs[..|signs| - 1]) + [SignTok(signs[|signs| - 1]), Tok(Space)]
  }

  /** The signs applied to e, the last one innermost. */
  function ApplySigns(signs: seq<bool>, e: Expression): Expression
    decreases |signs|
  {
    if signs == [] then e else ApplySigns(signs[..|signs| - 1], Signed(signs[|signs| - 1], e))
  }

  /** The last two elements of pre, or fewer: what the unary pass inspects before a sign that follows pre. */
  function Tail2(pre: seq<Parse>): (w: seq<Parse>)
    ensures |w| == if |pre| >= 2 then 2 else |pre|
  {
    pre[if |pre| >= 2 then |pre| - 2 else 0..]
  }

  lemma BeforeAfter(a: seq<Parse>, b: seq<Parse>)
    ensures Before(a + b, |a|) == Tail2(a)
  {
    var x := if |a| >= 2 then |a| - 2 else 0;
    assert (a + b)[x..|a|] == a[x..];
  }

  /** What precedes a sign allows it to be unary, so it is folded with its operand. */
  lemma {:induction false} FoldsSign(ts: seq<Parse>, j: nat, x: nat)
    requires j < x < |ts| && IsSign(ts[j]) && Opens(Before(ts, j))
    ensures UnaryFrom(ts, j + 1, Some(x))
         == if SpliceUnary(ts, j, x).Err? then Err(SpliceUnary(ts, j, x).error)
            else UnaryFrom(SpliceUnary(ts, j, x).value, j, Some(j))
  {
    UnaryStep(ts, j, Some(x));
  }

  /** Splicing a sign and its operand, with at most a Space between, builds the signed expression. */
  lemma SpliceSign(pre: seq<Parse>, plus: bool, gap: seq<Parse>, e: Expression, post: seq<Parse>)
    requires gap == [] || gap == [Tok(Space)]
    ensures SpliceUnary(pre + [SignTok(plus)] + gap + [Expr(e)] + post, |pre|, |pre| + |gap| + 1)
         == Ok(pre + [Expr(Signed(plus, e))] + post)
  {
    var ts := pre + [SignTok(plus)] + gap + [Expr(e)] + post;
    var j, x := |pre|, |pre| + |gap| + 1;
    assert ts[j..x + 1] == [SignTok(plus)] + gap + [Expr(e)];
    NonSpaceAppend([SignTok(plus)] + gap, [Expr(e)]);
    NonSpaceAppend([SignTok(plus)], gap);
    assert NonSpace(ts[j..x + 1]) == [SignTok(plus), Expr(e)];
    assert ts[..j] == pre;
    assert ts[x + 1..] == post;
  }

  /** A sign where a sign may be unary, then at most a Space, then the pending operand: the scan splices them. */
  lemma SignFolds(ts: seq<Parse>, sp: seq<Parse>, q: nat, x: nat)
    requires q < x < |ts| && IsSign(ts[q]) && Opens(Before(ts, q))
    requires x == q + 1 || (x == q + 2 && ts[q + 1] == Tok(Space))
    requires SpliceUnary(ts, q, x) == Ok(sp)
    ensures UnaryFrom(ts, x, Some(x)) == UnaryFrom(sp, q, Some(q))
  {
    if x == q + 2 {
      UnaryStep(ts, q + 1, Some(x));
    }
    UnaryStep(ts, q, Some(x));
  }

  /** One sign, followed by at most a Space, where a sign may be unary: the scan folds it with the operand after it. */
  lemma SignStep(front: seq<Parse>, plus: bool, gap: seq<Parse>, e: Expression, post: seq<Parse>, ts: seq<Parse>, x: nat)
    requires gap == [] || gap == [Tok(Space)]
    requires Opens(Tail2(front))
    requires ts == front + [SignTok(plus)] + gap + [Expr(e)] + post && x == |front| + |gap| + 1
    ensures x < |ts|
    ensures UnaryFrom(ts, x, Some(x)) == UnaryFrom(front + [Expr(Signed(plus, e))] + post, |front|, Some(|front|))
  {
    var q := |front|;
    var rest := [SignTok(plus)] + gap + [Expr(e)] + post;
    assert ts == front + rest;
    assert Before(ts, q) == Tail2(front) by {
      BeforeAfter(front, rest);
    }
    assert ts[q] == SignTok(plus) && (gap != [] ==> ts[q + 1] == Tok(Space)) by {
      assert ts[q] == rest[0];
      if gap != [] {
        assert ts[q + 1] == rest[1];
      }
    }
    assert SpliceUnary(ts, q, x) == Ok(front + [Expr(Signed(plus, e))] + post) by {
      SpliceSign(front, plus, gap, e, post);
    }
    SignFolds(ts, front + [Expr(Signed(plus, e))] + post, q, x);
  }

  /** Signs each followed by a Space leave the place after them open for another unary sign. */
  lemma SpacedOpens(pre: seq<Parse>, signs: seq<bool>)
    requires Opens(Tail2(pre))
    ensures Opens(Tail2(pre + Spaced(signs)))
  {
    if signs != [] {
      var init := signs[..|signs| - 1];
      assert pre + Spaced(signs) == (pre + Spaced(init)) + [SignTok(signs[|signs| - 1]), Tok(Space)];
    } else {
      assert pre + Spaced(signs) == pre;
    }
  }

  lemma Regroup<T>(p: seq<T>, x: seq<T>, a: T, b: T, c: T, r: seq<T>)
    ensures p + (x + [a, b]) + [c] + r == p + x + [a] + [b] + [c] + r
  {
    assert x + [a, b] == x + [a] + [b];
  }

  lemma Adjoin<T>(p: seq<T>, x: seq<T>, a: T, c: T, r: seq<T>)
    ensures p + x + [a] + [] + [c] + r == p + x + [a, c] + r
  {
    assert [a] + [] + [c] == [a, c];
  }

  lemma Unwrapped<T>(x: seq<T>, a: T)
    ensures [] + x + [a] + [] == x + [a]
  {
  }

  /** A spaced chain with its last sign taken apart. */
  lemma SpacedSplit(pre: seq<Parse>, init: seq<bool>, s: bool, e: Expression, post: seq<Parse>)
    ensures pre + Spaced(init + [s]) + [Expr(e)] + post == pre + Spaced(init) + [SignTok(s)] + [Tok(Space)] + [Expr(e)] + post
    ensures |pre + Spaced(init + [s])| == |pre + Spaced(init)| + |[Tok(Space)]| + 1
  {
    assert Spaced(init + [s]) == Spaced(init) + [SignTok(s), Tok(Space)] by {
      assert (init + [s])[..|init|] == init;
    }
    Regroup(pre, Spaced(init), SignTok(s), Tok(Space), Expr(e), post);
  }

  /** The last sign of a spaced chain folds with the operand after it. */
  lemma SpacedStep(pre: seq<Parse>, init: seq<bool>, s: bool, e: Expression, post: seq<Parse>)
    requires Opens(Tail2(pre))
    ensures UnaryFrom(pre + Spaced(init + [s]) + [Expr(e)] + post, |pre + Spaced(init + [s])|, Some(|pre + Spaced(init + [s])|))
         == UnaryFrom(pre + Spaced(init) + [Expr(Signed(s, e))] + post, |pre + Spaced(init)|, Some(|pre + Spaced(init)|))
  {
    SpacedSplit(pre, init, s, e, post);
    SpacedOpens(pre, init);
    SignStep(pre + Spaced(init), s, [Tok(Space)], e, post, pre + Spaced(init + [s]) + [Expr(e)] + post, |pre + Spaced(init + [s])|);
  }

  lemma ApplyLast(signs: seq<bool>, init: seq<bool>, s: bool, e: Expression)
    requires signs == init + [s]
    ensures ApplySigns(signs, e) == ApplySigns(init, Signed(s, e))
  {
    assert signs[..|init|] == init;
  }

  /**
   * A chain of signs, each followed by a Space, in front of an expression
   * folds innermost first into one expression, provided the chain starts
   * where a sign may be unary.
   */
  lemma {:induction false} SpacedChain(pre: seq<Parse>, signs: seq<bool>, e: Expression, post: seq<Parse>)
    requires Opens(Tail2(pre))
    ensures UnaryFrom(pre + Spaced(signs) + [Expr(e)] + post, |pre + Spaced(signs)|, Some(|pre + Spaced(signs)|))
         == UnaryFrom(pre + [Expr(ApplySigns(signs, e))] + post, |pre|, Some(|pre|))
    decreases |signs|
  {
    if signs == [] {
      assert pre + Spaced(signs) == pre;
      assert ApplySigns(signs, e) == e;
    } else {
      var init, s := signs[..|signs| - 1], signs[|signs| - 1];
      assert signs == init + [s];
      SpacedStep(pre, init, s, e, post);
      SpacedChain(pre, init, Signed(s, e), post);
      ApplyLast(signs, init, s, e);
    }
  }

  /** A sign right against its operand, seen as a sign with an empty gap. */
  lemma TightSplit(front: seq<Parse>, s: bool, e: Expression, post: seq<Parse>)
    ensures front + [SignTok(s), Expr(e)] + post == front + [SignTok(s)] + [] + [Expr(e)] + post
  {
    Adjoin([], front, SignTok(s), Expr(e), post);
    assert [] + front == front;
  }

  lemma TightStep(pre: seq<Parse>, init: seq<bool>, s: bool, e: Expression, post: seq<Parse>)
    requires Opens(Tail2(pre))
    ensures UnaryFrom(pre + Spaced(init) + [SignTok(s), Expr(e)] + post, |pre + Spaced(init)| + 1, Some(|pre + Spaced(init)| + 1))
         == UnaryFrom(pre + Spaced(init) + [Expr(Signed(s, e))] + post, |pre + Spaced(init)|, Some(|pre + Spaced(init)|))
  {
    TightSplit(pre + Spaced(init), s, e, post);
    SpacedOpens(pre, init);
    SignStep(pre + Spaced(init), s, [], e, post, pre + Spaced(init) + [SignTok(s), Expr(e)] + post, |pre + Spaced(init)| + 1);
  }

  /** The same with the innermost sign written right against its operand ("- -3"). */
  lemma TightChain(pre: seq<Parse>, init: seq<bool>, s: bool, e: Expression, post: seq<Parse>)
    requires Opens(Tail2(pre))
    ensures UnaryFrom(pre + Spaced(init) + [SignTok(s), Expr(e)] + post, |pre + Spaced(init)| + 1, Some(|pre + Spaced(init)| + 1))
         == UnaryFrom(pre + [Expr(ApplySigns(init + [s], e))] + post, |pre|, Some(|pre|))
  {
    TightStep(pre, init, s, e, post);
    SpacedChain(pre, init, Signed(s, e), post);
    ApplyLast(init + [s], init, s, e);
  }

  /** The unary pass over a list ending in an expression starts from that expression. */
  lemma LastExpr(p: seq<Parse>, x: Parse)
    requires x.Expr?
    ensures UnaryFrom(p + [x], |p| + 1, None) == UnaryFrom(p + [x], |p|, Some(|p|))
  {
  }

  /** The unary pass over a whole list of signs before one operand leaves the single signed expression. */
  lemma SignChain(signs: seq<bool>, e: Expression)
    ensures Unary(Spaced(signs) + [Expr(e)]) == Ok([Expr(ApplySigns(signs, e))])
  {
    var a := Expr(ApplySigns(signs, e));
    LastExpr(Spaced(signs), Expr(e));
    Unwrapped(Spaced(signs), Expr(e));
    SpacedChain([], signs, e, []);
    Unwrapped([], a);
    assert [] + [a] == [a];
    assert UnaryFrom([a], 0, Some(0)) == Ok([a]);
  }

  /** No sign before position i stands where it could be unary. Recursive, so that it unfolds on demand. */
  predicate NoUnarySigns(ts: seq<Parse>, i: nat)
    requires i <= |ts|
    decreases i
  {
    i == 0 || (!(IsSign(ts[i - 1]) && Opens(Before(ts, i - 1))) && NoUnarySigns(ts, i - 1))
  }

  /** Where no sign could be unary, the unary pass changes nothing. */
  lemma {:induction false} UnaryUnchanged(ts: seq<Parse>, i: nat, exprIdx: Option<nat>)
    requires i <= |ts| && (exprIdx.Some? ==> i <= exprIdx.value < |ts|)
    requires NoUnarySigns(ts, i)
    ensures UnaryFrom(ts, i, exprIdx) == Ok(ts)
    decreases i
  {
    if i > 0 {
      var j := i - 1;
      UnaryStep(ts, j, exprIdx);
      if ts[j].Expr? {
        UnaryUnchanged(ts, j, Some(j));
      } else if !(IsOperator(ts[j]) && exprIdx.Some?) {
        UnaryUnchanged(ts, j, exprIdx);
      } else if !IsSign(ts[j]) || Blocks(Before(ts, j)) {
        UnaryUnchanged(ts, j, None);
      } else {
        UnaryUnchanged(ts, j, exprIdx);
      }
    }
  }

  /** r ends with s. */
  predicate EndsWith(r: seq<Parse>, s: seq<Parse>) {
    |s| <= |r| && r[|r| - |s|..] == s
  }

  lemma EndsWithShorter(r: seq<Parse>, ts: seq<Parse>, a: nat, b: nat)
    requires a <= b <= |ts| && EndsWith(r, ts[a..])
    ensures EndsWith(r, ts[b..])
  {
    assert ts[b..] == ts[a..][b - a..];
  }

  /** The part of the list the unary scan has finished with: right of the pending operand, or from i. */
  function Kept(i: nat, exprIdx: Option<nat>): nat {
    if exprIdx.Some? then exprIdx.value + 1 else i
  }

  /** The unary scan never changes what lies right of its position and of the pending operand. */
  lemma {:induction false} UnaryKeepsSuffix(ts: seq<Parse>, i: nat, exprIdx: Option<nat>)
    requires i <= |ts| && (exprIdx.Some? ==> i <= exprIdx.value < |ts|)
    ensures UnaryFrom(ts, i, exprIdx).Ok? ==> EndsWith(UnaryFrom(ts, i, exprIdx).value, ts[Kept(i, exprIdx)..])
    decreases i, 1
  {
    var k := Kept(i, exprIdx);
    if i == 0 {
      assert ts[|ts| - |ts[k..]|..] == ts[k..];
    } else if ts[i - 1].Expr? {
      KeepsAtExpr(ts, i - 1, exprIdx);
    } else if IsOperator(ts[i - 1]) && exprIdx.Some? {
      KeepsAtOperator(ts, i - 1, exprIdx.value);
    } else {
      KeepsPassing(ts, i - 1, exprIdx);
    }
  }

  /** The step of UnaryKeepsSuffix at an expression, which becomes the pending operand. */
  lemma {:induction false} KeepsAtExpr(ts: seq<Parse>, j: nat, exprIdx: Option<nat>)
    requires j < |ts| && ts[j].Expr? && (exprIdx.Some? ==> j < exprIdx.value < |ts|)
    ensures UnaryFrom(ts, j + 1, exprIdx).Ok? ==> EndsWith(UnaryFrom(ts, j + 1, exprIdx).value, ts[Kept(j + 1, exprIdx)..])
    decreases j + 1, 0
  {
    UnaryStep(ts, j, exprIdx);
    UnaryKeepsSuffix(ts, j, Some(j));
    var r := UnaryFrom(ts, j + 1, exprIdx);
    if r.Ok? { EndsWithShorter(r.value, ts, j + 1, Kept(j + 1, exprIdx)); }
  }

  /** The step of UnaryKeepsSuffix at an element the scan passes over. */
  lemma {:induction false} KeepsPassing(ts: seq<Parse>, j: nat, exprIdx: Option<nat>)
    requires j < |ts| && !ts[j].Expr? && !(IsOperator(ts[j]) && exprIdx.Some?)
    requires exprIdx.Some? ==> j < exprIdx.value < |ts|
    ensures UnaryFrom(ts, j + 1, exprIdx).Ok? ==> EndsWith(UnaryFrom(ts, j + 1, exprIdx).value, ts[Kept(j + 1, exprIdx)..])
    decreases j + 1, 0
  {
    UnaryStep(ts, j, exprIdx);
    UnaryKeepsSuffix(ts, j, exprIdx);
    var r := UnaryFrom(ts, j + 1, exprIdx);
    if r.Ok? { EndsWithShorter(r.value, ts, Kept(j, exprIdx), Kept(j + 1, exprIdx)); }
  }

  /** The step of UnaryKeepsSuffix at an operator with an operand pending at x. */
  lemma {:induction false} KeepsAtOperator(ts: seq<Parse>, j: nat, x: nat)
    requires j < x < |ts| && IsOperator(ts[j])
    ensures UnaryFrom(ts, j + 1, Some(x)).Ok? ==> EndsWith(UnaryFrom(ts, j + 1, Some(x)).value, ts[x + 1..])
    decreases j + 1, 0
  {
    UnaryStep(ts, j, Some(x));
    var r := UnaryFrom(ts, j + 1, Some(x));
    if !IsSign(ts[j]) || Blocks(Before(ts, j)) {
      UnaryKeepsSuffix(ts, j, None);
      if r.Ok? { EndsWithShorter(r.value, ts, j, x + 1); }
    } else if !Opens(Before(ts, j)) {
      UnaryKeepsSuffix(ts, j, Some(x));
    } else if SpliceUnary(ts, j, x).Ok? {
      var sp := SpliceUnary(ts, j, x).value;
      UnaryKeepsSuffix(sp, j, Some(j));
      assert sp[j + 1..] == ts[x + 1..];
    }
  }

  /**
   * An operator right before a sign blocks it: the scan forgets the operand,
   * so the sign and everything right of it stay in the list as they were
   * ("1++3" keeps "+3").
   */
  lemma Blocked(ts: seq<Parse>, j: nat, x: nat)
    requires 1 <= j < x < |ts| && IsOperator(ts[j - 1]) && IsSign(ts[j])
    ensures UnaryFrom(ts, j + 1, Some(x)) == UnaryFrom(ts, j, None)
    ensures UnaryFrom(ts, j + 1, Some(x)).Ok? ==> EndsWith(UnaryFrom(ts, j + 1, Some(x)).value, ts[j..])
  {
    UnaryStep(ts, j, Some(x));
    UnaryKeepsSuffix(ts, j, None);
  }

  // ---------------------------------------------------------------------------
  // parse_sums_differences

  /** At most one Space. */
  function Gap(spaced: bool): (g: seq<Parse>)
    ensures g == [] || g == [Tok(Space)]
  {
    if spaced then [Tok(Space)] else []
  }

  /** One link of a chain of sums and differences: a sign, optionally between Spaces, and its right operand. */
  datatype Link = Link(spaceBefore: bool, plus: bool, spaceAfter: bool, rhs: Expression)

  function LinkToks(l: Link): (r: seq<Parse>)
    ensures |r| == |Gap(l.spaceBefore)| + |Gap(l.spaceAfter)| + 2
  {
    Gap(l.spaceBefore) + [SignTok(l.plus)] + Gap(l.spaceAfter) + [Expr(l.rhs)]
  }

  function ChainToks(links: seq<Link>): seq<Parse>
    decreases |links|
  {
    if links == [] then [] else LinkToks(links[0]) + ChainToks(links[1..])
  }

  /** The binary expression a link builds on its left operand. */
  function Combine(lhs: Expression, l: Link): Expression {
    if l.plus then Sum(lhs, l.rhs) else Difference(lhs, l.rhs)
  }

  /** The links folded onto e from the left, the first link innermost. */
  function FoldLinks(e: Expression, links: seq<Link>): Expression
    decreases |links|
  {
    if links == [] then e else FoldLinks(Combine(e, links[0]), links[1..])
  }

  lemma GapNonSpace(spaced: bool)
    ensures NonSpace(Gap(spaced)) == []
  {
    if spaced {
      assert Gap(spaced)[1..] == [];
    }
  }

  lemma OneNonSpace(x: Parse)
    requires !IsSpace(x)
    ensures NonSpace([x]) == [x]
  {
    assert [x][1..] == [];
  }

  lemma LinkNonSpace(e: Expression, l: Link)
    ensures NonSpace([Expr(e)] + LinkToks(l)) == [Expr(e), SignTok(l.plus), Expr(l.rhs)]
  {
    var a, b := Gap(l.spaceBefore), Gap(l.spaceAfter);
    var p1 := [Expr(e)] + a;
    var p2 := p1 + [SignTok(l.plus)];
    var p3 := p2 + b;
    assert [Expr(e)] + LinkToks(l) == p3 + [Expr(l.rhs)];
    GapNonSpace(l.spaceBefore);
    GapNonSpace(l.spaceAfter);
    OneNonSpace(Expr(e));
    OneNonSpace(SignTok(l.plus));
    OneNonSpace(Expr(l.rhs));
    NonSpaceAppend([Expr(e)], a);
    assert NonSpace(p1) == [Expr(e)];
    NonSpaceAppend(p1, [SignTok(l.plus)]);
    assert NonSpace(p2) == [Expr(e), SignTok(l.plus)];
    NonSpaceAppend(p2, b);
    assert NonSpace(p3) == [Expr(e), SignTok(l.plus)];
    NonSpaceAppend(p3, [Expr(l.rhs)]);
  }

  /** Splicing a left operand and one link builds the link's binary expression. */
  lemma SpliceLink(pre: seq<Parse>, e: Expression, l: Link, tail: seq<Parse>)
    ensures SpliceBinary(pre + [Expr(e)] + LinkToks(l) + tail, |pre|, |pre| + |LinkToks(l)|)
         == Ok(pre + [Expr(Combine(e, l))] + tail)
  {
    var ts := pre + [Expr(e)] + LinkToks(l) + tail;
    var p, c := |pre|, |pre| + |LinkToks(l)|;
    assert ts[p..c + 1] == [Expr(e)] + LinkToks(l);
    LinkNonSpace(e, l);
    assert ts[..p] == pre;
    assert ts[c + 1..] == tail;
  }

  /** The elements of a link in place after a left operand at p. */
  lemma LinkAt(pre: seq<Parse>, e: Expression, l: Link, tail: seq<Parse>)
    ensures var ts := pre + [Expr(e)] + LinkToks(l) + tail;
            var a := |pre| + 1 + |Gap(l.spaceBefore)|;
            var c := |pre| + |LinkToks(l)|;
            (l.spaceBefore ==> ts[|pre| + 1] == Tok(Space))
            && ts[a] == SignTok(l.plus)
            && (l.spaceAfter ==> ts[a + 1] == Tok(Space))
            && ts[c] == Expr(l.rhs)
  {
    var ts := pre + [Expr(e)] + LinkToks(l) + tail;
    var k := LinkToks(l);
    assert forall m :: 0 <= m < |k| ==> ts[|pre| + 1 + m] == k[m];
  }

  /** The left-to-right scan folds one link onto the operand at p and goes on right after it. */
  lemma LinkStep(pre: seq<Parse>, e: Expression, l: Link, tail: seq<Parse>)
    ensures SumsFrom(pre + [Expr(e)] + LinkToks(l) + tail, |pre| + 1, Some(|pre|), false)
         == SumsFrom(pre + [Expr(Combine(e, l))] + tail, |pre| + 1, Some(|pre|), false)
  {
    var ts := pre + [Expr(e)] + LinkToks(l) + tail;
    var p := |pre|;
    var a := p + 1 + |Gap(l.spaceBefore)|;
    var c := p + |LinkToks(l)|;
    LinkAt(pre, e, l, tail);
    if l.spaceBefore {
      SumsStep(ts, p + 1, Some(p), false);
    }
    SumsStep(ts, a, Some(p), false);
    if l.spaceAfter {
      SumsStep(ts, a + 1, Some(p), true);
    }
    SumsStep(ts, c, Some(p), true);
    SpliceLink(pre, e, l, tail);
  }

  lemma Reassociate<T>(p: seq<T>, a: T, x: seq<T>, y: seq<T>, r: seq<T>)
    ensures p + [a] + (x + y) + r == p + [a] + x + (y + r)
  {
  }

  lemma Associate<T>(p: seq<T>, a: T, y: seq<T>, r: seq<T>)
    ensures p + [a] + (y + r) == p + [a] + y + r
  {
  }

  lemma DropEmpty<T>(p: seq<T>, a: T, r: seq<T>)
    ensures p + [a] + [] + r == p + [a] + r
  {
  }

  /**
   * Sums and differences fold from the left: after the scan has passed an
   * operand, a chain of links after it becomes the left-nested expression.
   */
  lemma {:induction false} SumsChainFrom(pre: seq<Parse>, e: Expression, links: seq<Link>, post: seq<Parse>)
    ensures SumsFrom(pre + [Expr(e)] + ChainToks(links) + post, |pre| + 1, Some(|pre|), false)
         == SumsFrom(pre + [Expr(FoldLinks(e, links))] + post, |pre| + 1, Some(|pre|), false)
    decreases |links|
  {
    if links == [] {
      DropEmpty(pre, Expr(e), post);
    } else {
      var l, rest := links[0], links[1..];
      var c := Combine(e, l);
      var tail := ChainToks(rest) + post;
      assert ChainToks(links) == LinkToks(l) + ChainToks(rest);
      Reassociate(pre, Expr(e), LinkToks(l), ChainToks(rest), post);
      LinkStep(pre, e, l, tail);
      Associate(pre, Expr(c), ChainToks(rest), post);
      SumsChainFrom(pre, c, rest, post);
      assert FoldLinks(e, links) == FoldLinks(c, rest);
    }
  }

  /** An operand followed by a chain of links becomes the single left-nested expression. */
  lemma SumsChain(e: Expression, links: seq<Link>)
    ensures Sums([Expr(e)] + ChainToks(links)) == Ok([Expr(FoldLinks(e, links))])
  {
    var ts := [Expr(e)] + ChainToks(links);
    SumsStep(ts, 0, None, false);
    assert [] + [Expr(e)] + ChainToks(links) + [] == ts;
    SumsChainFrom([], e, links, []);
    assert [] + [Expr(FoldLinks(e, links))] + [] == [Expr(FoldLinks(e, links))];
  }
}
