/**
 * The parser's tests: expressions from the source's test suite, taken from
 * their text through tokenize and every pass to the value or the error
 * parse gives.  Each pass is one lemma; the tokens come from ParseTestTokens.
 */
module ParseTests {
  import opened Wrappers
  import Ascii
  import opened Errors
  import opened Expressions
  import opened Tokenizer
  import opened ParseSpec
  import opened ParseProps
  import opened ParseTestTokens

  // ---------------------------------------------------------------------------
  // Composition

  /** The passes of parse_impl, one result after the other. */
  lemma Passes(ts: seq<Parse>, p: seq<Parse>, w: seq<Parse>, u: seq<Parse>, s: seq<Parse>)
    requires Parens(ts) == Ok(p) && WholeNumbers(p) == Ok(w) && Unary(w) == Ok(u) && Sums(u) == Ok(s)
    ensures Impl(ts) == Final(TrimSpaces(s))
  {
  }

  /** parse on a text is parse_impl on the list of its tokens. */
  lemma ParsesVia(text: string, toks: seq<Token>, list: seq<Parse>, r: Result<Expression, Error>)
    requires TokenizeSpec(text) == Ok(toks) && Toks(toks) == list && Impl(list) == r
    ensures ParseOf(text) == r
  {
  }

  /** A run of tokens that trimming leaves as it is is quoted whole. */
  lemma FinalQuotes(ts: seq<Parse>, k: nat, run: string, message: string)
    requires k < |ts| && ts[k].Tok? && NoTemp(ts)
    requires forall m :: 0 <= m < k ==> ts[m].Expr?
    requires RunText(ts, k) == run && run != [] && !Ascii.IsTrimmable(run[0]) && !Ascii.IsTrimmable(run[|run| - 1])
    requires message == "invalid syntax \"" + run + "\""
    ensures Final(ts) == Err(SyntaxError(message))
  {
    FinalReports(ts, k);
    Ascii.TrimKeeps(run);
  }

  // ---------------------------------------------------------------------------
  // Lists with nothing for a pass to do

  lemma {:induction false} NoParensOf(s: seq<Parse>)
    requires forall k :: 0 <= k < |s| ==> !IsParen(s[k])
    ensures NoParens(s)
    decreases |s|
  {
    if s != [] {
      NoParensOf(s[..|s| - 1]);
    }
  }

  /** Elements other than parentheses, from k to i, leave the parentheses scan as it was. */
  lemma ParensSkipAll(ts: seq<Parse>, i: nat, k: nat, close: Option<nat>, nested: nat)
    requires k <= i <= |ts| && (close.Some? ==> i <= close.value < |ts|)
    requires forall m :: k <= m < i ==> !IsParen(ts[m])
    ensures ParensFrom(ts, i, close, nested) == ParensFrom(ts, k, close, nested)
  {
    NoParensOf(ts[k..i]);
    ParensSkip(ts, i, k, close, nested);
  }

  /** Without parentheses, parse_parens returns the list as it is. */
  lemma ParensNone(ts: seq<Parse>)
    requires forall k :: 0 <= k < |ts| ==> !IsParen(ts[k])
    ensures Parens(ts) == Ok(ts)
  {
    ParensSkipAll(ts, |ts|, 0, None, 0);
  }

  /** The list parse_whole_numbers gives, when no numeral overflows, element by element. */
  lemma WholeNumbersOf(ts: seq<Parse>, w: seq<Parse>)
    requires |w| == |ts|
    requires forall k :: 0 <= k < |ts| ==>
      if ts[k].Tok? && ts[k].t.WholeNumber?
      then !Overflows(ts[k]) && w[k] == Expr(Constant(Integer(DecimalValue(ts[k].t.text))))
      else w[k] == ts[k]
    ensures WholeNumbers(ts) == Ok(w)
  {
    var r := WholeNumbers(ts);
    assert r.Ok?;
    assert r.value == w;
  }

  lemma {:induction false} NoUnarySignsOf(ts: seq<Parse>, i: nat)
    requires i <= |ts|
    requires forall k :: 0 <= k < i && IsSign(ts[k]) ==> !Opens(Before(ts, k))
    ensures NoUnarySigns(ts, i)
    decreases i
  {
    if i > 0 {
      NoUnarySignsOf(ts, i - 1);
    }
  }

  /** No sign of ts stands where the unary pass would fold it. */
  predicate SignsBinary(ts: seq<Parse>) {
    forall k :: 0 <= k < |ts| && IsSign(ts[k]) ==> !Opens(Before(ts, k))
  }

  /** Where no sign stands where a unary one may, parse_unary_ops returns the list as it is. */
  lemma UnaryNone(ts: seq<Parse>)
    requires SignsBinary(ts)
    ensures Unary(ts) == Ok(ts)
  {
    NoUnarySignsOf(ts, |ts|);
    UnaryUnchanged(ts, |ts|, None);
  }

  lemma ChainTwo(a: Link, b: Link)
    ensures ChainToks([a, b]) == LinkToks(a) + LinkToks(b)
  {
    assert [a, b][1..] == [b];
    assert [b][1..] == [];
    assert ChainToks([b]) == LinkToks(b) + ChainToks([]);
    assert LinkToks(b) + [] == LinkToks(b);
  }

  lemma ChainOne(a: Link)
    ensures ChainToks([a]) == LinkToks(a)
  {
    assert [a][1..] == [];
    assert LinkToks(a) + [] == LinkToks(a);
  }

  /** A lone expression is left alone by parse_sums_differences. */
  lemma SumsLone(e: Expression)
    ensures Sums([Expr(e)]) == Ok([Expr(e)])
  {
    SumsChain(e, []);
    assert [Expr(e)] + ChainToks([]) == [Expr(e)];
  }

  function C(n: int): Expression {
    Constant(Integer(n))
  }

  /** The scan reaches the ")" at c in its initial state and the "(" at j with nothing open inside. */
  lemma ParensToGroup(ts: seq<Parse>, j: nat, c: nat)
    requires j < c < |ts| && IsOp(ts[c], ")")
    requires forall m :: j < m < c ==> !IsParen(ts[m])
    requires forall m :: c < m < |ts| ==> !IsParen(ts[m])
    ensures Parens(ts) == ParensFrom(ts, j + 1, Some(c), 0)
  {
    ParensSkipAll(ts, |ts|, c + 1, None, 0);
    ParensCloses(ts, c, 0);
    ParensSkipAll(ts, c, j + 1, Some(c), 0);
  }

  /**
   * The group from j to c is the rightmost, has no parentheses inside it,
   * and its trimmed inside parses to e; spliced is ts with the group replaced by e.
   */
  predicate GroupShape(ts: seq<Parse>, j: nat, c: nat, inner: seq<Parse>, e: Expression, spliced: seq<Parse>) {
    && j < c < |ts| && IsOp(ts[j], "(") && IsOp(ts[c], ")")
    && (forall m :: j < m < c ==> !IsParen(ts[m]))
    && (forall m :: c < m < |ts| ==> !IsParen(ts[m]))
    && TrimSpaces(ts[j + 1..c]) == inner && inner != [] && Impl(inner) == Ok(e)
    && ts[..j] + [Expr(e)] + ts[c + 1..] == spliced
  }

  /**
   * The rightmost group, without parentheses inside it, is parsed on its own
   * and replaced by its expression; the scan goes on to its left.
   */
  lemma ParensGroupFrom(ts: seq<Parse>, j: nat, c: nat, inner: seq<Parse>, e: Expression, spliced: seq<Parse>)
    requires GroupShape(ts, j, c, inner, e, spliced)
    ensures Parens(ts) == ParensFrom(spliced, j, None, 0)
  {
    ParensToGroup(ts, j, c);
    ParensGroup(ts, j, c, 0);
  }

  /** The values of the numerals in the tests. */
  lemma Numerals()
    ensures DecimalValue("1") == 1 && DecimalValue("2") == 2 && DecimalValue("3") == 3
    ensures DecimalValue("5") == 5 && DecimalValue("10") == 10
  {
    assert "10"[..1] == "1";
  }

  // ---------------------------------------------------------------------------
  // Inner lists that the groups of the tests contain
  const OneAloneList: seq<Parse> := [Tok(WholeNumber("1"))]

  const OneAloneAfterNumbers: seq<Parse> := [Expr(C(1))]

  lemma OneAloneParens()
    ensures Parens(OneAloneList) == Ok(OneAloneList)
  {
    ParensNone(OneAloneList);
  }

  lemma OneAloneWholeNumbers()
    ensures WholeNumbers(OneAloneList) == Ok(OneAloneAfterNumbers)
  {
    Numerals();
    WholeNumbersOf(OneAloneList, OneAloneAfterNumbers);
  }

  lemma OneAloneSignsBinary()
    ensures SignsBinary(OneAloneAfterNumbers)
  {
  }

  lemma OneAloneUnary()
    ensures Unary(OneAloneAfterNumbers) == Ok(OneAloneAfterNumbers)
  {
    OneAloneSignsBinary();
    UnaryNone(OneAloneAfterNumbers);
  }

  lemma OneAloneSums()
    ensures Sums(OneAloneAfterNumbers) == Ok(OneAloneAfterNumbers)
  {
    SumsLone(C(1));
  }

  lemma OneAloneFinal()
    ensures Final(TrimSpaces(OneAloneAfterNumbers)) == Ok(C(1))
  {
    assert TrimSpaces(OneAloneAfterNumbers) == OneAloneAfterNumbers;
  }

  lemma OneAloneImpl()
    ensures Impl(OneAloneList) == Ok(C(1))
  {
    OneAloneParens();
    OneAloneWholeNumbers();
    OneAloneUnary();
    OneAloneSums();
    OneAloneFinal();
    Passes(OneAloneList, OneAloneList, OneAloneAfterNumbers, OneAloneAfterNumbers, OneAloneAfterNumbers);
  }

  const OnePlusTwoList: seq<Parse> := [Tok(WholeNumber("1")), Tok(Space), Tok(Operator("+")), Tok(Space), Tok(WholeNumber("2"))]

  const OnePlusTwoAfterNumbers: seq<Parse> := [Expr(C(1)), Tok(Space), Tok(Operator("+")), Tok(Space), Expr(C(2))]

  const OnePlusTwoAfterSums: seq<Parse> := [Expr(Sum(C(1), C(2)))]

  lemma OnePlusTwoParens()
    ensures Parens(OnePlusTwoList) == Ok(OnePlusTwoList)
  {
    ParensNone(OnePlusTwoList);
  }

  lemma OnePlusTwoWholeNumbers()
    ensures WholeNumbers(OnePlusTwoList) == Ok(OnePlusTwoAfterNumbers)
  {
    Numerals();
    WholeNumbersOf(OnePlusTwoList, OnePlusTwoAfterNumbers);
  }

  lemma OnePlusTwoSignsBinary()
    ensures SignsBinary(OnePlusTwoAfterNumbers)
  {
    var ts := OnePlusTwoAfterNumbers;
    forall k | 0 <= k < |ts| && IsSign(ts[k]) ensures !Opens(Before(ts, k)) {
      assert k == 2;
    }
  }

  lemma OnePlusTwoUnary()
    ensures Unary(OnePlusTwoAfterNumbers) == Ok(OnePlusTwoAfterNumbers)
  {
    OnePlusTwoSignsBinary();
    UnaryNone(OnePlusTwoAfterNumbers);
  }

  lemma OnePlusTwoSums()
    ensures Sums(OnePlusTwoAfterNumbers) == Ok(OnePlusTwoAfterSums)
  {
    ChainOne(Link(true, true, true, C(2)));
    assert OnePlusTwoAfterNumbers == [Expr(C(1))] + ChainToks([Link(true, true, true, C(2))]);
    SumsChain(C(1), [Link(true, true, true, C(2))]);
  }

  lemma OnePlusTwoFinal()
    ensures Final(TrimSpaces(OnePlusTwoAfterSums)) == Ok(Sum(C(1), C(2)))
  {
    assert TrimSpaces(OnePlusTwoAfterSums) == OnePlusTwoAfterSums;
  }

  lemma OnePlusTwoImpl()
    ensures Impl(OnePlusTwoList) == Ok(Sum(C(1), C(2)))
  {
    OnePlusTwoParens();
    OnePlusTwoWholeNumbers();
    OnePlusTwoUnary();
    OnePlusTwoSums();
    OnePlusTwoFinal();
    Passes(OnePlusTwoList, OnePlusTwoList, OnePlusTwoAfterNumbers, OnePlusTwoAfterNumbers, OnePlusTwoAfterSums);
  }

  const TenPlusTwoList: seq<Parse> := [Tok(WholeNumber("10")), Tok(Operator("+")), Tok(WholeNumber("2"))]

  const TenPlusTwoAfterNumbers: seq<Parse> := [Expr(C(10)), Tok(Operator("+")), Expr(C(2))]

  const TenPlusTwoAfterSums: seq<Parse> := [Expr(Sum(C(10), C(2)))]

  lemma TenPlusTwoParens()
    ensures Parens(TenPlusTwoList) == Ok(TenPlusTwoList)
  {
    ParensNone(TenPlusTwoList);
  }

  lemma TenPlusTwoWholeNumbers()
    ensures WholeNumbers(TenPlusTwoList) == Ok(TenPlusTwoAfterNumbers)
  {
    Numerals();
    WholeNumbersOf(TenPlusTwoList, TenPlusTwoAfterNumbers);
  }

  lemma TenPlusTwoSignsBinary()
    ensures SignsBinary(TenPlusTwoAfterNumbers)
  {
    var ts := TenPlusTwoAfterNumbers;
    forall k | 0 <= k < |ts| && IsSign(ts[k]) ensures !Opens(Before(ts, k)) {
      assert k == 1;
    }
  }

  lemma TenPlusTwoUnary()
    ensures Unary(TenPlusTwoAfterNumbers) == Ok(TenPlusTwoAfterNumbers)
  {
    TenPlusTwoSignsBinary();
    UnaryNone(TenPlusTwoAfterNumbers);
  }

  lemma TenPlusTwoSums()
    ensures Sums(TenPlusTwoAfterNumbers) == Ok(TenPlusTwoAfterSums)
  {
    ChainOne(Link(false, true, false, C(2)));
    assert TenPlusTwoAfterNumbers == [Expr(C(10))] + ChainToks([Link(false, true, false, C(2))]);
    SumsChain(C(10), [Link(false, true, false, C(2))]);
  }

  lemma TenPlusTwoFinal()
    ensures Final(TrimSpaces(TenPlusTwoAfterSums)) == Ok(Sum(C(10), C(2)))
  {
    assert TrimSpaces(TenPlusTwoAfterSums) == TenPlusTwoAfterSums;
  }

  lemma TenPlusTwoImpl()
    ensures Impl(TenPlusTwoList) == Ok(Sum(C(10), C(2)))
  {
    TenPlusTwoParens();
    TenPlusTwoWholeNumbers();
    TenPlusTwoUnary();
    TenPlusTwoSums();
    TenPlusTwoFinal();
    Passes(TenPlusTwoList, TenPlusTwoList, TenPlusTwoAfterNumbers, TenPlusTwoAfterNumbers, TenPlusTwoAfterSums);
  }

  const ThreeMinusTwoList: seq<Parse> := [Tok(WholeNumber("3")), Tok(Space), Tok(Operator("-")), Tok(Space), Tok(WholeNumber("2"))]

  const ThreeMinusTwoAfterNumbers: seq<Parse> := [Expr(C(3)), Tok(Space), Tok(Operator("-")), Tok(Space), Expr(C(2))]

  const ThreeMinusTwoAfterSums: seq<Parse> := [Expr(Difference(C(3), C(2)))]

  lemma ThreeMinusTwoParens()
    ensures Parens(ThreeMinusTwoList) == Ok(ThreeMinusTwoList)
  {
    ParensNone(ThreeMinusTwoList);
  }

  lemma ThreeMinusTwoWholeNumbers()
    ensures WholeNumbers(ThreeMinusTwoList) == Ok(ThreeMinusTwoAfterNumbers)
  {
    Numerals();
    WholeNumbersOf(ThreeMinusTwoList, ThreeMinusTwoAfterNumbers);
  }

  lemma ThreeMinusTwoSignsBinary()
    ensures SignsBinary(ThreeMinusTwoAfterNumbers)
  {
    var ts := ThreeMinusTwoAfterNumbers;
    forall k | 0 <= k < |ts| && IsSign(ts[k]) ensures !Opens(Before(ts, k)) {
      assert k == 2;
    }
  }

  lemma ThreeMinusTwoUnary()
    ensures Unary(ThreeMinusTwoAfterNumbers) == Ok(ThreeMinusTwoAfterNumbers)
  {
    ThreeMinusTwoSignsBinary();
    UnaryNone(ThreeMinusTwoAfterNumbers);
  }

  lemma ThreeMinusTwoSums()
    ensures Sums(ThreeMinusTwoAfterNumbers) == Ok(ThreeMinusTwoAfterSums)
  {
    ChainOne(Link(true, false, true, C(2)));
    assert ThreeMinusTwoAfterNumbers == [Expr(C(3))] + ChainToks([Link(true, false, true, C(2))]);
    SumsChain(C(3), [Link(true, false, true, C(2))]);
  }

  lemma ThreeMinusTwoFinal()
    ensures Final(TrimSpaces(ThreeMinusTwoAfterSums)) == Ok(Difference(C(3), C(2)))
  {
    assert TrimSpaces(ThreeMinusTwoAfterSums) == ThreeMinusTwoAfterSums;
  }

  lemma ThreeMinusTwoImpl()
    ensures Impl(ThreeMinusTwoList) == Ok(Difference(C(3), C(2)))
  {
    ThreeMinusTwoParens();
    ThreeMinusTwoWholeNumbers();
    ThreeMinusTwoUnary();
    ThreeMinusTwoSums();
    ThreeMinusTwoFinal();
    Passes(ThreeMinusTwoList, ThreeMinusTwoList, ThreeMinusTwoAfterNumbers, ThreeMinusTwoAfterNumbers, ThreeMinusTwoAfterSums);
  }


  // ---------------------------------------------------------------------------
  // Sums and differences associate to the left
  const OneMinusTwoMinusThreeList: seq<Parse> := [Tok(WholeNumber("1")), Tok(Space), Tok(Operator("-")), Tok(Space), Tok(WholeNumber("2")), Tok(Space), Tok(Operator("-")), Tok(Space), Tok(WholeNumber("3"))]

  const OneMinusTwoMinusThreeAfterNumbers: seq<Parse> := [Expr(C(1)), Tok(Space), Tok(Operator("-")), Tok(Space), Expr(C(2)), Tok(Space), Tok(Operator("-")), Tok(Space), Expr(C(3))]

  const OneMinusTwoMinusThreeAfterSums: seq<Parse> := [Expr(Difference(Difference(C(1), C(2)), C(3)))]

  lemma OneMinusTwoMinusThreeToks()
    ensures Toks(OneMinusTwoMinusThree) == OneMinusTwoMinusThreeList
  {

  }

  lemma OneMinusTwoMinusThreeParens()
    ensures Parens(OneMinusTwoMinusThreeList) == Ok(OneMinusTwoMinusThreeList)
  {
    ParensNone(OneMinusTwoMinusThreeList);
  }

  lemma OneMinusTwoMinusThreeWholeNumbers()
    ensures WholeNumbers(OneMinusTwoMinusThreeList) == Ok(OneMinusTwoMinusThreeAfterNumbers)
  {
    Numerals();
    WholeNumbersOf(OneMinusTwoMinusThreeList, OneMinusTwoMinusThreeAfterNumbers);
  }

  lemma OneMinusTwoMinusThreeSignsBinary()
    ensures SignsBinary(OneMinusTwoMinusThreeAfterNumbers)
  {
    var ts := OneMinusTwoMinusThreeAfterNumbers;
    forall k | 0 <= k < |ts| && IsSign(ts[k]) ensures !Opens(Before(ts, k)) {
      assert k == 2 || k == 6;
    }
  }

  lemma OneMinusTwoMinusThreeUnary()
    ensures Unary(OneMinusTwoMinusThreeAfterNumbers) == Ok(OneMinusTwoMinusThreeAfterNumbers)
  {
    OneMinusTwoMinusThreeSignsBinary();
    UnaryNone(OneMinusTwoMinusThreeAfterNumbers);
  }

  /** The first difference is folded first, and the scan resumes at it. */
  lemma OneMinusTwoMinusThreeSums()
    ensures Sums(OneMinusTwoMinusThreeAfterNumbers) == Ok(OneMinusTwoMinusThreeAfterSums)
  {
    ChainTwo(Link(true, false, true, C(2)), Link(true, false, true, C(3)));
    assert OneMinusTwoMinusThreeAfterNumbers == [Expr(C(1))] + ChainToks([Link(true, false, true, C(2)), Link(true, false, true, C(3))]);
    SumsChain(C(1), [Link(true, false, true, C(2)), Link(true, false, true, C(3))]);
  }

  lemma OneMinusTwoMinusThreeFinal()
    ensures Final(TrimSpaces(OneMinusTwoMinusThreeAfterSums)) == Ok(Difference(Difference(C(1), C(2)), C(3)))
  {
    assert TrimSpaces(OneMinusTwoMinusThreeAfterSums) == OneMinusTwoMinusThreeAfterSums;
  }

  lemma OneMinusTwoMinusThreeImpl()
    ensures Impl(OneMinusTwoMinusThreeList) == Ok(Difference(Difference(C(1), C(2)), C(3)))
  {
    OneMinusTwoMinusThreeParens();
    OneMinusTwoMinusThreeWholeNumbers();
    OneMinusTwoMinusThreeUnary();
    OneMinusTwoMinusThreeSums();
    OneMinusTwoMinusThreeFinal();
    Passes(OneMinusTwoMinusThreeList, OneMinusTwoMinusThreeList, OneMinusTwoMinusThreeAfterNumbers, OneMinusTwoMinusThreeAfterNumbers, OneMinusTwoMinusThreeAfterSums);
  }

  /** "1 - 2 - 3" is (1 - 2) - 3, which is -4. */
  lemma OneMinusTwoMinusThreeParses()
    ensures ParseOf("1 - 2 - 3") == Ok(Difference(Difference(C(1), C(2)), C(3)))
  {
    OneMinusTwoMinusThreeTokenized();
    OneMinusTwoMinusThreeToks();
    OneMinusTwoMinusThreeImpl();
    ParsesVia("1 - 2 - 3", OneMinusTwoMinusThree, OneMinusTwoMinusThreeList, Ok(Difference(Difference(C(1), C(2)), C(3))));
  }

  lemma OneMinusTwoMinusThreeValue()
    ensures Eval(Difference(Difference(C(1), C(2)), C(3))) == Integer(-4)
  {
  }

  const OneMinusTwoPlusThreeList: seq<Parse> := [Tok(WholeNumber("1")), Tok(Space), Tok(Operator("-")), Tok(Space), Tok(WholeNumber("2")), Tok(Space), Tok(Operator("+")), Tok(Space), Tok(WholeNumber("3"))]

  const OneMinusTwoPlusThreeAfterNumbers: seq<Parse> := [Expr(C(1)), Tok(Space), Tok(Operator("-")), Tok(Space), Expr(C(2)), Tok(Space), Tok(Operator("+")), Tok(Space), Expr(C(3))]

  const OneMinusTwoPlusThreeAfterSums: seq<Parse> := [Expr(Sum(Difference(C(1), C(2)), C(3)))]

  lemma OneMinusTwoPlusThreeToks()
    ensures Toks(OneMinusTwoPlusThree) == OneMinusTwoPlusThreeList
  {

  }

  lemma OneMinusTwoPlusThreeParens()
    ensures Parens(OneMinusTwoPlusThreeList) == Ok(OneMinusTwoPlusThreeList)
  {
    ParensNone(OneMinusTwoPlusThreeList);
  }

  lemma OneMinusTwoPlusThreeWholeNumbers()
    ensures WholeNumbers(OneMinusTwoPlusThreeList) == Ok(OneMinusTwoPlusThreeAfterNumbers)
  {
    Numerals();
    WholeNumbersOf(OneMinusTwoPlusThreeList, OneMinusTwoPlusThreeAfterNumbers);
  }

  lemma OneMinusTwoPlusThreeSignsBinary()
    ensures SignsBinary(OneMinusTwoPlusThreeAfterNumbers)
  {
    var ts := OneMinusTwoPlusThreeAfterNumbers;
    forall k | 0 <= k < |ts| && IsSign(ts[k]) ensures !Opens(Before(ts, k)) {
      assert k == 2 || k == 6;
    }
  }

  lemma OneMinusTwoPlusThreeUnary()
    ensures Unary(OneMinusTwoPlusThreeAfterNumbers) == Ok(OneMinusTwoPlusThreeAfterNumbers)
  {
    OneMinusTwoPlusThreeSignsBinary();
    UnaryNone(OneMinusTwoPlusThreeAfterNumbers);
  }

  lemma OneMinusTwoPlusThreeSums()
    ensures Sums(OneMinusTwoPlusThreeAfterNumbers) == Ok(OneMinusTwoPlusThreeAfterSums)
  {
    ChainTwo(Link(true, false, true, C(2)), Link(true, true, true, C(3)));
    assert OneMinusTwoPlusThreeAfterNumbers == [Expr(C(1))] + ChainToks([Link(true, false, true, C(2)), Link(true, true, true, C(3))]);
    SumsChain(C(1), [Link(true, false, true, C(2)), Link(true, true, true, C(3))]);
  }

  lemma OneMinusTwoPlusThreeFinal()
    ensures Final(TrimSpaces(OneMinusTwoPlusThreeAfterSums)) == Ok(Sum(Difference(C(1), C(2)), C(3)))
  {
    assert TrimSpaces(OneMinusTwoPlusThreeAfterSums) == OneMinusTwoPlusThreeAfterSums;
  }

  lemma OneMinusTwoPlusThreeImpl()
    ensures Impl(OneMinusTwoPlusThreeList) == Ok(Sum(Difference(C(1), C(2)), C(3)))
  {
    OneMinusTwoPlusThreeParens();
    OneMinusTwoPlusThreeWholeNumbers();
    OneMinusTwoPlusThreeUnary();
    OneMinusTwoPlusThreeSums();
    OneMinusTwoPlusThreeFinal();
    Passes(OneMinusTwoPlusThreeList, OneMinusTwoPlusThreeList, OneMinusTwoPlusThreeAfterNumbers, OneMinusTwoPlusThreeAfterNumbers, OneMinusTwoPlusThreeAfterSums);
  }

  /** "1 - 2 + 3" is (1 - 2) + 3, which is 2. */
  lemma OneMinusTwoPlusThreeParses()
    ensures ParseOf("1 - 2 + 3") == Ok(Sum(Difference(C(1), C(2)), C(3)))
  {
    OneMinusTwoPlusThreeTokenized();
    OneMinusTwoPlusThreeToks();
    OneMinusTwoPlusThreeImpl();
    ParsesVia("1 - 2 + 3", OneMinusTwoPlusThree, OneMinusTwoPlusThreeList, Ok(Sum(Difference(C(1), C(2)), C(3))));
  }

  lemma OneMinusTwoPlusThreeValue()
    ensures Eval(Sum(Difference(C(1), C(2)), C(3))) == Integer(2)
  {
  }


  // ---------------------------------------------------------------------------
  // Unary signs
  const OnePlusMinusThreeList: seq<Parse> := [Tok(WholeNumber("1")), Tok(Space), Tok(Operator("+")), Tok(Space), Tok(Operator("-")), Tok(Space), Tok(WholeNumber("3"))]

  const OnePlusMinusThreeAfterNumbers: seq<Parse> := [Expr(C(1)), Tok(Space), Tok(Operator("+")), Tok(Space), Tok(Operator("-")), Tok(Space), Expr(C(3))]

  const OnePlusMinusThreeAfterUnary: seq<Parse> := [Expr(C(1)), Tok(Space), Tok(Operator("+")), Tok(Space), Expr(UnaryMinus(C(3)))]

  const OnePlusMinusThreeAfterSums: seq<Parse> := [Expr(Sum(C(1), UnaryMinus(C(3))))]

  lemma OnePlusMinusThreeToks()
    ensures Toks(OnePlusMinusThree) == OnePlusMinusThreeList
  {

  }

  lemma OnePlusMinusThreeParens()
    ensures Parens(OnePlusMinusThreeList) == Ok(OnePlusMinusThreeList)
  {
    ParensNone(OnePlusMinusThreeList);
  }

  lemma OnePlusMinusThreeWholeNumbers()
    ensures WholeNumbers(OnePlusMinusThreeList) == Ok(OnePlusMinusThreeAfterNumbers)
  {
    Numerals();
    WholeNumbersOf(OnePlusMinusThreeList, OnePlusMinusThreeAfterNumbers);
  }

  /** The "-" after "+ " is unary and folds with 3; the "+" after "1 " stays binary. */
  /** The operand "1 + ", then one spaced "-" sign before 3. */
  const OnePlusPrefix: seq<Parse> := [Expr(C(1)), Tok(Space), Tok(Operator("+")), Tok(Space)]

  lemma OnePlusMinusThreeLaidOut()
    ensures OnePlusMinusThreeAfterNumbers == OnePlusPrefix + Spaced([false]) + [Expr(C(3))] + []
    ensures OnePlusPrefix + [Expr(ApplySigns([false], C(3)))] + [] == OnePlusMinusThreeAfterUnary
  {
    assert Spaced([false]) == [SignTok(false), Tok(Space)];
    assert ApplySigns([false], C(3)) == UnaryMinus(C(3));
  }

  /** The "+" after 1 follows an operand, so the scan to its left changes nothing. */
  lemma OnePlusMinusThreeLeft()
    ensures UnaryFrom(OnePlusMinusThreeAfterUnary, 4, Some(4)) == Ok(OnePlusMinusThreeAfterUnary)
  {
    NoUnarySignsOf(OnePlusMinusThreeAfterUnary, 4);
    UnaryUnchanged(OnePlusMinusThreeAfterUnary, 4, Some(4));
  }

  lemma OnePlusMinusThreeUnary()
    ensures Unary(OnePlusMinusThreeAfterNumbers) == Ok(OnePlusMinusThreeAfterUnary)
  {
    UnaryStep(OnePlusMinusThreeAfterNumbers, 6, None);
    OnePlusMinusThreeLaidOut();
    SpacedChain(OnePlusPrefix, [false], C(3), []);
    OnePlusMinusThreeLeft();
  }

  lemma OnePlusMinusThreeSums()
    ensures Sums(OnePlusMinusThreeAfterUnary) == Ok(OnePlusMinusThreeAfterSums)
  {
    ChainOne(Link(true, true, true, UnaryMinus(C(3))));
    assert OnePlusMinusThreeAfterUnary == [Expr(C(1))] + ChainToks([Link(true, true, true, UnaryMinus(C(3)))]);
    SumsChain(C(1), [Link(true, true, true, UnaryMinus(C(3)))]);
  }

  lemma OnePlusMinusThreeFinal()
    ensures Final(TrimSpaces(OnePlusMinusThreeAfterSums)) == Ok(Sum(C(1), UnaryMinus(C(3))))
  {
    assert TrimSpaces(OnePlusMinusThreeAfterSums) == OnePlusMinusThreeAfterSums;
  }

  lemma OnePlusMinusThreeImpl()
    ensures Impl(OnePlusMinusThreeList) == Ok(Sum(C(1), UnaryMinus(C(3))))
  {
    OnePlusMinusThreeParens();
    OnePlusMinusThreeWholeNumbers();
    OnePlusMinusThreeUnary();
    OnePlusMinusThreeSums();
    OnePlusMinusThreeFinal();
    Passes(OnePlusMinusThreeList, OnePlusMinusThreeList, OnePlusMinusThreeAfterNumbers, OnePlusMinusThreeAfterUnary, OnePlusMinusThreeAfterSums);
  }

  /** "1 + - 3" is 1 + (-3), which is -2. */
  lemma OnePlusMinusThreeParses()
    ensures ParseOf("1 + - 3") == Ok(Sum(C(1), UnaryMinus(C(3))))
  {
    OnePlusMinusThreeTokenized();
    OnePlusMinusThreeToks();
    OnePlusMinusThreeImpl();
    ParsesVia("1 + - 3", OnePlusMinusThree, OnePlusMinusThreeList, Ok(Sum(C(1), UnaryMinus(C(3)))));
  }

  lemma OnePlusMinusThreeValue()
    ensures Eval(Sum(C(1), UnaryMinus(C(3)))) == Integer(-2)
  {
  }

  const PlusPlusMinusThreeList: seq<Parse> := [Tok(Operator("+")), Tok(Space), Tok(Operator("+")), Tok(Space), Tok(Operator("-")), Tok(WholeNumber("3"))]

  const PlusPlusMinusThreeAfterNumbers: seq<Parse> := [Tok(Operator("+")), Tok(Space), Tok(Operator("+")), Tok(Space), Tok(Operator("-")), Expr(C(3))]

  const PlusPlusMinusThreeAfterUnary: seq<Parse> := [Expr(UnaryPlus(UnaryPlus(UnaryMinus(C(3)))))]

  lemma PlusPlusMinusThreeToks()
    ensures Toks(PlusPlusMinusThree) == PlusPlusMinusThreeList
  {

  }

  lemma PlusPlusMinusThreeParens()
    ensures Parens(PlusPlusMinusThreeList) == Ok(PlusPlusMinusThreeList)
  {
    ParensNone(PlusPlusMinusThreeList);
  }

  lemma PlusPlusMinusThreeWholeNumbers()
    ensures WholeNumbers(PlusPlusMinusThreeList) == Ok(PlusPlusMinusThreeAfterNumbers)
  {
    Numerals();
    WholeNumbersOf(PlusPlusMinusThreeList, PlusPlusMinusThreeAfterNumbers);
  }

  /** A chain of unary signs folds innermost first, the last sign written against its operand. */
  /** Two spaced "+" signs, then "-" directly before 3. */
  lemma PlusPlusMinusThreeLaidOut()
    ensures PlusPlusMinusThreeAfterNumbers == [] + Spaced([true, true]) + [SignTok(false), Expr(C(3))] + []
    ensures [] + [Expr(ApplySigns([true, true] + [false], C(3)))] + [] == PlusPlusMinusThreeAfterUnary
  {
    assert Spaced([true]) == [SignTok(true), Tok(Space)];
    assert [true, true][..1] == [true];
    assert Spaced([true, true]) == [SignTok(true), Tok(Space), SignTok(true), Tok(Space)];
    assert [true, true] + [false] == [true, true, false];
    assert [true, true, false][..2] == [true, true];
    assert ApplySigns([true, true, false], C(3)) == UnaryPlus(UnaryPlus(UnaryMinus(C(3))));
  }

  lemma PlusPlusMinusThreeUnary()
    ensures Unary(PlusPlusMinusThreeAfterNumbers) == Ok(PlusPlusMinusThreeAfterUnary)
  {
    UnaryStep(PlusPlusMinusThreeAfterNumbers, 5, None);
    PlusPlusMinusThreeLaidOut();
    TightChain([], [true, true], false, C(3), []);
  }

  lemma PlusPlusMinusThreeSums()
    ensures Sums(PlusPlusMinusThreeAfterUnary) == Ok(PlusPlusMinusThreeAfterUnary)
  {
    SumsLone(UnaryPlus(UnaryPlus(UnaryMinus(C(3)))));
  }

  lemma PlusPlusMinusThreeFinal()
    ensures Final(TrimSpaces(PlusPlusMinusThreeAfterUnary)) == Ok(UnaryPlus(UnaryPlus(UnaryMinus(C(3)))))
  {
    assert TrimSpaces(PlusPlusMinusThreeAfterUnary) == PlusPlusMinusThreeAfterUnary;
  }

  lemma PlusPlusMinusThreeImpl()
    ensures Impl(PlusPlusMinusThreeList) == Ok(UnaryPlus(UnaryPlus(UnaryMinus(C(3)))))
  {
    PlusPlusMinusThreeParens();
    PlusPlusMinusThreeWholeNumbers();
    PlusPlusMinusThreeUnary();
    PlusPlusMinusThreeSums();
    PlusPlusMinusThreeFinal();
    Passes(PlusPlusMinusThreeList, PlusPlusMinusThreeList, PlusPlusMinusThreeAfterNumbers, PlusPlusMinusThreeAfterUnary, PlusPlusMinusThreeAfterUnary);
  }

  /** "+ + -3" is +(+(-3)), which is -3. */
  lemma PlusPlusMinusThreeParses()
    ensures ParseOf("+ + -3") == Ok(UnaryPlus(UnaryPlus(UnaryMinus(C(3)))))
  {
    PlusPlusMinusThreeTokenized();
    PlusPlusMinusThreeToks();
    PlusPlusMinusThreeImpl();
    ParsesVia("+ + -3", PlusPlusMinusThree, PlusPlusMinusThreeList, Ok(UnaryPlus(UnaryPlus(UnaryMinus(C(3))))));
  }

  lemma PlusPlusMinusThreeValue()
    ensures Eval(UnaryPlus(UnaryPlus(UnaryMinus(C(3))))) == Integer(-3)
  {
  }

  const OnePlusPlusThreeList: seq<Parse> := [Tok(WholeNumber("1")), Tok(Operator("+")), Tok(Operator("+")), Tok(WholeNumber("3"))]

  const OnePlusPlusThreeAfterNumbers: seq<Parse> := [Expr(C(1)), Tok(Operator("+")), Tok(Operator("+")), Expr(C(3))]

  lemma OnePlusPlusThreeToks()
    ensures Toks(OnePlusPlusThree) == OnePlusPlusThreeList
  {

  }

  lemma OnePlusPlusThreeParens()
    ensures Parens(OnePlusPlusThreeList) == Ok(OnePlusPlusThreeList)
  {
    ParensNone(OnePlusPlusThreeList);
  }

  lemma OnePlusPlusThreeWholeNumbers()
    ensures WholeNumbers(OnePlusPlusThreeList) == Ok(OnePlusPlusThreeAfterNumbers)
  {
    Numerals();
    WholeNumbersOf(OnePlusPlusThreeList, OnePlusPlusThreeAfterNumbers);
  }

  lemma OnePlusPlusThreeSignsBinary()
    ensures SignsBinary(OnePlusPlusThreeAfterNumbers)
  {
    var ts := OnePlusPlusThreeAfterNumbers;
    forall k | 0 <= k < |ts| && IsSign(ts[k]) ensures !Opens(Before(ts, k)) {
      assert k == 1 || k == 2;
    }
  }

  lemma OnePlusPlusThreeUnary()
    ensures Unary(OnePlusPlusThreeAfterNumbers) == Ok(OnePlusPlusThreeAfterNumbers)
  {
    OnePlusPlusThreeSignsBinary();
    UnaryNone(OnePlusPlusThreeAfterNumbers);
  }

  /** A sign right after another operator is never unary, and a second sign ends the pending sum. */
  lemma OnePlusPlusThreeSums()
    ensures Sums(OnePlusPlusThreeAfterNumbers) == Ok(OnePlusPlusThreeAfterNumbers)
  {
    SumsStep(OnePlusPlusThreeAfterNumbers, 0, None, false);
    SumsStep(OnePlusPlusThreeAfterNumbers, 1, Some(0), false);
    SumsStep(OnePlusPlusThreeAfterNumbers, 2, Some(0), true);
    SumsStep(OnePlusPlusThreeAfterNumbers, 3, None, false);
  }

  lemma OnePlusPlusThreeRun()
    ensures NoTemp(OnePlusPlusThreeAfterNumbers)
    ensures RunText(OnePlusPlusThreeAfterNumbers, 1) == "++"
  {
  }

  lemma OnePlusPlusThreeTrimmed()
    ensures TrimSpaces(OnePlusPlusThreeAfterNumbers) == OnePlusPlusThreeAfterNumbers
  {
  }

  lemma OnePlusPlusThreeFinal()
    ensures Final(TrimSpaces(OnePlusPlusThreeAfterNumbers)) == Err(SyntaxError("invalid syntax \"++\""))
  {
    OnePlusPlusThreeTrimmed();
    OnePlusPlusThreeRun();
    FinalQuotes(OnePlusPlusThreeAfterNumbers, 1, "++", "invalid syntax \"++\"");
  }

  lemma OnePlusPlusThreeImpl()
    ensures Impl(OnePlusPlusThreeList) == Err(SyntaxError("invalid syntax \"++\""))
  {
    OnePlusPlusThreeParens();
    OnePlusPlusThreeWholeNumbers();
    OnePlusPlusThreeUnary();
    OnePlusPlusThreeSums();
    OnePlusPlusThreeFinal();
    Passes(OnePlusPlusThreeList, OnePlusPlusThreeList, OnePlusPlusThreeAfterNumbers, OnePlusPlusThreeAfterNumbers, OnePlusPlusThreeAfterNumbers);
  }

  /** "1++3" is a syntax error that quotes the two signs. */
  lemma OnePlusPlusThreeParses()
    ensures ParseOf("1++3") == Err(SyntaxError("invalid syntax \"++\""))
  {
    OnePlusPlusThreeTokenized();
    OnePlusPlusThreeToks();
    OnePlusPlusThreeImpl();
    ParsesVia("1++3", OnePlusPlusThree, OnePlusPlusThreeList, Err(SyntaxError("invalid syntax \"++\"")));
  }

  const OneMinusMinusThreeList: seq<Parse> := [Tok(WholeNumber("1")), Tok(Operator("-")), Tok(Operator("-")), Tok(WholeNumber("3"))]

  const OneMinusMinusThreeAfterNumbers: seq<Parse> := [Expr(C(1)), Tok(Operator("-")), Tok(Operator("-")), Expr(C(3))]

  lemma OneMinusMinusThreeToks()
    ensures Toks(OneMinusMinusThree) == OneMinusMinusThreeList
  {

  }

  lemma OneMinusMinusThreeParens()
    ensures Parens(OneMinusMinusThreeList) == Ok(OneMinusMinusThreeList)
  {
    ParensNone(OneMinusMinusThreeList);
  }

  lemma OneMinusMinusThreeWholeNumbers()
    ensures WholeNumbers(OneMinusMinusThreeList) == Ok(OneMinusMinusThreeAfterNumbers)
  {
    Numerals();
    WholeNumbersOf(OneMinusMinusThreeList, OneMinusMinusThreeAfterNumbers);
  }

  lemma OneMinusMinusThreeSignsBinary()
    ensures SignsBinary(OneMinusMinusThreeAfterNumbers)
  {
    var ts := OneMinusMinusThreeAfterNumbers;
    forall k | 0 <= k < |ts| && IsSign(ts[k]) ensures !Opens(Before(ts, k)) {
      assert k == 1 || k == 2;
    }
  }

  lemma OneMinusMinusThreeUnary()
    ensures Unary(OneMinusMinusThreeAfterNumbers) == Ok(OneMinusMinusThreeAfterNumbers)
  {
    OneMinusMinusThreeSignsBinary();
    UnaryNone(OneMinusMinusThreeAfterNumbers);
  }

  /** A sign right after another operator is never unary, and a second sign ends the pending sum. */
  lemma OneMinusMinusThreeSums()
    ensures Sums(OneMinusMinusThreeAfterNumbers) == Ok(OneMinusMinusThreeAfterNumbers)
  {
    SumsStep(OneMinusMinusThreeAfterNumbers, 0, None, false);
    SumsStep(OneMinusMinusThreeAfterNumbers, 1, Some(0), false);
    SumsStep(OneMinusMinusThreeAfterNumbers, 2, Some(0), true);
    SumsStep(OneMinusMinusThreeAfterNumbers, 3, None, false);
  }

  lemma OneMinusMinusThreeRun()
    ensures NoTemp(OneMinusMinusThreeAfterNumbers)
    ensures RunText(OneMinusMinusThreeAfterNumbers, 1) == "--"
  {
  }

  lemma OneMinusMinusThreeTrimmed()
    ensures TrimSpaces(OneMinusMinusThreeAfterNumbers) == OneMinusMinusThreeAfterNumbers
  {
  }

  lemma OneMinusMinusThreeFinal()
    ensures Final(TrimSpaces(OneMinusMinusThreeAfterNumbers)) == Err(SyntaxError("invalid syntax \"--\""))
  {
    OneMinusMinusThreeTrimmed();
    OneMinusMinusThreeRun();
    FinalQuotes(OneMinusMinusThreeAfterNumbers, 1, "--", "invalid syntax \"--\"");
  }

  lemma OneMinusMinusThreeImpl()
    ensures Impl(OneMinusMinusThreeList) == Err(SyntaxError("invalid syntax \"--\""))
  {
    OneMinusMinusThreeParens();
    OneMinusMinusThreeWholeNumbers();
    OneMinusMinusThreeUnary();
    OneMinusMinusThreeSums();
    OneMinusMinusThreeFinal();
    Passes(OneMinusMinusThreeList, OneMinusMinusThreeList, OneMinusMinusThreeAfterNumbers, OneMinusMinusThreeAfterNumbers, OneMinusMinusThreeAfterNumbers);
  }

  /** "1--3" is a syntax error that quotes the two signs. */
  lemma OneMinusMinusThreeParses()
    ensures ParseOf("1--3") == Err(SyntaxError("invalid syntax \"--\""))
  {
    OneMinusMinusThreeTokenized();
    OneMinusMinusThreeToks();
    OneMinusMinusThreeImpl();
    ParsesVia("1--3", OneMinusMinusThree, OneMinusMinusThreeList, Err(SyntaxError("invalid syntax \"--\"")));
  }

  const PlusPlusThreeList: seq<Parse> := [Tok(Operator("+")), Tok(Operator("+")), Tok(WholeNumber("3"))]

  const PlusPlusThreeAfterNumbers: seq<Parse> := [Tok(Operator("+")), Tok(Operator("+")), Expr(C(3))]

  lemma PlusPlusThreeToks()
    ensures Toks(PlusPlusThree) == PlusPlusThreeList
  {

  }

  lemma PlusPlusThreeParens()
    ensures Parens(PlusPlusThreeList) == Ok(PlusPlusThreeList)
  {
    ParensNone(PlusPlusThreeList);
  }

  lemma PlusPlusThreeWholeNumbers()
    ensures WholeNumbers(PlusPlusThreeList) == Ok(PlusPlusThreeAfterNumbers)
  {
    Numerals();
    WholeNumbersOf(PlusPlusThreeList, PlusPlusThreeAfterNumbers);
  }

  /** The second "+" follows an operator, so it blocks; the first then has no operand to fold with. */
  lemma PlusPlusThreeUnary()
    ensures Unary(PlusPlusThreeAfterNumbers) == Ok(PlusPlusThreeAfterNumbers)
  {
    UnaryStep(PlusPlusThreeAfterNumbers, 2, None);
    UnaryStep(PlusPlusThreeAfterNumbers, 1, Some(2));
    UnaryStep(PlusPlusThreeAfterNumbers, 0, None);
  }

  lemma PlusPlusThreeSums()
    ensures Sums(PlusPlusThreeAfterNumbers) == Ok(PlusPlusThreeAfterNumbers)
  {
    SumsStep(PlusPlusThreeAfterNumbers, 0, None, false);
    SumsStep(PlusPlusThreeAfterNumbers, 1, None, false);
    SumsStep(PlusPlusThreeAfterNumbers, 2, None, false);
  }

  lemma PlusPlusThreeRun()
    ensures NoTemp(PlusPlusThreeAfterNumbers)
    ensures RunText(PlusPlusThreeAfterNumbers, 0) == "++"
  {
  }

  lemma PlusPlusThreeTrimmed()
    ensures TrimSpaces(PlusPlusThreeAfterNumbers) == PlusPlusThreeAfterNumbers
  {
  }

  lemma PlusPlusThreeFinal()
    ensures Final(TrimSpaces(PlusPlusThreeAfterNumbers)) == Err(SyntaxError("invalid syntax \"++\""))
  {
    PlusPlusThreeTrimmed();
    PlusPlusThreeRun();
    FinalQuotes(PlusPlusThreeAfterNumbers, 0, "++", "invalid syntax \"++\"");
  }

  lemma PlusPlusThreeImpl()
    ensures Impl(PlusPlusThreeList) == Err(SyntaxError("invalid syntax \"++\""))
  {
    PlusPlusThreeParens();
    PlusPlusThreeWholeNumbers();
    PlusPlusThreeUnary();
    PlusPlusThreeSums();
    PlusPlusThreeFinal();
    Passes(PlusPlusThreeList, PlusPlusThreeList, PlusPlusThreeAfterNumbers, PlusPlusThreeAfterNumbers, PlusPlusThreeAfterNumbers);
  }

  /** "++3" is a syntax error: a sign directly before another is never unary. */
  lemma PlusPlusThreeParses()
    ensures ParseOf("++3") == Err(SyntaxError("invalid syntax \"++\""))
  {
    PlusPlusThreeTokenized();
    PlusPlusThreeToks();
    PlusPlusThreeImpl();
    ParsesVia("++3", PlusPlusThree, PlusPlusThreeList, Err(SyntaxError("invalid syntax \"++\"")));
  }


  // ---------------------------------------------------------------------------
  // Parentheses
  const SpacedOneList: seq<Parse> := [Tok(Space), Tok(Operator("(")), Tok(Space), Tok(WholeNumber("1")), Tok(Space), Tok(Operator(")")), Tok(Space)]

  const SpacedOneAfterParens: seq<Parse> := [Tok(Space), Expr(C(1)), Tok(Space)]

  lemma SpacedOneToks()
    ensures Toks(SpacedOne) == SpacedOneList
  {

  }

  /** Where the group of SpacedOne is, and what is inside it. */
  lemma SpacedOneShape()
    ensures |SpacedOneList| == 7
    ensures IsOp(SpacedOneList[1], "(") && IsOp(SpacedOneList[5], ")")
    ensures forall m :: 1 < m < 5 ==> !IsParen(SpacedOneList[m])
    ensures forall m :: 5 < m < 7 ==> !IsParen(SpacedOneList[m])
    ensures TrimSpaces(SpacedOneList[2..5]) == OneAloneList
  {
    assert SpacedOneList[2..5] == [Tok(Space), Tok(WholeNumber("1")), Tok(Space)];
  }

  lemma SpacedOneSpliced()
    ensures SpacedOneList[..1] + [Expr(C(1))] + SpacedOneList[6..] == SpacedOneAfterParens
    ensures forall m :: 0 <= m < 1 ==> !IsParen(SpacedOneAfterParens[m])
  {
  }

  /** The group's inside is trimmed of its Spaces and parsed alone. */
  lemma SpacedOneShaped()
    ensures GroupShape(SpacedOneList, 1, 5, OneAloneList, C(1), SpacedOneAfterParens)
  {
    SpacedOneShape();
    OneAloneImpl();
    SpacedOneSpliced();
  }

  lemma SpacedOneInnerParsed()
    ensures Parens(SpacedOneList) == ParensFrom(SpacedOneAfterParens, 1, None, 0)
  {
    SpacedOneShaped();
    ParensGroupFrom(SpacedOneList, 1, 5, OneAloneList, C(1), SpacedOneAfterParens);
  }

  lemma SpacedOneParens()
    ensures Parens(SpacedOneList) == Ok(SpacedOneAfterParens)
  {
    SpacedOneInnerParsed();
    ParensSkipAll(SpacedOneAfterParens, 1, 0, None, 0);
  }

  lemma SpacedOneWholeNumbers()
    ensures WholeNumbers(SpacedOneAfterParens) == Ok(SpacedOneAfterParens)
  {
    WholeNumbersOf(SpacedOneAfterParens, SpacedOneAfterParens);
  }

  lemma SpacedOneSignsBinary()
    ensures SignsBinary(SpacedOneAfterParens)
  {
  }

  lemma SpacedOneUnary()
    ensures Unary(SpacedOneAfterParens) == Ok(SpacedOneAfterParens)
  {
    SpacedOneSignsBinary();
    UnaryNone(SpacedOneAfterParens);
  }

  lemma SpacedOneSums()
    ensures Sums(SpacedOneAfterParens) == Ok(SpacedOneAfterParens)
  {
    SumsStep(SpacedOneAfterParens, 0, None, false);
    SumsStep(SpacedOneAfterParens, 1, None, false);
    SumsStep(SpacedOneAfterParens, 2, Some(1), false);
  }

  lemma SpacedOneFinal()
    ensures Final(TrimSpaces(SpacedOneAfterParens)) == Ok(C(1))
  {
    assert TrimSpaces(SpacedOneAfterParens) == [Expr(C(1))];
  }

  lemma SpacedOneImpl()
    ensures Impl(SpacedOneList) == Ok(C(1))
  {
    SpacedOneParens();
    SpacedOneWholeNumbers();
    SpacedOneUnary();
    SpacedOneSums();
    SpacedOneFinal();
    Passes(SpacedOneList, SpacedOneAfterParens, SpacedOneAfterParens, SpacedOneAfterParens, SpacedOneAfterParens);
  }

  /** " ( 1 ) " is 1: the Spaces around the group and inside it are dropped. */
  lemma SpacedOneParses()
    ensures ParseOf(" ( 1 ) ") == Ok(C(1))
  {
    SpacedOneTokenized();
    SpacedOneToks();
    SpacedOneImpl();
    ParsesVia(" ( 1 ) ", SpacedOne, SpacedOneList, Ok(C(1)));
  }

  lemma SpacedOneValue()
    ensures Eval(C(1)) == Integer(1)
  {
  }

  const NegatedSumList: seq<Parse> := [Tok(Operator("-")), Tok(Operator("(")), Tok(WholeNumber("1")), Tok(Space), Tok(Operator("+")), Tok(Space), Tok(WholeNumber("2")), Tok(Operator(")"))]

  const NegatedSumAfterParens: seq<Parse> := [Tok(Operator("-")), Expr(Sum(C(1), C(2)))]

  const NegatedSumAfterUnary: seq<Parse> := [Expr(UnaryMinus(Sum(C(1), C(2))))]

  lemma NegatedSumToks()
    ensures Toks(NegatedSum) == NegatedSumList
  {

  }

  /** Where the group of NegatedSum is, and what is inside it. */
  lemma NegatedSumShape()
    ensures |NegatedSumList| == 8
    ensures IsOp(NegatedSumList[1], "(") && IsOp(NegatedSumList[7], ")")
    ensures forall m :: 1 < m < 7 ==> !IsParen(NegatedSumList[m])
    ensures TrimSpaces(NegatedSumList[2..7]) == OnePlusTwoList
  {
  }

  lemma NegatedSumSpliced()
    ensures NegatedSumList[..1] + [Expr(Sum(C(1), C(2)))] + NegatedSumList[8..] == NegatedSumAfterParens
    ensures forall m :: 0 <= m < 1 ==> !IsParen(NegatedSumAfterParens[m])
  {
  }

  lemma NegatedSumShaped()
    ensures GroupShape(NegatedSumList, 1, 7, OnePlusTwoList, Sum(C(1), C(2)), NegatedSumAfterParens)
  {
    NegatedSumShape();
    OnePlusTwoImpl();
    NegatedSumSpliced();
  }

  lemma NegatedSumInnerParsed()
    ensures Parens(NegatedSumList) == ParensFrom(NegatedSumAfterParens, 1, None, 0)
  {
    NegatedSumShaped();
    ParensGroupFrom(NegatedSumList, 1, 7, OnePlusTwoList, Sum(C(1), C(2)), NegatedSumAfterParens);
  }

  lemma NegatedSumParens()
    ensures Parens(NegatedSumList) == Ok(NegatedSumAfterParens)
  {
    NegatedSumInnerParsed();
    ParensSkipAll(NegatedSumAfterParens, 1, 0, None, 0);
  }

  lemma NegatedSumWholeNumbers()
    ensures WholeNumbers(NegatedSumAfterParens) == Ok(NegatedSumAfterParens)
  {
    WholeNumbersOf(NegatedSumAfterParens, NegatedSumAfterParens);
  }

  /** "-" directly before the parsed group: one sign, nothing before it. */
  lemma NegatedSumLaidOut()
    ensures NegatedSumAfterParens == [] + Spaced([]) + [SignTok(false), Expr(Sum(C(1), C(2)))] + []
    ensures [] + [Expr(ApplySigns([] + [false], Sum(C(1), C(2))))] + [] == NegatedSumAfterUnary
  {
    assert Spaced([]) == [];
    assert [] + [false] == [false];
    assert ApplySigns([false], Sum(C(1), C(2))) == UnaryMinus(Sum(C(1), C(2)));
  }

  /** A sign at the start is unary, also before a group. */
  lemma NegatedSumUnary()
    ensures Unary(NegatedSumAfterParens) == Ok(NegatedSumAfterUnary)
  {
    assert UnaryFrom(NegatedSumAfterParens, 1, Some(1)) == UnaryFrom(NegatedSumAfterUnary, 0, Some(0)) by {
      NegatedSumLaidOut();
      TightChain([], [], false, Sum(C(1), C(2)), []);
    }
    UnaryStep(NegatedSumAfterParens, 1, None);
  }

  lemma NegatedSumSums()
    ensures Sums(NegatedSumAfterUnary) == Ok(NegatedSumAfterUnary)
  {
    SumsLone(UnaryMinus(Sum(C(1), C(2))));
  }

  lemma NegatedSumFinal()
    ensures Final(TrimSpaces(NegatedSumAfterUnary)) == Ok(UnaryMinus(Sum(C(1), C(2))))
  {
    assert TrimSpaces(NegatedSumAfterUnary) == NegatedSumAfterUnary;
  }

  lemma NegatedSumImpl()
    ensures Impl(NegatedSumList) == Ok(UnaryMinus(Sum(C(1), C(2))))
  {
    NegatedSumParens();
    NegatedSumWholeNumbers();
    NegatedSumUnary();
    NegatedSumSums();
    NegatedSumFinal();
    Passes(NegatedSumList, NegatedSumAfterParens, NegatedSumAfterParens, NegatedSumAfterUnary, NegatedSumAfterUnary);
  }

  /** "-(1 + 2)" is -(1 + 2), which is -3. */
  lemma NegatedSumParses()
    ensures ParseOf("-(1 + 2)") == Ok(UnaryMinus(Sum(C(1), C(2))))
  {
    NegatedSumTokenized();
    NegatedSumToks();
    NegatedSumImpl();
    ParsesVia("-(1 + 2)", NegatedSum, NegatedSumList, Ok(UnaryMinus(Sum(C(1), C(2)))));
  }

  lemma NegatedSumValue()
    ensures Eval(UnaryMinus(Sum(C(1), C(2)))) == Integer(-3)
  {
  }

  /** The value of the second group of "(10+2)-(-5 + (3 - 2))". */
  const NegFivePlusDifference: Expression := Sum(UnaryMinus(C(5)), Difference(C(3), C(2)))

  /** The inside of the second group: "-5 + (3 - 2)". */
  const NegFivePlusGroupList: seq<Parse> := [Tok(Operator("-")), Tok(WholeNumber("5")), Tok(Space), Tok(Operator("+")), Tok(Space), Tok(Operator("(")), Tok(WholeNumber("3")), Tok(Space), Tok(Operator("-")), Tok(Space), Tok(WholeNumber("2")), Tok(Operator(")"))]

  const NegFivePlusGroupAfterParens: seq<Parse> := [Tok(Operator("-")), Tok(WholeNumber("5")), Tok(Space), Tok(Operator("+")), Tok(Space), Expr(Difference(C(3), C(2)))]

  const NegFivePlusGroupAfterNumbers: seq<Parse> := [Tok(Operator("-")), Expr(C(5)), Tok(Space), Tok(Operator("+")), Tok(Space), Expr(Difference(C(3), C(2)))]

  const NegFivePlusGroupAfterUnary: seq<Parse> := [Expr(UnaryMinus(C(5))), Tok(Space), Tok(Operator("+")), Tok(Space), Expr(Difference(C(3), C(2)))]

  const NegFivePlusGroupAfterSums: seq<Parse> := [Expr(NegFivePlusDifference)]

  /** The inner group "(3 - 2)" sits at positions 5 to 11. */
  lemma NegFivePlusGroupInner()
    ensures IsOp(NegFivePlusGroupList[5], "(") && IsOp(NegFivePlusGroupList[11], ")")
    ensures forall m :: 5 < m < 11 ==> !IsParen(NegFivePlusGroupList[m])
    ensures NegFivePlusGroupList[6..11] == ThreeMinusTwoList
  {
  }

  lemma NegFivePlusGroupOutside()
    ensures |NegFivePlusGroupList| == 12 && |NegFivePlusGroupAfterParens| == 6
    ensures forall m :: 0 <= m < 5 ==> !IsParen(NegFivePlusGroupAfterParens[m])
  {
  }

  lemma NegFivePlusGroupSpliced()
    ensures NegFivePlusGroupList[..5] + [Expr(Difference(C(3), C(2)))] + NegFivePlusGroupList[12..] == NegFivePlusGroupAfterParens
  {
  }

  lemma ThreeMinusTwoTrimmed()
    ensures TrimSpaces(ThreeMinusTwoList) == ThreeMinusTwoList
  {
  }

  lemma NegFivePlusGroupShaped()
    ensures GroupShape(NegFivePlusGroupList, 5, 11, ThreeMinusTwoList, Difference(C(3), C(2)), NegFivePlusGroupAfterParens)
  {
    NegFivePlusGroupInner();
    ThreeMinusTwoTrimmed();
    ThreeMinusTwoImpl();
    NegFivePlusGroupSpliced();
    NegFivePlusGroupOutside();
  }

  lemma NegFivePlusGroupInnerParsed()
    ensures Parens(NegFivePlusGroupList) == ParensFrom(NegFivePlusGroupAfterParens, 5, None, 0)
  {
    NegFivePlusGroupShaped();
    ParensGroupFrom(NegFivePlusGroupList, 5, 11, ThreeMinusTwoList, Difference(C(3), C(2)), NegFivePlusGroupAfterParens);
  }

  lemma NegFivePlusGroupParens()
    ensures Parens(NegFivePlusGroupList) == Ok(NegFivePlusGroupAfterParens)
  {
    NegFivePlusGroupInnerParsed();
    NegFivePlusGroupOutside();
    ParensSkipAll(NegFivePlusGroupAfterParens, 5, 0, None, 0);
  }

  lemma NegFivePlusGroupWholeNumbers()
    ensures WholeNumbers(NegFivePlusGroupAfterParens) == Ok(NegFivePlusGroupAfterNumbers)
  {
    Numerals();
    WholeNumbersOf(NegFivePlusGroupAfterParens, NegFivePlusGroupAfterNumbers);
  }

  /** The leading "-" is unary and folds with 5; the "+" after "5 " is binary. */
  lemma NegFivePlusGroupUnary()
    ensures Unary(NegFivePlusGroupAfterNumbers) == Ok(NegFivePlusGroupAfterUnary)
  {
    var w := NegFivePlusGroupAfterNumbers;
    UnaryStep(w, 5, None);
    UnaryStep(w, 4, Some(5));
    UnaryStep(w, 3, Some(5));
    UnaryStep(w, 2, Some(5));
    UnaryStep(w, 1, Some(5));
    var post := [Tok(Space), Tok(Operator("+")), Tok(Space), Expr(Difference(C(3), C(2)))];
    assert w == [] + [SignTok(false)] + [] + [Expr(C(5))] + post;
    SignStep([], false, [], C(5), post, w, 1);
    assert [] + [Expr(Signed(false, C(5)))] + post == NegFivePlusGroupAfterUnary;
  }

  lemma NegFivePlusGroupSums()
    ensures Sums(NegFivePlusGroupAfterUnary) == Ok(NegFivePlusGroupAfterSums)
  {
    ChainOne(Link(true, true, true, Difference(C(3), C(2))));
    assert NegFivePlusGroupAfterUnary == [Expr(UnaryMinus(C(5)))] + ChainToks([Link(true, true, true, Difference(C(3), C(2)))]);
    SumsChain(UnaryMinus(C(5)), [Link(true, true, true, Difference(C(3), C(2)))]);
  }

  lemma NegFivePlusGroupFinal()
    ensures Final(TrimSpaces(NegFivePlusGroupAfterSums)) == Ok(NegFivePlusDifference)
  {
    assert TrimSpaces(NegFivePlusGroupAfterSums) == NegFivePlusGroupAfterSums;
  }

  lemma NegFivePlusGroupImpl()
    ensures Impl(NegFivePlusGroupList) == Ok(NegFivePlusDifference)
  {
    NegFivePlusGroupParens();
    NegFivePlusGroupWholeNumbers();
    NegFivePlusGroupUnary();
    NegFivePlusGroupSums();
    NegFivePlusGroupFinal();
    Passes(NegFivePlusGroupList, NegFivePlusGroupAfterParens, NegFivePlusGroupAfterNumbers, NegFivePlusGroupAfterUnary, NegFivePlusGroupAfterSums);
  }

  /** The list once the right group has been parsed. */
  const NestedGroupsRightParsed: seq<Parse> := [Tok(Operator("(")), Tok(WholeNumber("10")), Tok(Operator("+")), Tok(WholeNumber("2")), Tok(Operator(")")), Tok(Operator("-")), Expr(NegFivePlusDifference)]

  const NestedGroupsList: seq<Parse> := [Tok(Operator("(")), Tok(WholeNumber("10")), Tok(Operator("+")), Tok(WholeNumber("2")), Tok(Operator(")")), Tok(Operator("-")), Tok(Operator("(")), Tok(Operator("-")), Tok(WholeNumber("5")), Tok(Space), Tok(Operator("+")), Tok(Space), Tok(Operator("(")), Tok(WholeNumber("3")), Tok(Space), Tok(Operator("-")), Tok(Space), Tok(WholeNumber("2")), Tok(Operator(")")), Tok(Operator(")"))]

  const NestedGroupsAfterParens: seq<Parse> := [Expr(Sum(C(10), C(2))), Tok(Operator("-")), Expr(NegFivePlusDifference)]

  const NestedGroupsAfterSums: seq<Parse> := [Expr(Difference(Sum(C(10), C(2)), NegFivePlusDifference))]

  lemma NestedGroupsToks()
    ensures Toks(NestedGroups) == NestedGroupsList
  {

  }

  lemma NestedGroupsParens()
    ensures Parens(NestedGroupsList) == Ok(NestedGroupsAfterParens)
  {
    NestedGroupsRight();
    NestedGroupsLeft();
  }

  lemma NestedGroupsWholeNumbers()
    ensures WholeNumbers(NestedGroupsAfterParens) == Ok(NestedGroupsAfterParens)
  {
    WholeNumbersOf(NestedGroupsAfterParens, NestedGroupsAfterParens);
  }

  lemma NestedGroupsSignsBinary()
    ensures SignsBinary(NestedGroupsAfterParens)
  {
    var ts := NestedGroupsAfterParens;
    forall k | 0 <= k < |ts| && IsSign(ts[k]) ensures !Opens(Before(ts, k)) {
      assert k == 1;
    }
  }

  lemma NestedGroupsUnary()
    ensures Unary(NestedGroupsAfterParens) == Ok(NestedGroupsAfterParens)
  {
    NestedGroupsSignsBinary();
    UnaryNone(NestedGroupsAfterParens);
  }

  lemma NestedGroupsSums()
    ensures Sums(NestedGroupsAfterParens) == Ok(NestedGroupsAfterSums)
  {
    ChainOne(Link(false, false, false, NegFivePlusDifference));
    assert NestedGroupsAfterParens == [Expr(Sum(C(10), C(2)))] + ChainToks([Link(false, false, false, NegFivePlusDifference)]);
    SumsChain(Sum(C(10), C(2)), [Link(false, false, false, NegFivePlusDifference)]);
  }

  lemma NestedGroupsFinal()
    ensures Final(TrimSpaces(NestedGroupsAfterSums)) == Ok(Difference(Sum(C(10), C(2)), NegFivePlusDifference))
  {
    assert TrimSpaces(NestedGroupsAfterSums) == NestedGroupsAfterSums;
  }

  lemma NestedGroupsImpl()
    ensures Impl(NestedGroupsList) == Ok(Difference(Sum(C(10), C(2)), NegFivePlusDifference))
  {
    NestedGroupsParens();
    NestedGroupsWholeNumbers();
    NestedGroupsUnary();
    NestedGroupsSums();
    NestedGroupsFinal();
    Passes(NestedGroupsList, NestedGroupsAfterParens, NestedGroupsAfterParens, NestedGroupsAfterParens, NestedGroupsAfterSums);
  }

  /** "(10+2)-(-5 + (3 - 2))" is (10 + 2) - (-5 + (3 - 2)), which is 16. */
  lemma NestedGroupsParses()
    ensures ParseOf("(10+2)-(-5 + (3 - 2))") == Ok(Difference(Sum(C(10), C(2)), NegFivePlusDifference))
  {
    NestedGroupsTokenized();
    NestedGroupsToks();
    NestedGroupsImpl();
    ParsesVia("(10+2)-(-5 + (3 - 2))", NestedGroups, NestedGroupsList, Ok(Difference(Sum(C(10), C(2)), NegFivePlusDifference)));
  }

  lemma NestedGroupsValue()
    ensures Eval(Difference(Sum(C(10), C(2)), NegFivePlusDifference)) == Integer(16)
  {
  }

  /** The right group holds a group of its own: the scan counts it as nested and parses the whole inside recursively. */
  lemma NestedGroupsRight()
    ensures Parens(NestedGroupsList) == ParensFrom(NestedGroupsRightParsed, 6, None, 0)
  {
    var ts := NestedGroupsList;
    NestedGroupsRightShape();
    ParensCloses(ts, 19, 0);
    ParensNests(ts, 18, 19, 0);
    ParensSkipAll(ts, 18, 13, Some(19), 1);
    ParensUnnests(ts, 12, 19, 1);
    ParensSkipAll(ts, 12, 7, Some(19), 0);
    ParensGroup(ts, 6, 19, 0);
    NegFivePlusGroupTrimmed();
    NegFivePlusGroupImpl();
    NestedGroupsRightSpliced();
  }

  /** Where the parentheses of the right group, and of the group inside it, are. */
  lemma NestedGroupsRightShape()
    ensures |NestedGroupsList| == 20
    ensures IsOp(NestedGroupsList[19], ")") && IsOp(NestedGroupsList[18], ")")
    ensures IsOp(NestedGroupsList[12], "(") && IsOp(NestedGroupsList[6], "(")
    ensures forall m :: 13 <= m < 18 ==> !IsParen(NestedGroupsList[m])
    ensures forall m :: 7 <= m < 12 ==> !IsParen(NestedGroupsList[m])
    ensures NestedGroupsList[7..19] == NegFivePlusGroupList
  {
    forall m | 0 <= m < 12
      ensures NestedGroupsList[7..19][m] == NegFivePlusGroupList[m]
    {
      assert NestedGroupsList[7..19][m] == NestedGroupsList[m + 7];
    }
  }

  lemma NegFivePlusGroupTrimmed()
    ensures TrimSpaces(NegFivePlusGroupList) == NegFivePlusGroupList
  {
  }

  lemma NestedGroupsRightSpliced()
    ensures NestedGroupsList[..6] + [Expr(NegFivePlusDifference)] + NestedGroupsList[20..] == NestedGroupsRightParsed
  {
  }

  lemma NestedGroupsLeft()
    ensures ParensFrom(NestedGroupsRightParsed, 6, None, 0) == Ok(NestedGroupsAfterParens)
  {
    var ts := NestedGroupsRightParsed;
    NestedGroupsLeftShape();
    ParensSkips(ts, 6, None, 0);
    TenPlusTwoImpl();
    NestedGroupsLeftSpliced();
    ParensGroupFrom(ts, 0, 4, TenPlusTwoList, Sum(C(10), C(2)), NestedGroupsAfterParens);
  }

  /** Where the parentheses of the left group are. */
  lemma NestedGroupsLeftShape()
    ensures |NestedGroupsRightParsed| == 7
    ensures IsOp(NestedGroupsRightParsed[0], "(") && IsOp(NestedGroupsRightParsed[4], ")")
    ensures forall m :: 0 < m < 4 ==> !IsParen(NestedGroupsRightParsed[m])
    ensures forall m :: 4 < m < 7 ==> !IsParen(NestedGroupsRightParsed[m])
    ensures TrimSpaces(NestedGroupsRightParsed[1..4]) == TenPlusTwoList
  {
  }

  lemma NestedGroupsLeftSpliced()
    ensures NestedGroupsRightParsed[..0] + [Expr(Sum(C(10), C(2)))] + NestedGroupsRightParsed[5..] == NestedGroupsAfterParens
  {
  }

  /** The list once the right group has been parsed. */
  const AdjacentGroupsRightParsed: seq<Parse> := [Tok(Operator("(")), Tok(WholeNumber("1")), Tok(Operator(")")), Expr(C(1))]

  const AdjacentGroupsList: seq<Parse> := [Tok(Operator("(")), Tok(WholeNumber("1")), Tok(Operator(")")), Tok(Operator("(")), Tok(WholeNumber("1")), Tok(Operator(")"))]

  const AdjacentGroupsAfterParens: seq<Parse> := [Expr(C(1)), Expr(C(1))]

  lemma AdjacentGroupsToks()
    ensures Toks(AdjacentGroups) == AdjacentGroupsList
  {

  }

  lemma AdjacentGroupsParens()
    ensures Parens(AdjacentGroupsList) == Ok(AdjacentGroupsAfterParens)
  {
    AdjacentGroupsRight();
    AdjacentGroupsLeft();
  }

  lemma AdjacentGroupsWholeNumbers()
    ensures WholeNumbers(AdjacentGroupsAfterParens) == Ok(AdjacentGroupsAfterParens)
  {
    WholeNumbersOf(AdjacentGroupsAfterParens, AdjacentGroupsAfterParens);
  }

  lemma AdjacentGroupsSignsBinary()
    ensures SignsBinary(AdjacentGroupsAfterParens)
  {
  }

  lemma AdjacentGroupsUnary()
    ensures Unary(AdjacentGroupsAfterParens) == Ok(AdjacentGroupsAfterParens)
  {
    AdjacentGroupsSignsBinary();
    UnaryNone(AdjacentGroupsAfterParens);
  }

  lemma AdjacentGroupsSums()
    ensures Sums(AdjacentGroupsAfterParens) == Ok(AdjacentGroupsAfterParens)
  {
    SumsStep(AdjacentGroupsAfterParens, 0, None, false);
    SumsStep(AdjacentGroupsAfterParens, 1, Some(0), false);
  }

  /** No pass joins two expressions side by side, and no token is left to report. */
  lemma AdjacentGroupsFinal()
    ensures Final(TrimSpaces(AdjacentGroupsAfterParens)) == Err(Unreachable)
  {
    assert TrimSpaces(AdjacentGroupsAfterParens) == AdjacentGroupsAfterParens;
    FinalOnlyExprs(AdjacentGroupsAfterParens);
  }

  lemma AdjacentGroupsImpl()
    ensures Impl(AdjacentGroupsList) == Err(Unreachable)
  {
    AdjacentGroupsParens();
    AdjacentGroupsWholeNumbers();
    AdjacentGroupsUnary();
    AdjacentGroupsSums();
    AdjacentGroupsFinal();
    Passes(AdjacentGroupsList, AdjacentGroupsAfterParens, AdjacentGroupsAfterParens, AdjacentGroupsAfterParens, AdjacentGroupsAfterParens);
  }

  /** "(1)(1)" reaches the end of get_result: two expressions and no token between them. */
  lemma AdjacentGroupsParses()
    ensures ParseOf("(1)(1)") == Err(Unreachable)
  {
    AdjacentGroupsTokenized();
    AdjacentGroupsToks();
    AdjacentGroupsImpl();
    ParsesVia("(1)(1)", AdjacentGroups, AdjacentGroupsList, Err(Unreachable));
  }

  /** Where the group of AdjacentGroupsRight is, and what is inside it. */
  lemma AdjacentGroupsRightShape()
    ensures |AdjacentGroupsList| == 6
    ensures IsOp(AdjacentGroupsList[3], "(") && IsOp(AdjacentGroupsList[5], ")")
    ensures forall m :: 3 < m < 5 ==> !IsParen(AdjacentGroupsList[m])
    ensures TrimSpaces(AdjacentGroupsList[4..5]) == OneAloneList
  {
  }

  lemma AdjacentGroupsRightSpliced()
    ensures AdjacentGroupsList[..3] + [Expr(C(1))] + AdjacentGroupsList[6..] == AdjacentGroupsRightParsed
    ensures 3 < |AdjacentGroupsRightParsed| && !IsParen(AdjacentGroupsRightParsed[3])
  {
  }

  /** Each group becomes its expression, the right one first. */
  lemma AdjacentGroupsRight()
    ensures Parens(AdjacentGroupsList) == ParensFrom(AdjacentGroupsRightParsed, 4, None, 0)
  {
    AdjacentGroupsRightShape();
    OneAloneImpl();
    AdjacentGroupsRightSpliced();
    ParensGroupFrom(AdjacentGroupsList, 3, 5, OneAloneList, C(1), AdjacentGroupsRightParsed);
    ParensSkips(AdjacentGroupsRightParsed, 3, None, 0);
  }

  /** Where the group of AdjacentGroupsLeft is, and what is inside it. */
  lemma AdjacentGroupsLeftShape()
    ensures |AdjacentGroupsRightParsed| == 4
    ensures IsOp(AdjacentGroupsRightParsed[0], "(") && IsOp(AdjacentGroupsRightParsed[2], ")")
    ensures forall m :: 0 < m < 2 ==> !IsParen(AdjacentGroupsRightParsed[m])
    ensures forall m :: 2 < m < 4 ==> !IsParen(AdjacentGroupsRightParsed[m])
    ensures TrimSpaces(AdjacentGroupsRightParsed[1..2]) == OneAloneList
  {
  }

  lemma AdjacentGroupsLeftSpliced()
    ensures AdjacentGroupsRightParsed[..0] + [Expr(C(1))] + AdjacentGroupsRightParsed[3..] == AdjacentGroupsAfterParens
  {
  }

  lemma AdjacentGroupsLeft()
    ensures ParensFrom(AdjacentGroupsRightParsed, 4, None, 0) == Ok(AdjacentGroupsAfterParens)
  {
    AdjacentGroupsLeftShape();
    OneAloneImpl();
    AdjacentGroupsLeftSpliced();
    ParensGroupFrom(AdjacentGroupsRightParsed, 0, 2, OneAloneList, C(1), AdjacentGroupsAfterParens);
  }


  // ---------------------------------------------------------------------------
  // Errors in the parentheses
  const EmptyParensList: seq<Parse> := [Tok(Operator("(")), Tok(Operator(")"))]

  lemma EmptyParensToks()
    ensures Toks(EmptyParens) == EmptyParensList
  {

  }

  lemma EmptyParensParens()
    ensures Parens(EmptyParensList) == Err(SyntaxError("empty parentheses"))
  {
    var ts := EmptyParensList;
    NoParensOf(ts[1..1]);
    assert ts[1 + 1..] == [];
    EmptyGroup(ts, 0, 1);
  }

  lemma EmptyParensImpl()
    ensures Impl(EmptyParensList) == Err(SyntaxError("empty parentheses"))
  {
    EmptyParensParens();
  }

  /** "()" is a syntax error: the group holds nothing but Spaces. */
  lemma EmptyParensParses()
    ensures ParseOf("()") == Err(SyntaxError("empty parentheses"))
  {
    EmptyParensTokenized();
    EmptyParensToks();
    EmptyParensImpl();
    ParsesVia("()", EmptyParens, EmptyParensList, Err(SyntaxError("empty parentheses")));
  }

  const SpacedEmptyParensList: seq<Parse> := [Tok(Operator("(")), Tok(Space), Tok(Operator(")"))]

  lemma SpacedEmptyParensToks()
    ensures Toks(SpacedEmptyParens) == SpacedEmptyParensList
  {

  }

  lemma SpacedEmptyParensParens()
    ensures Parens(SpacedEmptyParensList) == Err(SyntaxError("empty parentheses"))
  {
    var ts := SpacedEmptyParensList;
    NoParensOf(ts[1..2]);
    assert ts[2 + 1..] == [];
    EmptyGroup(ts, 0, 2);
  }

  lemma SpacedEmptyParensImpl()
    ensures Impl(SpacedEmptyParensList) == Err(SyntaxError("empty parentheses"))
  {
    SpacedEmptyParensParens();
  }

  /** "( )" is a syntax error: the group holds nothing but Spaces. */
  lemma SpacedEmptyParensParses()
    ensures ParseOf("( )") == Err(SyntaxError("empty parentheses"))
  {
    SpacedEmptyParensTokenized();
    SpacedEmptyParensToks();
    SpacedEmptyParensImpl();
    ParsesVia("( )", SpacedEmptyParens, SpacedEmptyParensList, Err(SyntaxError("empty parentheses")));
  }

  const CloseThenOpenList: seq<Parse> := [Tok(Operator(")")), Tok(Operator("("))]

  lemma CloseThenOpenToks()
    ensures Toks(CloseThenOpen) == CloseThenOpenList
  {

  }

  lemma CloseThenOpenParens()
    ensures Parens(CloseThenOpenList) == Err(SyntaxError("unmatched \"(\""))
  {
    var ts := CloseThenOpenList;
    NoParensOf(ts[1 + 1..]);
    UnmatchedOpen(ts, 1);
  }

  lemma CloseThenOpenImpl()
    ensures Impl(CloseThenOpenList) == Err(SyntaxError("unmatched \"(\""))
  {
    CloseThenOpenParens();
  }

  /** ")(" is a syntax error: the rightmost parenthesis is an opening one. */
  lemma CloseThenOpenParses()
    ensures ParseOf(")(") == Err(SyntaxError("unmatched \"(\""))
  {
    CloseThenOpenTokenized();
    CloseThenOpenToks();
    CloseThenOpenImpl();
    ParsesVia(")(", CloseThenOpen, CloseThenOpenList, Err(SyntaxError("unmatched \"(\"")));
  }

  const OpenOneList: seq<Parse> := [Tok(Operator("(")), Tok(WholeNumber("1"))]

  lemma OpenOneToks()
    ensures Toks(OpenOne) == OpenOneList
  {

  }

  lemma OpenOneParens()
    ensures Parens(OpenOneList) == Err(SyntaxError("unmatched \"(\""))
  {
    var ts := OpenOneList;
    NoParensOf(ts[0 + 1..]);
    UnmatchedOpen(ts, 0);
  }

  lemma OpenOneImpl()
    ensures Impl(OpenOneList) == Err(SyntaxError("unmatched \"(\""))
  {
    OpenOneParens();
  }

  /** "(1" is a syntax error: the rightmost parenthesis is an opening one. */
  lemma OpenOneParses()
    ensures ParseOf("(1") == Err(SyntaxError("unmatched \"(\""))
  {
    OpenOneTokenized();
    OpenOneToks();
    OpenOneImpl();
    ParsesVia("(1", OpenOne, OpenOneList, Err(SyntaxError("unmatched \"(\"")));
  }

  const OneCloseList: seq<Parse> := [Tok(WholeNumber("1")), Tok(Operator(")"))]

  lemma OneCloseToks()
    ensures Toks(OneClose) == OneCloseList
  {

  }

  lemma OneCloseParens()
    ensures Parens(OneCloseList) == Err(SyntaxError("unmatched \")\""))
  {
    var ts := OneCloseList;
    assert ts[..1] == [Tok(WholeNumber("1"))];
    assert Closes(ts) == 1;
    UnmatchedClose(ts);
  }

  lemma OneCloseImpl()
    ensures Impl(OneCloseList) == Err(SyntaxError("unmatched \")\""))
  {
    OneCloseParens();
  }

  /** "1)" is a syntax error: the ")" closes no group. */
  lemma OneCloseParses()
    ensures ParseOf("1)") == Err(SyntaxError("unmatched \")\""))
  {
    OneCloseTokenized();
    OneCloseToks();
    OneCloseImpl();
    ParsesVia("1)", OneClose, OneCloseList, Err(SyntaxError("unmatched \")\"")));
  }


  // ---------------------------------------------------------------------------
  // A lone token
  const LoneXList: seq<Parse> := [Tok(Identifier("x"))]

  lemma LoneXToks()
    ensures Toks(LoneX) == LoneXList
  {

  }

  lemma LoneXParens()
    ensures Parens(LoneXList) == Ok(LoneXList)
  {
    ParensNone(LoneXList);
  }

  lemma LoneXWholeNumbers()
    ensures WholeNumbers(LoneXList) == Ok(LoneXList)
  {
    WholeNumbersOf(LoneXList, LoneXList);
  }

  lemma LoneXSignsBinary()
    ensures SignsBinary(LoneXList)
  {
  }

  lemma LoneXUnary()
    ensures Unary(LoneXList) == Ok(LoneXList)
  {
    LoneXSignsBinary();
    UnaryNone(LoneXList);
  }

  lemma LoneXSums()
    ensures Sums(LoneXList) == Ok(LoneXList)
  {
    SumsStep(LoneXList, 0, None, false);
  }

  /** "x" is the only element left.  get_result as written pops it before looking at it, so it reports Unreachable; read in place, the token is quoted like any other run. */
  lemma LoneXFinal()
    ensures Final(TrimSpaces(LoneXList)) == Err(SyntaxError("invalid syntax \"x\""))
    ensures FinalAsWritten(TrimSpaces(LoneXList)) == Err(Unreachable)
  {
    assert TrimSpaces(LoneXList) == [Tok(Identifier("x"))];
    assert ScanFrom([], 0, None) == ScanFrom([], 1, None);
    assert RunText(LoneXList, 0) == "x";
    FinalQuotes(LoneXList, 0, "x", "invalid syntax \"x\"");
  }

  lemma LoneXImpl()
    ensures Impl(LoneXList) == Err(SyntaxError("invalid syntax \"x\""))
  {
    LoneXParens();
    LoneXWholeNumbers();
    LoneXUnary();
    LoneXSums();
    LoneXFinal();
    Passes(LoneXList, LoneXList, LoneXList, LoneXList, LoneXList);
  }

  /** "x" is a syntax error that quotes it. */
  lemma LoneXParses()
    ensures ParseOf("x") == Err(SyntaxError("invalid syntax \"x\""))
  {
    LoneXTokenized();
    LoneXToks();
    LoneXImpl();
    ParsesVia("x", LoneX, LoneXList, Err(SyntaxError("invalid syntax \"x\"")));
  }

}
