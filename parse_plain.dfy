/**
 * The parser end to end on input without numerals or parentheses: every
 * rewriting pass leaves such a list alone, so `get_result` sees the tokens
 * themselves.
 */
module ParsePlain {
  import opened Wrappers
  import opened Ascii
  import opened Errors
  import opened Tokenizer
  import opened ParseSpec
  import opened ParseProps
  import TokenizerProps

  /** No numeral and no parenthesis among the tokens. */
  predicate Plain(ts: seq<Token>) {
    forall k :: 0 <= k < |ts| ==> !ts[k].WholeNumber? && ts[k] != Operator("(") && ts[k] != Operator(")")
  }

  /** The wrapped tokens hold no Temp, and their run from k spells the tokens from k. */
  lemma {:induction false} ToksRunText(ts: seq<Token>, k: nat)
    requires k <= |ts|
    ensures NoTemp(Toks(ts))
    ensures RunText(Toks(ts), k) == TokenizerProps.Text(ts[k..])
    decreases |ts| - k
  {
    if k < |ts| {
      ToksRunText(ts, k + 1);
      assert ts[k..][0] == ts[k] && ts[k..][1..] == ts[k + 1..];
    } else {
      assert ts[k..] == [];
    }
  }

  /** Wrapping commutes with slicing. */
  lemma ToksSlice(ts: seq<Token>, a: nat, b: nat)
    requires a <= b <= |ts|
    ensures Toks(ts)[a..b] == Toks(ts[a..b])
  {
    assert forall k :: 0 <= k < b - a ==> Toks(ts)[a..b][k] == Toks(ts[a..b])[k];
  }

  lemma {:induction false} NoCloses(s: seq<Parse>)
    requires forall k :: 0 <= k < |s| ==> !IsOp(s[k], ")")
    ensures Closes(s) == 0
    decreases |s|
  {
    if s != [] {
      NoCloses(s[..|s| - 1]);
    }
  }

  /** Without an expression before i, the unary scan from i changes nothing. */
  lemma {:induction false} UnaryNoExpr(ts: seq<Parse>, i: nat)
    requires i <= |ts| && forall k :: 0 <= k < i ==> !ts[k].Expr?
    ensures UnaryFrom(ts, i, None) == Ok(ts)
    decreases i
  {
    if i > 0 {
      UnaryStep(ts, i - 1, None);
      UnaryNoExpr(ts, i - 1);
    }
  }

  /** Without an expression from i on, the sums scan from i changes nothing. */
  lemma {:induction false} SumsNoExpr(ts: seq<Parse>, i: nat)
    requires i <= |ts| && forall k :: i <= k < |ts| ==> !ts[k].Expr?
    ensures SumsFrom(ts, i, None, false) == Ok(ts)
    decreases |ts| - i
  {
    if i < |ts| {
      SumsStep(ts, i, None, false);
      SumsNoExpr(ts, i + 1);
    }
  }

  /** On tokens without numerals or parentheses every rewriting pass is the identity. */
  lemma PlainPasses(ts: seq<Token>)
    requires Plain(ts)
    ensures Parens(Toks(ts)) == Ok(Toks(ts))
    ensures WholeNumbers(Toks(ts)) == Ok(Toks(ts))
    ensures Unary(Toks(ts)) == Ok(Toks(ts))
    ensures Sums(Toks(ts)) == Ok(Toks(ts))
  {
    var p := Toks(ts);
    NoCloses(p);
    UnmatchedClose(p);
    var w := WholeNumbers(p);
    assert w.Ok? by {
      forall k | 0 <= k < |p| ensures !Overflows(p[k]) {
        assert p[k] == Tok(ts[k]);
      }
    }
    assert w.value == p;
    UnaryNoExpr(p, |p|);
    SumsNoExpr(p, 0);
  }

  /** The tokens trim_spaces keeps: one trailing, then one leading Space dropped. */
  function TrimTokens(ts: seq<Token>): seq<Token> {
    DropFrontSpace(DropBackSpace(ts))
  }

  function DropBackSpace(ts: seq<Token>): seq<Token> {
    if |ts| > 0 && ts[|ts| - 1].Space? then ts[..|ts| - 1] else ts
  }

  function DropFrontSpace(ts: seq<Token>): seq<Token> {
    if |ts| > 0 && ts[0].Space? then ts[1..] else ts
  }

  lemma ToksTrim(ts: seq<Token>)
    ensures TrimSpaces(Toks(ts)) == Toks(TrimTokens(ts))
  {
    var a := DropBackSpace(ts);
    ToksSlice(ts, 0, |a|);
    assert ts[0..|a|] == a;
    if |a| > 0 && a[0].Space? {
      ToksSlice(a, 1, |a|);
      assert a[1..|a|] == a[1..];
    }
  }

  lemma TextTrim(ts: seq<Token>)
    ensures Trim(TokenizerProps.Text(ts)) == Trim(TokenizerProps.Text(TrimTokens(ts)))
  {
    TextDropBack(ts);
    TextDropFront(DropBackSpace(ts));
  }

  lemma TextDropBack(ts: seq<Token>)
    ensures Trim(TokenizerProps.Text(ts)) == Trim(TokenizerProps.Text(DropBackSpace(ts)))
  {
    var a := DropBackSpace(ts);
    if a != ts {
      assert ts == a + [Space];
      TextSpaceBack(a);
      TrimBlankBack(TokenizerProps.Text(a));
    }
  }

  lemma TextSpaceBack(a: seq<Token>)
    ensures TokenizerProps.Text(a + [Space]) == TokenizerProps.Text(a) + [' ']
  {
    TokenizerProps.TextAppend(a, [Space]);
    TokenizerProps.TextSingle(Space);
  }

  lemma TextDropFront(a: seq<Token>)
    ensures Trim(TokenizerProps.Text(a)) == Trim(TokenizerProps.Text(DropFrontSpace(a)))
  {
    if DropFrontSpace(a) != a {
      TokenizerProps.TextFront(a);
      assert ToStr(a[0]) == [' '];
      TrimBlankFront(TokenizerProps.Text(a[1..]));
    }
  }

  /** Of a well-formed list, only the empty list and a lone Space trim to nothing. */
  lemma TrimTokensEmpty(ts: seq<Token>)
    requires TokenizerProps.WellFormed(ts)
    ensures TrimTokens(ts) == [] <==> ts == [] || ts == [Space]
  {
    if |ts| == 2 {
      assert !TokenizerProps.Merges(ts[0], ts[1]);
    }
  }

  /** The passes leave plain tokens alone, so get_result sees them with the spaces trimmed. */
  lemma PlainFinal(ts: seq<Token>)
    requires Plain(ts)
    ensures Impl(Toks(ts)) == Final(Toks(TrimTokens(ts)))
  {
    PlainPasses(ts);
    ToksTrim(ts);
  }

  /**
   * parse_impl on tokens without numerals or parentheses: nothing is rewritten,
   * so get_result either finds nothing (a blank line reaches unreachable!) or
   * reports the whole trimmed text as invalid syntax.
   */
  lemma {:induction false} PlainImpl(ts: seq<Token>)
    requires Plain(ts) && TokenizerProps.WellFormed(ts)
    ensures ts == [] || ts == [Space] ==> Impl(Toks(ts)) == Err(Unreachable)
    ensures !(ts == [] || ts == [Space]) ==>
      Impl(Toks(ts)) == Err(SyntaxError(InvalidSyntax + Trim(TokenizerProps.Text(ts)) + "\""))
  {
    PlainFinal(ts);
    TrimTokensEmpty(ts);
    if ts == [] || ts == [Space] {
      FinalOnlyExprs(Toks(TrimTokens(ts)));
    } else {
      TextTrim(ts);
      FinalToks(TrimTokens(ts));
    }
  }

  /** get_result on a nonempty list of bare tokens quotes their trimmed text. */
  lemma FinalToks(u: seq<Token>)
    requires u != []
    ensures Final(Toks(u)) == Err(SyntaxError(InvalidSyntax + Trim(TokenizerProps.Text(u)) + "\""))
  {
    ToksRunText(u, 0);
    assert u[0..] == u;
    FinalReports(Toks(u), 0);
  }

  /**
   * parse on input whose tokens hold no numeral and no parenthesis: a blank line
   * reaches unreachable!, anything else is invalid syntax quoting the input with
   * its whitespace runs collapsed and its ends trimmed.
   */
  lemma ParsePlain(s: string)
    requires TokenizeSpec(s).Ok? && Plain(TokenizeSpec(s).value)
    ensures var ts := TokenizeSpec(s).value;
      ParseOf(s) == if ts == [] || ts == [Space] then Err(Unreachable)
                    else Err(SyntaxError(InvalidSyntax + Trim(TokenizerProps.Collapse(s)) + "\""))
  {
    TokenizerProps.TokenizeSound(s);
    PlainImpl(TokenizeSpec(s).value);
  }

  /** A line holding one blank gets past the empty-line test of the read loop and reaches unreachable!. */
  lemma BlankLine()
    ensures ParseOf(" ") == Err(Unreachable)
  {
    TokenizerProps.TextSingle(Space);
    TokenizerProps.TokenizeText([Space]);
    PlainImpl([Space]);
  }
}
