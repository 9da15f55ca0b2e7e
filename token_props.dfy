/**
 * What tokenize guarantees.  A token list is well formed when every token's
 * text is of its kind and no two neighbours are ones the tokenizer would have
 * merged; its text is the concatenation of the tokens' texts.  For input
 * without unknown characters the tokenizer returns the one well-formed list
 * whose text is the input with every whitespace run collapsed to one blank.
 */
module TokenizerProps {
  import opened Wrappers
  import opened Ascii
  import opened Errors
  import opened Tokenizer

  predicate AllAlphanumeric(s: string) {
    forall j :: 0 <= j < |s| ==> IsAlphanumeric(s[j])
  }

  predicate AllDigits(s: string) {
    forall j :: 0 <= j < |s| ==> IsDigit(s[j])
  }

  /** An identifier is a letter then letters and digits; a number is digits; an operator is one punctuation character. */
  predicate ValidToken(t: Token) {
    match t
    case Identifier(s) => |s| >= 1 && IsAlphabetic(s[0]) && AllAlphanumeric(s)
    case WholeNumber(s) => |s| >= 1 && AllDigits(s)
    case Operator(s) => |s| == 1 && IsPunctuation(s[0])
    case Space => true
  }

  /** Neighbours that the tokenizer would have made into one token. */
  predicate Merges(a: Token, b: Token) {
    || (a.Space? && b.Space?)
    || (a.Identifier? && (b.Identifier? || b.WholeNumber?))
    || (a.WholeNumber? && b.WholeNumber?)
  }

  predicate WellFormed(ts: seq<Token>) {
    && (forall j :: 0 <= j < |ts| ==> ValidToken(ts[j]))
    && (forall j :: 0 < j < |ts| ==> !Merges(ts[j - 1], ts[j]))
  }

  /** The tokens' texts, one after the other. */
  function Text(ts: seq<Token>): string
    decreases |ts|
  {
    if ts == [] then "" else ToStr(ts[0]) + Text(ts[1..])
  }

  /** s with each whitespace run replaced by one blank; a run right after a blank (when `blank`) disappears. */
  function CollapseAfter(blank: bool, s: string): string
    decreases |s|
  {
    if s == [] then ""
    else if IsWhitespace(s[0]) then (if blank then "" else " ") + CollapseAfter(true, s[1..])
    else [s[0]] + CollapseAfter(false, s[1..])
  }

  function Collapse(s: string): string {
    CollapseAfter(false, s)
  }

  predicate EndsInSpace(ts: seq<Token>) {
    ts != [] && ts[|ts| - 1].Space?
  }

  predicate NoUnknown(s: string) {
    forall j :: 0 <= j < |s| ==> !Classify(s[j]).Unknown?
  }

  // ---------------------------------------------------------------------------
  // Text

  lemma {:induction false} TextAppend(a: seq<Token>, b: seq<Token>)
    ensures Text(a + b) == Text(a) + Text(b)
    decreases |a|
  {
    if a != [] {
      assert (a + b)[1..] == a[1..] + b;
      TextAppend(a[1..], b);
    } else {
      assert a + b == b;
    }
  }

  lemma Assoc(a: string, b: string, c: string)
    ensures (a + b) + c == a + (b + c)
  {
  }

  lemma TextSingle(t: Token)
    ensures Text([t]) == ToStr(t)
  {
    assert [t][1..] == [];
  }

  lemma SplitLast(s: seq<Token>)
    requires s != []
    ensures s == s[..|s| - 1] + [s[|s| - 1]]
  {
  }

  /** A token with c appended to its text spells its old text then c. */
  lemma ToStrExtended(last: Token, c: char)
    requires !last.Space?
    ensures ToStr(last.(text := last.text + [c])) == ToStr(last) + [c]
  {
  }

  /** Extending the last token appends one character to the text. */
  lemma ExtendText(tokens: seq<Token>, c: char)
    requires tokens != [] && !tokens[|tokens| - 1].Space?
    ensures Text(Extend(tokens, c)) == Text(tokens) + [c]
  {
    var n := |tokens|;
    var pre := tokens[..n - 1];
    var last := tokens[n - 1];
    var t := last.(text := last.text + [c]);
    assert Text(Extend(tokens, c)) == Text(pre) + ToStr(t) by {
      assert Extend(tokens, c) == pre + [t];
      TextAppend(pre, [t]);
      TextSingle(t);
    }
    assert Text(tokens) == Text(pre) + ToStr(last) by {
      SplitLast(tokens);
      TextAppend(pre, [last]);
      TextSingle(last);
    }
    assert Text(pre) + ToStr(t) == Text(pre) + ToStr(last) + [c] by {
      ToStrExtended(last, c);
      Assoc(Text(pre), ToStr(last), [c]);
    }
  }

  // ---------------------------------------------------------------------------
  // One step of the fold

  /** Each known character adds its collapsed text and decides whether the list now ends in a Space. */
  lemma AbsorbText(acc: seq<Token>, c: char)
    requires !Classify(c).Unknown?
    ensures Absorb(acc, Classify(c)).Ok?
    ensures var next := Absorb(acc, Classify(c)).value;
      Text(next) == Text(acc) + CollapseAfter(EndsInSpace(acc), [c])
      && EndsInSpace(next) == IsWhitespace(c)
  {
    CollapseOne(EndsInSpace(acc), c);
    match Classify(c)
    case Blank =>
      if !EndsInSpace(acc) {
        PushText(acc, Space);
      }
    case Letter(_) =>
      if acc != [] && acc[|acc| - 1].Identifier? {
        ExtendText(acc, c);
      } else {
        PushText(acc, Identifier([c]));
      }
    case Digit(_) =>
      if acc != [] && (acc[|acc| - 1].Identifier? || acc[|acc| - 1].WholeNumber?) {
        ExtendText(acc, c);
      } else {
        PushText(acc, WholeNumber([c]));
      }
    case Symbol(_) =>
      PushText(acc, Operator([c]));
  }

  lemma PushText(acc: seq<Token>, t: Token)
    ensures Text(acc + [t]) == Text(acc) + ToStr(t)
  {
    TextAppend(acc, [t]);
    TextSingle(t);
  }

  /** One character collapses to a blank, to nothing after a blank, or to itself. */
  lemma CollapseOne(blank: bool, c: char)
    ensures CollapseAfter(blank, [c]) == if IsWhitespace(c) then (if blank then "" else " ") else [c]
  {
    assert [c][1..] == [];
  }

  lemma PushWellFormed(acc: seq<Token>, t: Token)
    requires WellFormed(acc) && ValidToken(t)
    requires acc != [] ==> !Merges(acc[|acc| - 1], t)
    ensures WellFormed(acc + [t])
  {
    var r := acc + [t];
    forall j | 0 < j < |r|
      ensures !Merges(r[j - 1], r[j])
    {
      if j < |acc| {
        assert r[j - 1] == acc[j - 1] && r[j] == acc[j];
      }
    }
  }

  lemma ExtendWellFormed(acc: seq<Token>, c: char)
    requires WellFormed(acc) && acc != []
    requires acc[|acc| - 1].Identifier? || acc[|acc| - 1].WholeNumber?
    requires IsAlphanumeric(c)
    requires acc[|acc| - 1].WholeNumber? ==> IsDigit(c)
    ensures WellFormed(Extend(acc, c))
  {
    var n := |acc|;
    var last := acc[n - 1];
    var t := last.(text := last.text + [c]);
    assert ValidToken(t) by {
      assert t.text[0] == last.text[0];
      forall j | 0 <= j < |t.text|
        ensures IsAlphanumeric(t.text[j])
      {
        if j < |last.text| {
          assert t.text[j] == last.text[j];
        }
      }
      if last.WholeNumber? {
        forall j | 0 <= j < |t.text|
          ensures IsDigit(t.text[j])
        {
          if j < |last.text| {
            assert t.text[j] == last.text[j];
          }
        }
      }
    }
    var r := Extend(acc, c);
    assert r == acc[..n - 1] + [t];
    forall j | 0 <= j < |r|
      ensures ValidToken(r[j])
    {
      if j < n - 1 {
        assert r[j] == acc[j];
      }
    }
    forall j | 0 < j < |r|
      ensures !Merges(r[j - 1], r[j])
    {
      assert r[j - 1] == acc[j - 1];
      if j < n - 1 {
        assert r[j] == acc[j];
      } else {
        assert !Merges(acc[j - 1], acc[j]);
      }
    }
  }

  /** Each step keeps the list well formed. */
  lemma AbsorbWellFormed(acc: seq<Token>, c: char)
    requires WellFormed(acc) && !Classify(c).Unknown?
    ensures Absorb(acc, Classify(c)).Ok? && WellFormed(Absorb(acc, Classify(c)).value)
  {
    match Classify(c)
    case Blank =>
      if !EndsInSpace(acc) {
        PushWellFormed(acc, Space);
      }
    case Letter(_) =>
      if acc != [] && acc[|acc| - 1].Identifier? {
        ExtendWellFormed(acc, c);
      } else {
        PushWellFormed(acc, Identifier([c]));
      }
    case Digit(_) =>
      if acc != [] && (acc[|acc| - 1].Identifier? || acc[|acc| - 1].WholeNumber?) {
        ExtendWellFormed(acc, c);
      } else {
        PushWellFormed(acc, WholeNumber([c]));
      }
    case Symbol(_) =>
      PushWellFormed(acc, Operator([c]));
  }

  // ---------------------------------------------------------------------------
  // The whole fold

  lemma {:induction false} FoldOkIff(acc: seq<Token>, s: string)
    ensures Fold(acc, s).Ok? <==> NoUnknown(s)
    decreases |s|
  {
    if s != [] {
      assert forall j :: 1 <= j < |s| ==> s[j] == s[1..][j - 1];
      if !Classify(s[0]).Unknown? {
        AbsorbText(acc, s[0]);
        FoldOkIff(Absorb(acc, Classify(s[0])).value, s[1..]);
      }
    }
  }

  /** The error is the first unknown character. */
  lemma {:induction false} FoldFirstUnknown(acc: seq<Token>, s: string, j: nat)
    requires j < |s| && Classify(s[j]).Unknown?
    requires forall k :: 0 <= k < j ==> !Classify(s[k]).Unknown?
    ensures Fold(acc, s) == Err(TokenizeError(s[j]))
    decreases j
  {
    if j > 0 {
      AbsorbText(acc, s[0]);
      FoldFirstUnknown(Absorb(acc, Classify(s[0])).value, s[1..], j - 1);
    }
  }

  lemma CollapseFront(blank: bool, s: string)
    requires s != []
    ensures CollapseAfter(blank, s) == CollapseAfter(blank, [s[0]]) + CollapseAfter(IsWhitespace(s[0]), s[1..])
  {
    assert [s[0]][1..] == [];
  }

  lemma {:induction false} FoldText(acc: seq<Token>, s: string)
    requires Fold(acc, s).Ok?
    ensures Text(Fold(acc, s).value) == Text(acc) + CollapseAfter(EndsInSpace(acc), s)
    decreases |s|
  {
    if s == [] {
      assert Text(acc) + "" == Text(acc);
    } else {
      var step := Absorb(acc, Classify(s[0]));
      assert step.Ok?;
      var next := step.value;
      assert Fold(acc, s) == Fold(next, s[1..]);
      AbsorbText(acc, s[0]);
      FoldText(next, s[1..]);
      CollapseFront(EndsInSpace(acc), s);
      var rest := CollapseAfter(IsWhitespace(s[0]), s[1..]);
      Assoc(Text(acc), CollapseAfter(EndsInSpace(acc), [s[0]]), rest);
    }
  }

  lemma {:induction false} FoldWellFormed(acc: seq<Token>, s: string)
    requires WellFormed(acc) && Fold(acc, s).Ok?
    ensures WellFormed(Fold(acc, s).value)
    decreases |s|
  {
    if s != [] {
      FoldOkIff(acc, s);
      AbsorbWellFormed(acc, s[0]);
      FoldWellFormed(Absorb(acc, Classify(s[0])).value, s[1..]);
    }
  }

  // ---------------------------------------------------------------------------
  // Uniqueness: a well-formed list is determined by its text

  lemma TextFront(ts: seq<Token>)
    requires ts != []
    ensures Text(ts) == ToStr(ts[0]) + Text(ts[1..])
  {
  }

  /** The first character of a nonempty text is the first character of the first token. */
  lemma TextFirstChar(ts: seq<Token>)
    requires WellFormed(ts) && ts != []
    ensures |Text(ts)| > 0 && Text(ts)[0] == ToStr(ts[0])[0]
  {
    assert ValidToken(ts[0]);
  }

  lemma TailWellFormed(ts: seq<Token>)
    requires WellFormed(ts) && ts != []
    ensures WellFormed(ts[1..])
  {
    var r := ts[1..];
    assert forall j :: 0 <= j < |r| ==> r[j] == ts[j + 1];
    forall j | 0 < j < |r|
      ensures !Merges(r[j - 1], r[j])
    {
      assert !Merges(ts[j], ts[j + 1]);
    }
  }

  /** After an identifier or number, the text goes on with a character that could not extend it. */
  lemma NextCharStops(ts: seq<Token>)
    requires WellFormed(ts) && |ts| >= 2 && (ts[0].Identifier? || ts[0].WholeNumber?)
    ensures var x := Text(ts); var n := |ToStr(ts[0])|;
      n < |x| && (if ts[0].Identifier? then !IsAlphanumeric(x[n]) else !IsDigit(x[n]))
  {
    TailWellFormed(ts);
    TextFirstChar(ts[1..]);
    assert !Merges(ts[0], ts[1]);
    assert ValidToken(ts[1]);
  }

  lemma FirstTokenDetermined(a: seq<Token>, b: seq<Token>)
    requires WellFormed(a) && WellFormed(b) && a != [] && b != [] && Text(a) == Text(b)
    ensures a[0] == b[0]
  {
    var x := Text(a);
    TextFirstChar(a);
    TextFirstChar(b);
    assert ValidToken(a[0]) && ValidToken(b[0]);
    var ta, tb := ToStr(a[0]), ToStr(b[0]);
    assert x == ta + Text(a[1..]) && x == tb + Text(b[1..]);
    if a[0].Identifier? || a[0].WholeNumber? {
      assert b[0].Identifier? == a[0].Identifier? && b[0].WholeNumber? == a[0].WholeNumber?;
      if |ta| < |tb| {
        assert x[|ta|] == tb[|ta|];
        NextCharStops(a);
      } else if |tb| < |ta| {
        assert x[|tb|] == ta[|tb|];
        NextCharStops(b);
      } else {
        assert ta == x[..|ta|] == tb;
      }
    } else {
      assert ta == [x[0]] == tb;
    }
  }

  lemma {:induction false} Unique(a: seq<Token>, b: seq<Token>)
    requires WellFormed(a) && WellFormed(b) && Text(a) == Text(b)
    ensures a == b
    decreases |a|
  {
    if a == [] || b == [] {
      if a != [] {
        TextFirstChar(a);
      } else if b != [] {
        TextFirstChar(b);
      }
    } else {
      FirstTokenDetermined(a, b);
      var x, n := Text(a), |ToStr(a[0])|;
      assert x == ToStr(a[0]) + Text(a[1..]) && x == ToStr(b[0]) + Text(b[1..]);
      assert Text(a[1..]) == x[n..] == Text(b[1..]);
      TailWellFormed(a);
      TailWellFormed(b);
      Unique(a[1..], b[1..]);
      assert a == [a[0]] + a[1..] && b == [b[0]] + b[1..];
    }
  }

  // ---------------------------------------------------------------------------
  // tokenize

  /** j is the position of the first unknown character of s. */
  predicate FirstUnknownAt(s: string, j: int) {
    && 0 <= j < |s| && Classify(s[j]).Unknown?
    && forall k :: 0 <= k < j ==> !Classify(s[k]).Unknown?
  }

  /** tokenize fails exactly on input holding an unknown character, and then reports the first one. */
  lemma TokenizeFails(s: string)
    ensures TokenizeSpec(s).Ok? <==> NoUnknown(s)
    ensures forall j :: FirstUnknownAt(s, j) ==> TokenizeSpec(s) == Err(TokenizeError(s[j]))
  {
    FoldOkIff([], s);
    forall j | FirstUnknownAt(s, j)
      ensures TokenizeSpec(s) == Err(TokenizeError(s[j]))
    {
      FoldFirstUnknown([], s, j);
    }
  }

  /** On success the tokens are well formed and spell the input with whitespace runs collapsed. */
  lemma TokenizeSound(s: string)
    requires TokenizeSpec(s).Ok?
    ensures WellFormed(TokenizeSpec(s).value)
    ensures Text(TokenizeSpec(s).value) == Collapse(s)
  {
    FoldWellFormed([], s);
    FoldText([], s);
  }

  /** For known input, the tokens are the only well-formed list that spells the collapsed input. */
  lemma TokenizeCharacterized(s: string, ts: seq<Token>)
    requires NoUnknown(s)
    ensures TokenizeSpec(s) == Ok(ts) <==> WellFormed(ts) && Text(ts) == Collapse(s)
  {
    FoldOkIff([], s);
    TokenizeSound(s);
    if WellFormed(ts) && Text(ts) == Collapse(s) {
      Unique(ts, TokenizeSpec(s).value);
    }
  }
  // ---------------------------------------------------------------------------
  // Runs of characters

  /** Continue a fold that has not failed with the characters t. */
  function FoldOn(r: Result<seq<Token>, Error>, t: string): Result<seq<Token>, Error> {
    if r.Err? then r else Fold(r.value, t)
  }

  /** Tokenizing s then t is tokenizing s + t. */
  lemma {:induction false} FoldAppend(acc: seq<Token>, s: string, t: string)
    ensures Fold(acc, s + t) == FoldOn(Fold(acc, s), t)
    decreases |s|
  {
    if s == [] {
      assert s + t == t;
    } else {
      assert (s + t)[0] == s[0] && (s + t)[1..] == s[1..] + t;
      match Absorb(acc, Classify(s[0]))
      case Err(_) =>
      case Ok(next) => FoldAppend(next, s[1..], t);
    }
  }

  /** The fold over the one-character string [c] is one Absorb. */
  lemma FoldSingle(acc: seq<Token>, c: char)
    ensures Fold(acc, [c]) == Absorb(acc, Classify(c))
  {
    assert [c][1..] == [];
  }

  /** A letter and then letters and digits, after anything but an identifier, make one identifier. */
  lemma {:induction false} IdentifierRun(acc: seq<Token>, w: string)
    requires |w| >= 1 && IsAlphabetic(w[0]) && AllAlphanumeric(w)
    requires !(acc != [] && acc[|acc| - 1].Identifier?)
    ensures Fold(acc, w) == Ok(acc + [Identifier(w)])
    decreases |w|
  {
    if |w| == 1 {
      FoldSingle(acc, w[0]);
      assert [w[0]] == w;
    } else {
      var init, c := w[..|w| - 1], w[|w| - 1];
      assert w == init + [c];
      IdentifierRun(acc, init);
      FoldAppend(acc, init, [c]);
      FoldSingle(acc + [Identifier(init)], c);
      assert Extend(acc + [Identifier(init)], c) == acc + [Identifier(w)];
    }
  }

  /** Digits, after anything but an identifier or a number, make one number. */
  lemma {:induction false} NumberRun(acc: seq<Token>, w: string)
    requires |w| >= 1 && AllDigits(w)
    requires !(acc != [] && (acc[|acc| - 1].Identifier? || acc[|acc| - 1].WholeNumber?))
    ensures Fold(acc, w) == Ok(acc + [WholeNumber(w)])
    decreases |w|
  {
    if |w| == 1 {
      FoldSingle(acc, w[0]);
      assert [w[0]] == w;
    } else {
      var init, c := w[..|w| - 1], w[|w| - 1];
      assert w == init + [c];
      NumberRun(acc, init);
      FoldAppend(acc, init, [c]);
      FoldSingle(acc + [WholeNumber(init)], c);
      assert Extend(acc + [WholeNumber(init)], c) == acc + [WholeNumber(w)];
    }
  }

  /** A whitespace run makes one Space, or nothing right after a Space. */
  lemma {:induction false} BlankRun(acc: seq<Token>, w: string)
    requires |w| >= 1 && forall j :: 0 <= j < |w| ==> IsWhitespace(w[j])
    ensures Fold(acc, w) == Ok(if EndsInSpace(acc) then acc else acc + [Space])
    decreases |w|
  {
    if |w| == 1 {
      FoldSingle(acc, w[0]);
      assert [w[0]] == w;
    } else {
      var init, c := w[..|w| - 1], w[|w| - 1];
      assert w == init + [c];
      BlankRun(acc, init);
      FoldAppend(acc, init, [c]);
      FoldSingle(if EndsInSpace(acc) then acc else acc + [Space], c);
    }
  }

  /** Every punctuation character is an operator of its own. */
  lemma OperatorChar(acc: seq<Token>, c: char)
    requires IsPunctuation(c)
    ensures Fold(acc, [c]) == Ok(acc + [Operator([c])])
  {
    FoldSingle(acc, c);
  }

  // ---------------------------------------------------------------------------
  // Round trip

  /** The fold reads one valid token's text as that token, after a token it does not merge with. */
  lemma FoldToken(acc: seq<Token>, t: Token)
    requires ValidToken(t)
    requires acc != [] ==> !Merges(acc[|acc| - 1], t)
    ensures Fold(acc, ToStr(t)) == Ok(acc + [t])
  {
    match t
    case Identifier(w) => IdentifierRun(acc, w);
    case WholeNumber(w) => NumberRun(acc, w);
    case Operator(w) =>
      assert w == [w[0]];
      OperatorChar(acc, w[0]);
    case Space => BlankRun(acc, " ");
  }

  /** The fold reads the text of well-formed tokens back as those very tokens. */
  lemma {:induction false} FoldTokens(acc: seq<Token>, ts: seq<Token>)
    requires WellFormed(ts)
    requires acc != [] && ts != [] ==> !Merges(acc[|acc| - 1], ts[0])
    ensures Fold(acc, Text(ts)) == Ok(acc + ts)
    decreases |ts|
  {
    if ts == [] {
      assert acc + ts == acc;
    } else {
      var t, rest := ts[0], ts[1..];
      FoldAppend(acc, ToStr(t), Text(rest));
      FoldToken(acc, t);
      TailWellFormed(ts);
      FoldTokens(acc + [t], rest);
      assert acc + [t] + rest == acc + ts;
    }
  }

  /** Round trip: tokenizing the text of a well-formed token list gives back the list. */
  lemma TokenizeText(ts: seq<Token>)
    requires WellFormed(ts)
    ensures TokenizeSpec(Text(ts)) == Ok(ts)
  {
    FoldTokens([], ts);
    assert [] + ts == ts;
  }
}
