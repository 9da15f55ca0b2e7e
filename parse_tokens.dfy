/**
 * The expressions of the parser's tests, as the token lists they tokenize to.
 * Each list is spelled out one token at a time (a chain of small steps about
 * a list built from the right), then identified with the list as displayed.
 */
module ParseTestTokens {
  import opened Wrappers
  import opened Tokenizer
  import opened TokenizerProps

  lemma TextCons(t: Token, ts: seq<Token>)
    ensures Text([t] + ts) == ToStr(t) + Text(ts)
  {
    assert ([t] + ts)[1..] == ts;
  }

  lemma WellFormedCons(t: Token, ts: seq<Token>)
    requires ValidToken(t) && WellFormed(ts) && (ts != [] ==> !Merges(t, ts[0]))
    ensures WellFormed([t] + ts)
  {
    var r := [t] + ts;
    forall j | 0 < j < |r| ensures !Merges(r[j - 1], r[j]) {
      if j > 1 {
        assert r[j - 1] == ts[j - 2] && r[j] == ts[j - 1];
      }
    }
  }

  // Shapes shared by several tests, with the operators as parameters.

  /** "1 p 2 q 3" is well formed for any two single-character operators p and q. */
  lemma OneOpTwoOpThreeWellFormedCons(p: string, q: string)
    requires ValidToken(Operator(p)) && ValidToken(Operator(q))
    ensures WellFormed([WholeNumber("1")] + ([Space] + ([Operator(p)] + ([Space] + ([WholeNumber("2")] + ([Space] + ([Operator(q)] + ([Space] + ([WholeNumber("3")] + ([]))))))))))
  {
    var r9: seq<Token> := [];
    var r8 := [WholeNumber("3")] + r9; WellFormedCons(WholeNumber("3"), r9);
    var r7 := [Space] + r8; WellFormedCons(Space, r8);
    var r6 := [Operator(q)] + r7; WellFormedCons(Operator(q), r7);
    var r5 := [Space] + r6; WellFormedCons(Space, r6);
    var r4 := [WholeNumber("2")] + r5; WellFormedCons(WholeNumber("2"), r5);
    var r3 := [Space] + r4; WellFormedCons(Space, r4);
    var r2 := [Operator(p)] + r3; WellFormedCons(Operator(p), r3);
    var r1 := [Space] + r2; WellFormedCons(Space, r2);
    var r0 := [WholeNumber("1")] + r1; WellFormedCons(WholeNumber("1"), r1);
  }

  /** The spelling of "1 p 2 q 3" for any two operators p and q. */
  lemma OneOpTwoOpThreeTextCons(p: string, q: string)
    ensures Text([WholeNumber("1")] + ([Space] + ([Operator(p)] + ([Space] + ([WholeNumber("2")] + ([Space] + ([Operator(q)] + ([Space] + ([WholeNumber("3")] + ([])))))))))) == "1" + (" " + (p + (" " + ("2" + (" " + (q + (" " + ("3" + ("")))))))))
  {
    var r9: seq<Token> := [];
    var r8 := [WholeNumber("3")] + r9; TextCons(WholeNumber("3"), r9);
    var r7 := [Space] + r8; TextCons(Space, r8);
    var r6 := [Operator(q)] + r7; TextCons(Operator(q), r7);
    var r5 := [Space] + r6; TextCons(Space, r6);
    var r4 := [WholeNumber("2")] + r5; TextCons(WholeNumber("2"), r5);
    var r3 := [Space] + r4; TextCons(Space, r4);
    var r2 := [Operator(p)] + r3; TextCons(Operator(p), r3);
    var r1 := [Space] + r2; TextCons(Space, r2);
    var r0 := [WholeNumber("1")] + r1; TextCons(WholeNumber("1"), r1);
  }

  /** "1pq3" is well formed for any two single-character operators p and q. */
  lemma OneOpOpThreeWellFormedCons(p: string, q: string)
    requires ValidToken(Operator(p)) && ValidToken(Operator(q))
    ensures WellFormed([WholeNumber("1")] + ([Operator(p)] + ([Operator(q)] + ([WholeNumber("3")] + ([])))))
  {
    var r4: seq<Token> := [];
    var r3 := [WholeNumber("3")] + r4; WellFormedCons(WholeNumber("3"), r4);
    var r2 := [Operator(q)] + r3; WellFormedCons(Operator(q), r3);
    var r1 := [Operator(p)] + r2; WellFormedCons(Operator(p), r2);
    var r0 := [WholeNumber("1")] + r1; WellFormedCons(WholeNumber("1"), r1);
  }

  /** The spelling of "1pq3" for any two operators p and q. */
  lemma OneOpOpThreeTextCons(p: string, q: string)
    ensures Text([WholeNumber("1")] + ([Operator(p)] + ([Operator(q)] + ([WholeNumber("3")] + ([]))))) == "1" + (p + (q + ("3" + (""))))
  {
    var r4: seq<Token> := [];
    var r3 := [WholeNumber("3")] + r4; TextCons(WholeNumber("3"), r4);
    var r2 := [Operator(q)] + r3; TextCons(Operator(q), r3);
    var r1 := [Operator(p)] + r2; TextCons(Operator(p), r2);
    var r0 := [WholeNumber("1")] + r1; TextCons(WholeNumber("1"), r1);
  }

  /** Two single-character operators side by side are well formed. */
  lemma OpOpWellFormedCons(p: string, q: string)
    requires ValidToken(Operator(p)) && ValidToken(Operator(q))
    ensures WellFormed([Operator(p)] + ([Operator(q)] + ([])))
  {
    var r2: seq<Token> := [];
    var r1 := [Operator(q)] + r2; WellFormedCons(Operator(q), r2);
    var r0 := [Operator(p)] + r1; WellFormedCons(Operator(p), r1);
  }

  /** The spelling of two operators p and q side by side. */
  lemma OpOpTextCons(p: string, q: string)
    ensures Text([Operator(p)] + ([Operator(q)] + ([]))) == p + (q + (""))
  {
    var r2: seq<Token> := [];
    var r1 := [Operator(q)] + r2; TextCons(Operator(q), r2);
    var r0 := [Operator(p)] + r1; TextCons(Operator(p), r1);
  }

  // "1 - 2 - 3"

  const OneMinusTwoMinusThree: seq<Token> := [WholeNumber("1"), Space, Operator("-"), Space, WholeNumber("2"), Space, Operator("-"), Space, WholeNumber("3")]

  lemma OneMinusTwoMinusThreeListed()
    ensures [WholeNumber("1")] + ([Space] + ([Operator("-")] + ([Space] + ([WholeNumber("2")] + ([Space] + ([Operator("-")] + ([Space] + ([WholeNumber("3")] + ([]))))))))) == OneMinusTwoMinusThree
  {
  }

  lemma OneMinusTwoMinusThreeWellFormed()
    ensures WellFormed(OneMinusTwoMinusThree)
  {
    OneMinusTwoMinusThreeListed();
    OneOpTwoOpThreeWellFormedCons("-", "-");
  }

  lemma OneMinusTwoMinusThreeSpelling()
    ensures "1" + (" " + ("-" + (" " + ("2" + (" " + ("-" + (" " + ("3" + (""))))))))) == "1 - 2 - 3"
  {
  }

  lemma OneMinusTwoMinusThreeText()
    ensures Text(OneMinusTwoMinusThree) == "1 - 2 - 3"
  {
    OneMinusTwoMinusThreeListed();
    OneOpTwoOpThreeTextCons("-", "-");
    OneMinusTwoMinusThreeSpelling();
  }

  lemma OneMinusTwoMinusThreeTokenized()
    ensures TokenizeSpec("1 - 2 - 3") == Ok(OneMinusTwoMinusThree)
  {
    OneMinusTwoMinusThreeWellFormed();
    OneMinusTwoMinusThreeText();
    TokenizeText(OneMinusTwoMinusThree);
  }

  // "1 - 2 + 3"

  const OneMinusTwoPlusThree: seq<Token> := [WholeNumber("1"), Space, Operator("-"), Space, WholeNumber("2"), Space, Operator("+"), Space, WholeNumber("3")]

  lemma OneMinusTwoPlusThreeListed()
    ensures [WholeNumber("1")] + ([Space] + ([Operator("-")] + ([Space] + ([WholeNumber("2")] + ([Space] + ([Operator("+")] + ([Space] + ([WholeNumber("3")] + ([]))))))))) == OneMinusTwoPlusThree
  {
  }

  lemma OneMinusTwoPlusThreeWellFormed()
    ensures WellFormed(OneMinusTwoPlusThree)
  {
    OneMinusTwoPlusThreeListed();
    OneOpTwoOpThreeWellFormedCons("-", "+");
  }

  lemma OneMinusTwoPlusThreeSpelling()
    ensures "1" + (" " + ("-" + (" " + ("2" + (" " + ("+" + (" " + ("3" + (""))))))))) == "1 - 2 + 3"
  {
  }

  lemma OneMinusTwoPlusThreeText()
    ensures Text(OneMinusTwoPlusThree) == "1 - 2 + 3"
  {
    OneMinusTwoPlusThreeListed();
    OneOpTwoOpThreeTextCons("-", "+");
    OneMinusTwoPlusThreeSpelling();
  }

  lemma OneMinusTwoPlusThreeTokenized()
    ensures TokenizeSpec("1 - 2 + 3") == Ok(OneMinusTwoPlusThree)
  {
    OneMinusTwoPlusThreeWellFormed();
    OneMinusTwoPlusThreeText();
    TokenizeText(OneMinusTwoPlusThree);
  }

  // "1 + - 3"

  const OnePlusMinusThree: seq<Token> := [WholeNumber("1"), Space, Operator("+"), Space, Operator("-"), Space, WholeNumber("3")]

  lemma OnePlusMinusThreeListed()
    ensures [WholeNumber("1")] + ([Space] + ([Operator("+")] + ([Space] + ([Operator("-")] + ([Space] + ([WholeNumber("3")] + ([]))))))) == OnePlusMinusThree
  {
  }

  lemma OnePlusMinusThreeWellFormedCons()
    ensures WellFormed([WholeNumber("1")] + ([Space] + ([Operator("+")] + ([Space] + ([Operator("-")] + ([Space] + ([WholeNumber("3")] + ([]))))))))
  {
    var r7: seq<Token> := [];
    var r6 := [WholeNumber("3")] + r7; WellFormedCons(WholeNumber("3"), r7);
    var r5 := [Space] + r6; WellFormedCons(Space, r6);
    var r4 := [Operator("-")] + r5; WellFormedCons(Operator("-"), r5);
    var r3 := [Space] + r4; WellFormedCons(Space, r4);
    var r2 := [Operator("+")] + r3; WellFormedCons(Operator("+"), r3);
    var r1 := [Space] + r2; WellFormedCons(Space, r2);
    var r0 := [WholeNumber("1")] + r1; WellFormedCons(WholeNumber("1"), r1);
  }

  lemma OnePlusMinusThreeTextCons()
    ensures Text([WholeNumber("1")] + ([Space] + ([Operator("+")] + ([Space] + ([Operator("-")] + ([Space] + ([WholeNumber("3")] + ([])))))))) == "1" + (" " + ("+" + (" " + ("-" + (" " + ("3" + ("")))))))
  {
    var r7: seq<Token> := [];
    var r6 := [WholeNumber("3")] + r7; TextCons(WholeNumber("3"), r7);
    var r5 := [Space] + r6; TextCons(Space, r6);
    var r4 := [Operator("-")] + r5; TextCons(Operator("-"), r5);
    var r3 := [Space] + r4; TextCons(Space, r4);
    var r2 := [Operator("+")] + r3; TextCons(Operator("+"), r3);
    var r1 := [Space] + r2; TextCons(Space, r2);
    var r0 := [WholeNumber("1")] + r1; TextCons(WholeNumber("1"), r1);
  }

  lemma OnePlusMinusThreeWellFormed()
    ensures WellFormed(OnePlusMinusThree)
  {
    OnePlusMinusThreeListed();
    OnePlusMinusThreeWellFormedCons();
  }

  lemma OnePlusMinusThreeSpelling()
    ensures "1" + (" " + ("+" + (" " + ("-" + (" " + ("3" + (""))))))) == "1 + - 3"
  {
  }

  lemma OnePlusMinusThreeText()
    ensures Text(OnePlusMinusThree) == "1 + - 3"
  {
    OnePlusMinusThreeListed();
    OnePlusMinusThreeTextCons();
    OnePlusMinusThreeSpelling();
  }

  lemma OnePlusMinusThreeTokenized()
    ensures TokenizeSpec("1 + - 3") == Ok(OnePlusMinusThree)
  {
    OnePlusMinusThreeWellFormed();
    OnePlusMinusThreeText();
    TokenizeText(OnePlusMinusThree);
  }

  // "+ + -3"

  const PlusPlusMinusThree: seq<Token> := [Operator("+"), Space, Operator("+"), Space, Operator("-"), WholeNumber("3")]

  lemma PlusPlusMinusThreeListed()
    ensures [Operator("+")] + ([Space] + ([Operator("+")] + ([Space] + ([Operator("-")] + ([WholeNumber("3")] + ([])))))) == PlusPlusMinusThree
  {
  }

  lemma PlusPlusMinusThreeWellFormedCons()
    ensures WellFormed([Operator("+")] + ([Space] + ([Operator("+")] + ([Space] + ([Operator("-")] + ([WholeNumber("3")] + ([])))))))
  {
    var r6: seq<Token> := [];
    var r5 := [WholeNumber("3")] + r6; WellFormedCons(WholeNumber("3"), r6);
    var r4 := [Operator("-")] + r5; WellFormedCons(Operator("-"), r5);
    var r3 := [Space] + r4; WellFormedCons(Space, r4);
    var r2 := [Operator("+")] + r3; WellFormedCons(Operator("+"), r3);
    var r1 := [Space] + r2; WellFormedCons(Space, r2);
    var r0 := [Operator("+")] + r1; WellFormedCons(Operator("+"), r1);
  }

  lemma PlusPlusMinusThreeTextCons()
    ensures Text([Operator("+")] + ([Space] + ([Operator("+")] + ([Space] + ([Operator("-")] + ([WholeNumber("3")] + ([]))))))) == "+" + (" " + ("+" + (" " + ("-" + ("3" + (""))))))
  {
    var r6: seq<Token> := [];
    var r5 := [WholeNumber("3")] + r6; TextCons(WholeNumber("3"), r6);
    var r4 := [Operator("-")] + r5; TextCons(Operator("-"), r5);
    var r3 := [Space] + r4; TextCons(Space, r4);
    var r2 := [Operator("+")] + r3; TextCons(Operator("+"), r3);
    var r1 := [Space] + r2; TextCons(Space, r2);
    var r0 := [Operator("+")] + r1; TextCons(Operator("+"), r1);
  }

  lemma PlusPlusMinusThreeWellFormed()
    ensures WellFormed(PlusPlusMinusThree)
  {
    PlusPlusMinusThreeListed();
    PlusPlusMinusThreeWellFormedCons();
  }

  lemma PlusPlusMinusThreeSpelling()
    ensures "+" + (" " + ("+" + (" " + ("-" + ("3" + ("")))))) == "+ + -3"
  {
  }

  lemma PlusPlusMinusThreeText()
    ensures Text(PlusPlusMinusThree) == "+ + -3"
  {
    PlusPlusMinusThreeListed();
    PlusPlusMinusThreeTextCons();
    PlusPlusMinusThreeSpelling();
  }

  lemma PlusPlusMinusThreeTokenized()
    ensures TokenizeSpec("+ + -3") == Ok(PlusPlusMinusThree)
  {
    PlusPlusMinusThreeWellFormed();
    PlusPlusMinusThreeText();
    TokenizeText(PlusPlusMinusThree);
  }

  // "1++3"

  const OnePlusPlusThree: seq<Token> := [WholeNumber("1"), Operator("+"), Operator("+"), WholeNumber("3")]

  lemma OnePlusPlusThreeListed()
    ensures [WholeNumber("1")] + ([Operator("+")] + ([Operator("+")] + ([WholeNumber("3")] + ([])))) == OnePlusPlusThree
  {
  }

  lemma OnePlusPlusThreeWellFormed()
    ensures WellFormed(OnePlusPlusThree)
  {
    OnePlusPlusThreeListed();
    OneOpOpThreeWellFormedCons("+", "+");
  }

  lemma OnePlusPlusThreeSpelling()
    ensures "1" + ("+" + ("+" + ("3" + ("")))) == "1++3"
  {
  }

  lemma OnePlusPlusThreeText()
    ensures Text(OnePlusPlusThree) == "1++3"
  {
    OnePlusPlusThreeListed();
    OneOpOpThreeTextCons("+", "+");
    OnePlusPlusThreeSpelling();
  }

  lemma OnePlusPlusThreeTokenized()
    ensures TokenizeSpec("1++3") == Ok(OnePlusPlusThree)
  {
    OnePlusPlusThreeWellFormed();
    OnePlusPlusThreeText();
    TokenizeText(OnePlusPlusThree);
  }

  // "1--3"

  const OneMinusMinusThree: seq<Token> := [WholeNumber("1"), Operator("-"), Operator("-"), WholeNumber("3")]

  lemma OneMinusMinusThreeListed()
    ensures [WholeNumber("1")] + ([Operator("-")] + ([Operator("-")] + ([WholeNumber("3")] + ([])))) == OneMinusMinusThree
  {
  }

  lemma OneMinusMinusThreeWellFormed()
    ensures WellFormed(OneMinusMinusThree)
  {
    OneMinusMinusThreeListed();
    OneOpOpThreeWellFormedCons("-", "-");
  }

  lemma OneMinusMinusThreeSpelling()
    ensures "1" + ("-" + ("-" + ("3" + ("")))) == "1--3"
  {
  }

  lemma OneMinusMinusThreeText()
    ensures Text(OneMinusMinusThree) == "1--3"
  {
    OneMinusMinusThreeListed();
    OneOpOpThreeTextCons("-", "-");
    OneMinusMinusThreeSpelling();
  }

  lemma OneMinusMinusThreeTokenized()
    ensures TokenizeSpec("1--3") == Ok(OneMinusMinusThree)
  {
    OneMinusMinusThreeWellFormed();
    OneMinusMinusThreeText();
    TokenizeText(OneMinusMinusThree);
  }

  // "++3"

  const PlusPlusThree: seq<Token> := [Operator("+"), Operator("+"), WholeNumber("3")]

  lemma PlusPlusThreeListed()
    ensures [Operator("+")] + ([Operator("+")] + ([WholeNumber("3")] + ([]))) == PlusPlusThree
  {
  }

  lemma PlusPlusThreeWellFormedCons()
    ensures WellFormed([Operator("+")] + ([Operator("+")] + ([WholeNumber("3")] + ([]))))
  {
    var r3: seq<Token> := [];
    var r2 := [WholeNumber("3")] + r3; WellFormedCons(WholeNumber("3"), r3);
    var r1 := [Operator("+")] + r2; WellFormedCons(Operator("+"), r2);
    var r0 := [Operator("+")] + r1; WellFormedCons(Operator("+"), r1);
  }

  lemma PlusPlusThreeTextCons()
    ensures Text([Operator("+")] + ([Operator("+")] + ([WholeNumber("3")] + ([])))) == "+" + ("+" + ("3" + ("")))
  {
    var r3: seq<Token> := [];
    var r2 := [WholeNumber("3")] + r3; TextCons(WholeNumber("3"), r3);
    var r1 := [Operator("+")] + r2; TextCons(Operator("+"), r2);
    var r0 := [Operator("+")] + r1; TextCons(Operator("+"), r1);
  }

  lemma PlusPlusThreeWellFormed()
    ensures WellFormed(PlusPlusThree)
  {
    PlusPlusThreeListed();
    PlusPlusThreeWellFormedCons();
  }

  lemma PlusPlusThreeSpelling()
    ensures "+" + ("+" + ("3" + (""))) == "++3"
  {
  }

  lemma PlusPlusThreeText()
    ensures Text(PlusPlusThree) == "++3"
  {
    PlusPlusThreeListed();
    PlusPlusThreeTextCons();
    PlusPlusThreeSpelling();
  }

  lemma PlusPlusThreeTokenized()
    ensures TokenizeSpec("++3") == Ok(PlusPlusThree)
  {
    PlusPlusThreeWellFormed();
    PlusPlusThreeText();
    TokenizeText(PlusPlusThree);
  }

  // " ( 1 ) "

  const SpacedOne: seq<Token> := [Space, Operator("("), Space, WholeNumber("1"), Space, Operator(")"), Space]

  lemma SpacedOneListed()
    ensures [Space] + ([Operator("(")] + ([Space] + ([WholeNumber("1")] + ([Space] + ([Operator(")")] + ([Space] + ([]))))))) == SpacedOne
  {
  }

  lemma SpacedOneWellFormedCons()
    ensures WellFormed([Space] + ([Operator("(")] + ([Space] + ([WholeNumber("1")] + ([Space] + ([Operator(")")] + ([Space] + ([]))))))))
  {
    var r7: seq<Token> := [];
    var r6 := [Space] + r7; WellFormedCons(Space, r7);
    var r5 := [Operator(")")] + r6; WellFormedCons(Operator(")"), r6);
    var r4 := [Space] + r5; WellFormedCons(Space, r5);
    var r3 := [WholeNumber("1")] + r4; WellFormedCons(WholeNumber("1"), r4);
    var r2 := [Space] + r3; WellFormedCons(Space, r3);
    var r1 := [Operator("(")] + r2; WellFormedCons(Operator("("), r2);
    var r0 := [Space] + r1; WellFormedCons(Space, r1);
  }

  lemma SpacedOneTextCons()
    ensures Text([Space] + ([Operator("(")] + ([Space] + ([WholeNumber("1")] + ([Space] + ([Operator(")")] + ([Space] + ([])))))))) == " " + ("(" + (" " + ("1" + (" " + (")" + (" " + ("")))))))
  {
    var r7: seq<Token> := [];
    var r6 := [Space] + r7; TextCons(Space, r7);
    var r5 := [Operator(")")] + r6; TextCons(Operator(")"), r6);
    var r4 := [Space] + r5; TextCons(Space, r5);
    var r3 := [WholeNumber("1")] + r4; TextCons(WholeNumber("1"), r4);
    var r2 := [Space] + r3; TextCons(Space, r3);
    var r1 := [Operator("(")] + r2; TextCons(Operator("("), r2);
    var r0 := [Space] + r1; TextCons(Space, r1);
  }

  lemma SpacedOneWellFormed()
    ensures WellFormed(SpacedOne)
  {
    SpacedOneListed();
    SpacedOneWellFormedCons();
  }

  lemma SpacedOneSpelling()
    ensures " " + ("(" + (" " + ("1" + (" " + (")" + (" " + (""))))))) == " ( 1 ) "
  {
  }

  lemma SpacedOneText()
    ensures Text(SpacedOne) == " ( 1 ) "
  {
    SpacedOneListed();
    SpacedOneTextCons();
    SpacedOneSpelling();
  }

  lemma SpacedOneTokenized()
    ensures TokenizeSpec(" ( 1 ) ") == Ok(SpacedOne)
  {
    SpacedOneWellFormed();
    SpacedOneText();
    TokenizeText(SpacedOne);
  }

  // "-(1 + 2)"

  const NegatedSum: seq<Token> := [Operator("-"), Operator("("), WholeNumber("1"), Space, Operator("+"), Space, WholeNumber("2"), Operator(")")]

  lemma NegatedSumListed()
    ensures [Operator("-")] + ([Operator("(")] + ([WholeNumber("1")] + ([Space] + ([Operator("+")] + ([Space] + ([WholeNumber("2")] + ([Operator(")")] + ([])))))))) == NegatedSum
  {
  }

  lemma NegatedSumWellFormedCons()
    ensures WellFormed([Operator("-")] + ([Operator("(")] + ([WholeNumber("1")] + ([Space] + ([Operator("+")] + ([Space] + ([WholeNumber("2")] + ([Operator(")")] + ([])))))))))
  {
    var r8: seq<Token> := [];
    var r7 := [Operator(")")] + r8; WellFormedCons(Operator(")"), r8);
    var r6 := [WholeNumber("2")] + r7; WellFormedCons(WholeNumber("2"), r7);
    var r5 := [Space] + r6; WellFormedCons(Space, r6);
    var r4 := [Operator("+")] + r5; WellFormedCons(Operator("+"), r5);
    var r3 := [Space] + r4; WellFormedCons(Space, r4);
    var r2 := [WholeNumber("1")] + r3; WellFormedCons(WholeNumber("1"), r3);
    var r1 := [Operator("(")] + r2; WellFormedCons(Operator("("), r2);
    var r0 := [Operator("-")] + r1; WellFormedCons(Operator("-"), r1);
  }

  lemma NegatedSumTextCons()
    ensures Text([Operator("-")] + ([Operator("(")] + ([WholeNumber("1")] + ([Space] + ([Operator("+")] + ([Space] + ([WholeNumber("2")] + ([Operator(")")] + ([]))))))))) == "-" + ("(" + ("1" + (" " + ("+" + (" " + ("2" + (")" + (""))))))))
  {
    var r8: seq<Token> := [];
    var r7 := [Operator(")")] + r8; TextCons(Operator(")"), r8);
    var r6 := [WholeNumber("2")] + r7; TextCons(WholeNumber("2"), r7);
    var r5 := [Space] + r6; TextCons(Space, r6);
    var r4 := [Operator("+")] + r5; TextCons(Operator("+"), r5);
    var r3 := [Space] + r4; TextCons(Space, r4);
    var r2 := [WholeNumber("1")] + r3; TextCons(WholeNumber("1"), r3);
    var r1 := [Operator("(")] + r2; TextCons(Operator("("), r2);
    var r0 := [Operator("-")] + r1; TextCons(Operator("-"), r1);
  }

  lemma NegatedSumWellFormed()
    ensures WellFormed(NegatedSum)
  {
    NegatedSumListed();
    NegatedSumWellFormedCons();
  }

  lemma NegatedSumSpelling()
    ensures "-" + ("(" + ("1" + (" " + ("+" + (" " + ("2" + (")" + ("")))))))) == "-(1 + 2)"
  {
  }

  lemma NegatedSumText()
    ensures Text(NegatedSum) == "-(1 + 2)"
  {
    NegatedSumListed();
    NegatedSumTextCons();
    NegatedSumSpelling();
  }

  lemma NegatedSumTokenized()
    ensures TokenizeSpec("-(1 + 2)") == Ok(NegatedSum)
  {
    NegatedSumWellFormed();
    NegatedSumText();
    TokenizeText(NegatedSum);
  }

  // "(10+2)-(-5 + (3 - 2))"

  const NestedGroups: seq<Token> := [Operator("("), WholeNumber("10"), Operator("+"), WholeNumber("2"), Operator(")"), Operator("-"), Operator("("), Operator("-"), WholeNumber("5"), Space, Operator("+"), Space, Operator("("), WholeNumber("3"), Space, Operator("-"), Space, WholeNumber("2"), Operator(")"), Operator(")")]

  lemma NestedGroupsListed()
    ensures [Operator("(")] + ([WholeNumber("10")] + ([Operator("+")] + ([WholeNumber("2")] + ([Operator(")")] + ([Operator("-")] + ([Operator("(")] + ([Operator("-")] + ([WholeNumber("5")] + ([Space] + ([Operator("+")] + ([Space] + ([Operator("(")] + ([WholeNumber("3")] + ([Space] + ([Operator("-")] + ([Space] + ([WholeNumber("2")] + ([Operator(")")] + ([Operator(")")] + ([])))))))))))))))))))) == NestedGroups
  {
  }

  lemma NestedGroupsWellFormedTail()
    ensures WellFormed([Space] + ([Operator("+")] + ([Space] + ([Operator("(")] + ([WholeNumber("3")] + ([Space] + ([Operator("-")] + ([Space] + ([WholeNumber("2")] + ([Operator(")")] + ([Operator(")")] + ([]))))))))))))
  {
    var r20: seq<Token> := [];
    var r19 := [Operator(")")] + r20; WellFormedCons(Operator(")"), r20);
    var r18 := [Operator(")")] + r19; WellFormedCons(Operator(")"), r19);
    var r17 := [WholeNumber("2")] + r18; WellFormedCons(WholeNumber("2"), r18);
    var r16 := [Space] + r17; WellFormedCons(Space, r17);
    var r15 := [Operator("-")] + r16; WellFormedCons(Operator("-"), r16);
    var r14 := [Space] + r15; WellFormedCons(Space, r15);
    var r13 := [WholeNumber("3")] + r14; WellFormedCons(WholeNumber("3"), r14);
    var r12 := [Operator("(")] + r13; WellFormedCons(Operator("("), r13);
    var r11 := [Space] + r12; WellFormedCons(Space, r12);
    var r10 := [Operator("+")] + r11; WellFormedCons(Operator("+"), r11);
    var r9 := [Space] + r10; WellFormedCons(Space, r10);
  }

  lemma NestedGroupsWellFormedCons()
    ensures WellFormed([Operator("(")] + ([WholeNumber("10")] + ([Operator("+")] + ([WholeNumber("2")] + ([Operator(")")] + ([Operator("-")] + ([Operator("(")] + ([Operator("-")] + ([WholeNumber("5")] + ([Space] + ([Operator("+")] + ([Space] + ([Operator("(")] + ([WholeNumber("3")] + ([Space] + ([Operator("-")] + ([Space] + ([WholeNumber("2")] + ([Operator(")")] + ([Operator(")")] + ([])))))))))))))))))))))
  {
    NestedGroupsWellFormedTail();
    var r9 := [Space] + ([Operator("+")] + ([Space] + ([Operator("(")] + ([WholeNumber("3")] + ([Space] + ([Operator("-")] + ([Space] + ([WholeNumber("2")] + ([Operator(")")] + ([Operator(")")] + ([])))))))))));
    var r8 := [WholeNumber("5")] + r9; WellFormedCons(WholeNumber("5"), r9);
    var r7 := [Operator("-")] + r8; WellFormedCons(Operator("-"), r8);
    var r6 := [Operator("(")] + r7; WellFormedCons(Operator("("), r7);
    var r5 := [Operator("-")] + r6; WellFormedCons(Operator("-"), r6);
    var r4 := [Operator(")")] + r5; WellFormedCons(Operator(")"), r5);
    var r3 := [WholeNumber("2")] + r4; WellFormedCons(WholeNumber("2"), r4);
    var r2 := [Operator("+")] + r3; WellFormedCons(Operator("+"), r3);
    var r1 := [WholeNumber("10")] + r2; WellFormedCons(WholeNumber("10"), r2);
    var r0 := [Operator("(")] + r1; WellFormedCons(Operator("("), r1);
  }

  lemma NestedGroupsTextCons()
    ensures Text([Operator("(")] + ([WholeNumber("10")] + ([Operator("+")] + ([WholeNumber("2")] + ([Operator(")")] + ([Operator("-")] + ([Operator("(")] + ([Operator("-")] + ([WholeNumber("5")] + ([Space] + ([Operator("+")] + ([Space] + ([Operator("(")] + ([WholeNumber("3")] + ([Space] + ([Operator("-")] + ([Space] + ([WholeNumber("2")] + ([Operator(")")] + ([Operator(")")] + ([]))))))))))))))))))))) == "(" + ("10" + ("+" + ("2" + (")" + ("-" + ("(" + ("-" + ("5" + (" " + ("+" + (" " + ("(" + ("3" + (" " + ("-" + (" " + ("2" + (")" + (")" + (""))))))))))))))))))))
  {
    var r20: seq<Token> := [];
    var r19 := [Operator(")")] + r20; TextCons(Operator(")"), r20);
    var r18 := [Operator(")")] + r19; TextCons(Operator(")"), r19);
    var r17 := [WholeNumber("2")] + r18; TextCons(WholeNumber("2"), r18);
    var r16 := [Space] + r17; TextCons(Space, r17);
    var r15 := [Operator("-")] + r16; TextCons(Operator("-"), r16);
    var r14 := [Space] + r15; TextCons(Space, r15);
    var r13 := [WholeNumber("3")] + r14; TextCons(WholeNumber("3"), r14);
    var r12 := [Operator("(")] + r13; TextCons(Operator("("), r13);
    var r11 := [Space] + r12; TextCons(Space, r12);
    var r10 := [Operator("+")] + r11; TextCons(Operator("+"), r11);
    var r9 := [Space] + r10; TextCons(Space, r10);
    var r8 := [WholeNumber("5")] + r9; TextCons(WholeNumber("5"), r9);
    var r7 := [Operator("-")] + r8; TextCons(Operator("-"), r8);
    var r6 := [Operator("(")] + r7; TextCons(Operator("("), r7);
    var r5 := [Operator("-")] + r6; TextCons(Operator("-"), r6);
    var r4 := [Operator(")")] + r5; TextCons(Operator(")"), r5);
    var r3 := [WholeNumber("2")] + r4; TextCons(WholeNumber("2"), r4);
    var r2 := [Operator("+")] + r3; TextCons(Operator("+"), r3);
    var r1 := [WholeNumber("10")] + r2; TextCons(WholeNumber("10"), r2);
    var r0 := [Operator("(")] + r1; TextCons(Operator("("), r1);
  }

  lemma NestedGroupsWellFormed()
    ensures WellFormed(NestedGroups)
  {
    NestedGroupsListed();
    NestedGroupsWellFormedCons();
  }

  lemma NestedGroupsSpelling()
    ensures "(" + ("10" + ("+" + ("2" + (")" + ("-" + ("(" + ("-" + ("5" + (" " + ("+" + (" " + ("(" + ("3" + (" " + ("-" + (" " + ("2" + (")" + (")" + ("")))))))))))))))))))) == "(10+2)-(-5 + (3 - 2))"
  {
  }

  lemma NestedGroupsText()
    ensures Text(NestedGroups) == "(10+2)-(-5 + (3 - 2))"
  {
    NestedGroupsListed();
    NestedGroupsTextCons();
    NestedGroupsSpelling();
  }

  lemma NestedGroupsTokenized()
    ensures TokenizeSpec("(10+2)-(-5 + (3 - 2))") == Ok(NestedGroups)
  {
    NestedGroupsWellFormed();
    NestedGroupsText();
    TokenizeText(NestedGroups);
  }

  // "(1)(1)"

  const AdjacentGroups: seq<Token> := [Operator("("), WholeNumber("1"), Operator(")"), Operator("("), WholeNumber("1"), Operator(")")]

  lemma AdjacentGroupsListed()
    ensures [Operator("(")] + ([WholeNumber("1")] + ([Operator(")")] + ([Operator("(")] + ([WholeNumber("1")] + ([Operator(")")] + ([])))))) == AdjacentGroups
  {
  }

  lemma AdjacentGroupsWellFormedCons()
    ensures WellFormed([Operator("(")] + ([WholeNumber("1")] + ([Operator(")")] + ([Operator("(")] + ([WholeNumber("1")] + ([Operator(")")] + ([])))))))
  {
    var r6: seq<Token> := [];
    var r5 := [Operator(")")] + r6; WellFormedCons(Operator(")"), r6);
    var r4 := [WholeNumber("1")] + r5; WellFormedCons(WholeNumber("1"), r5);
    var r3 := [Operator("(")] + r4; WellFormedCons(Operator("("), r4);
    var r2 := [Operator(")")] + r3; WellFormedCons(Operator(")"), r3);
    var r1 := [WholeNumber("1")] + r2; WellFormedCons(WholeNumber("1"), r2);
    var r0 := [Operator("(")] + r1; WellFormedCons(Operator("("), r1);
  }

  lemma AdjacentGroupsTextCons()
    ensures Text([Operator("(")] + ([WholeNumber("1")] + ([Operator(")")] + ([Operator("(")] + ([WholeNumber("1")] + ([Operator(")")] + ([]))))))) == "(" + ("1" + (")" + ("(" + ("1" + (")" + (""))))))
  {
    var r6: seq<Token> := [];
    var r5 := [Operator(")")] + r6; TextCons(Operator(")"), r6);
    var r4 := [WholeNumber("1")] + r5; TextCons(WholeNumber("1"), r5);
    var r3 := [Operator("(")] + r4; TextCons(Operator("("), r4);
    var r2 := [Operator(")")] + r3; TextCons(Operator(")"), r3);
    var r1 := [WholeNumber("1")] + r2; TextCons(WholeNumber("1"), r2);
    var r0 := [Operator("(")] + r1; TextCons(Operator("("), r1);
  }

  lemma AdjacentGroupsWellFormed()
    ensures WellFormed(AdjacentGroups)
  {
    AdjacentGroupsListed();
    AdjacentGroupsWellFormedCons();
  }

  lemma AdjacentGroupsSpelling()
    ensures "(" + ("1" + (")" + ("(" + ("1" + (")" + ("")))))) == "(1)(1)"
  {
  }

  lemma AdjacentGroupsText()
    ensures Text(AdjacentGroups) == "(1)(1)"
  {
    AdjacentGroupsListed();
    AdjacentGroupsTextCons();
    AdjacentGroupsSpelling();
  }

  lemma AdjacentGroupsTokenized()
    ensures TokenizeSpec("(1)(1)") == Ok(AdjacentGroups)
  {
    AdjacentGroupsWellFormed();
    AdjacentGroupsText();
    TokenizeText(AdjacentGroups);
  }

  // "()"

  const EmptyParens: seq<Token> := [Operator("("), Operator(")")]

  lemma EmptyParensListed()
    ensures [Operator("(")] + ([Operator(")")] + ([])) == EmptyParens
  {
  }

  lemma EmptyParensWellFormed()
    ensures WellFormed(EmptyParens)
  {
    EmptyParensListed();
    OpOpWellFormedCons("(", ")");
  }

  lemma EmptyParensSpelling()
    ensures "(" + (")" + ("")) == "()"
  {
  }

  lemma EmptyParensText()
    ensures Text(EmptyParens) == "()"
  {
    EmptyParensListed();
    OpOpTextCons("(", ")");
    EmptyParensSpelling();
  }

  lemma EmptyParensTokenized()
    ensures TokenizeSpec("()") == Ok(EmptyParens)
  {
    EmptyParensWellFormed();
    EmptyParensText();
    TokenizeText(EmptyParens);
  }

  // "( )"

  const SpacedEmptyParens: seq<Token> := [Operator("("), Space, Operator(")")]

  lemma SpacedEmptyParensListed()
    ensures [Operator("(")] + ([Space] + ([Operator(")")] + ([]))) == SpacedEmptyParens
  {
  }

  lemma SpacedEmptyParensWellFormedCons()
    ensures WellFormed([Operator("(")] + ([Space] + ([Operator(")")] + ([]))))
  {
    var r3: seq<Token> := [];
    var r2 := [Operator(")")] + r3; WellFormedCons(Operator(")"), r3);
    var r1 := [Space] + r2; WellFormedCons(Space, r2);
    var r0 := [Operator("(")] + r1; WellFormedCons(Operator("("), r1);
  }

  lemma SpacedEmptyParensTextCons()
    ensures Text([Operator("(")] + ([Space] + ([Operator(")")] + ([])))) == "(" + (" " + (")" + ("")))
  {
    var r3: seq<Token> := [];
    var r2 := [Operator(")")] + r3; TextCons(Operator(")"), r3);
    var r1 := [Space] + r2; TextCons(Space, r2);
    var r0 := [Operator("(")] + r1; TextCons(Operator("("), r1);
  }

  lemma SpacedEmptyParensWellFormed()
    ensures WellFormed(SpacedEmptyParens)
  {
    SpacedEmptyParensListed();
    SpacedEmptyParensWellFormedCons();
  }

  lemma SpacedEmptyParensSpelling()
    ensures "(" + (" " + (")" + (""))) == "( )"
  {
  }

  lemma SpacedEmptyParensText()
    ensures Text(SpacedEmptyParens) == "( )"
  {
    SpacedEmptyParensListed();
    SpacedEmptyParensTextCons();
    SpacedEmptyParensSpelling();
  }

  lemma SpacedEmptyParensTokenized()
    ensures TokenizeSpec("( )") == Ok(SpacedEmptyParens)
  {
    SpacedEmptyParensWellFormed();
    SpacedEmptyParensText();
    TokenizeText(SpacedEmptyParens);
  }

  // ")("

  const CloseThenOpen: seq<Token> := [Operator(")"), Operator("(")]

  lemma CloseThenOpenListed()
    ensures [Operator(")")] + ([Operator("(")] + ([])) == CloseThenOpen
  {
  }

  lemma CloseThenOpenWellFormed()
    ensures WellFormed(CloseThenOpen)
  {
    CloseThenOpenListed();
    OpOpWellFormedCons(")", "(");
  }

  lemma CloseThenOpenSpelling()
    ensures ")" + ("(" + ("")) == ")("
  {
  }

  lemma CloseThenOpenText()
    ensures Text(CloseThenOpen) == ")("
  {
    CloseThenOpenListed();
    OpOpTextCons(")", "(");
    CloseThenOpenSpelling();
  }

  lemma CloseThenOpenTokenized()
    ensures TokenizeSpec(")(") == Ok(CloseThenOpen)
  {
    CloseThenOpenWellFormed();
    CloseThenOpenText();
    TokenizeText(CloseThenOpen);
  }

  // "(1"

  const OpenOne: seq<Token> := [Operator("("), WholeNumber("1")]

  lemma OpenOneListed()
    ensures [Operator("(")] + ([WholeNumber("1")] + ([])) == OpenOne
  {
  }

  lemma OpenOneWellFormedCons()
    ensures WellFormed([Operator("(")] + ([WholeNumber("1")] + ([])))
  {
    var r2: seq<Token> := [];
    var r1 := [WholeNumber("1")] + r2; WellFormedCons(WholeNumber("1"), r2);
    var r0 := [Operator("(")] + r1; WellFormedCons(Operator("("), r1);
  }

  lemma OpenOneTextCons()
    ensures Text([Operator("(")] + ([WholeNumber("1")] + ([]))) == "(" + ("1" + (""))
  {
    var r2: seq<Token> := [];
    var r1 := [WholeNumber("1")] + r2; TextCons(WholeNumber("1"), r2);
    var r0 := [Operator("(")] + r1; TextCons(Operator("("), r1);
  }

  lemma OpenOneWellFormed()
    ensures WellFormed(OpenOne)
  {
    OpenOneListed();
    OpenOneWellFormedCons();
  }

  lemma OpenOneSpelling()
    ensures "(" + ("1" + ("")) == "(1"
  {
  }

  lemma OpenOneText()
    ensures Text(OpenOne) == "(1"
  {
    OpenOneListed();
    OpenOneTextCons();
    OpenOneSpelling();
  }

  lemma OpenOneTokenized()
    ensures TokenizeSpec("(1") == Ok(OpenOne)
  {
    OpenOneWellFormed();
    OpenOneText();
    TokenizeText(OpenOne);
  }

  // "1)"

  const OneClose: seq<Token> := [WholeNumber("1"), Operator(")")]

  lemma OneCloseListed()
    ensures [WholeNumber("1")] + ([Operator(")")] + ([])) == OneClose
  {
  }

  lemma OneCloseWellFormedCons()
    ensures WellFormed([WholeNumber("1")] + ([Operator(")")] + ([])))
  {
    var r2: seq<Token> := [];
    var r1 := [Operator(")")] + r2; WellFormedCons(Operator(")"), r2);
    var r0 := [WholeNumber("1")] + r1; WellFormedCons(WholeNumber("1"), r1);
  }

  lemma OneCloseTextCons()
    ensures Text([WholeNumber("1")] + ([Operator(")")] + ([]))) == "1" + (")" + (""))
  {
    var r2: seq<Token> := [];
    var r1 := [Operator(")")] + r2; TextCons(Operator(")"), r2);
    var r0 := [WholeNumber("1")] + r1; TextCons(WholeNumber("1"), r1);
  }

  lemma OneCloseWellFormed()
    ensures WellFormed(OneClose)
  {
    OneCloseListed();
    OneCloseWellFormedCons();
  }

  lemma OneCloseSpelling()
    ensures "1" + (")" + ("")) == "1)"
  {
  }

  lemma OneCloseText()
    ensures Text(OneClose) == "1)"
  {
    OneCloseListed();
    OneCloseTextCons();
    OneCloseSpelling();
  }

  lemma OneCloseTokenized()
    ensures TokenizeSpec("1)") == Ok(OneClose)
  {
    OneCloseWellFormed();
    OneCloseText();
    TokenizeText(OneClose);
  }

  // "x"

  const LoneX: seq<Token> := [Identifier("x")]

  lemma LoneXListed()
    ensures [Identifier("x")] + ([]) == LoneX
  {
  }

  lemma LoneXWellFormedCons()
    ensures WellFormed([Identifier("x")] + ([]))
  {
    var r1: seq<Token> := [];
    var r0 := [Identifier("x")] + r1; WellFormedCons(Identifier("x"), r1);
  }

  lemma LoneXTextCons()
    ensures Text([Identifier("x")] + ([])) == "x" + ("")
  {
    var r1: seq<Token> := [];
    var r0 := [Identifier("x")] + r1; TextCons(Identifier("x"), r1);
  }

  lemma LoneXWellFormed()
    ensures WellFormed(LoneX)
  {
    LoneXListed();
    LoneXWellFormedCons();
  }

  lemma LoneXSpelling()
    ensures "x" + ("") == "x"
  {
  }

  lemma LoneXText()
    ensures Text(LoneX) == "x"
  {
    LoneXListed();
    LoneXTextCons();
    LoneXSpelling();
  }

  lemma LoneXTokenized()
    ensures TokenizeSpec("x") == Ok(LoneX)
  {
    LoneXWellFormed();
    LoneXText();
    TokenizeText(LoneX);
  }

}
