/**
 Facts about the seven rules of the body-template spacing script, assembled
 from the facts about their literal pieces: which rules are digit rules, that
 each one's matches cannot overlap or hold a "20" pair, and that rule 3's
 block can neither contain nor reach into a match of rules 1, 2 and 3.
 */
module RuleFacts {
  import opened Text
  import opened Pattern
  import opened Rewrite
  import opened Table

  /** The head `<td style="padding-top: 13px;">` shared by rules 1 and 4. */
  lemma CellHeadFacts()
    ensures NoTwenty(CellOpen + "13" + AttrEnd)
    ensures FreeOf(CellOpen + "13" + AttrEnd, 1, "<td")
    ensures FreeOf(CellOpen + "13" + AttrEnd, 1, "let")
  {
    ShortPieceFacts();
    CellOpenNoTwenty();
    NoTwentyConcat(CellOpen, "13");
    NoTwentyConcat(CellOpen + "13", AttrEnd);
    CellOpenNoTd();
    CellOpenNoLet();
    FreeOfTriple(CellOpen, 1, "<td");
    FreeOfTriple("13", 0, "<td");
    FreeOfTriple(AttrEnd, 0, "<td");
    FreeOfConcat(CellOpen, "13", 1, "<td");
    FreeOfConcat(CellOpen + "13", AttrEnd, 1, "<td");
    FreeOfTriple(CellOpen, 1, "let");
    FreeOfTriple("13", 0, "let");
    FreeOfTriple(AttrEnd, 0, "let");
    FreeOfConcat(CellOpen, "13", 1, "let");
    FreeOfConcat(CellOpen + "13", AttrEnd, 1, "let");
  }

  lemma Rule1Facts()
    ensures DigitRuleClearing(Rule1, |CellOpen|)
  {
    RulesWellFormed();
    DigitInHead(Rule1, CellOpen, "13", AttrEnd);
    CellHeadFacts();
    TopBorderCommentNoTwenty();
    NoTwentyMatches(Rule1);
    TopBorderCommentNoTd();
    FreeOfTriple(TopBorderComment, 0, "<td");
    SelfDisjointBy(Rule1, "<td");
  }

  lemma Rule4Facts()
    ensures DigitRuleClearing(Rule4, |CellOpen|)
  {
    RulesWellFormed();
    DigitInHead(Rule4, CellOpen, "13", AttrEnd);
    CellHeadFacts();
    FontDivNoTwenty();
    NoTwentyMatches(Rule4);
    FontDivNoTd();
    FreeOfTriple(FontDiv, 0, "<td");
    SelfDisjointBy(Rule4, "<td");
  }

  lemma Rule8Facts()
    ensures DigitRuleClearing(Rule8, |CellOpen|)
  {
    RulesWellFormed();
    DigitInLiteral(Rule8, CellOpen, "24", AttrEnd);
    ShortPieceFacts();
    CellOpenNoTwenty();
    NoTwentyConcat(CellOpen, "24");
    NoTwentyConcat(CellOpen + "24", AttrEnd);
    NoTwentyMatches(Rule8);
    CellOpenNoTd();
    FreeOfTriple(CellOpen, 1, "<td");
    FreeOfTriple("24", 0, "<td");
    FreeOfTriple(AttrEnd, 0, "<td");
    FreeOfConcat(CellOpen, "24", 1, "<td");
    FreeOfConcat(CellOpen + "24", AttrEnd, 1, "<td");
    SelfDisjointBy(Rule8, "<td");
  }

  /** The head of rule 2, `<div style="border-top: … margin-bottom: 13px;"></div>`. */
  lemma RuleDivFacts()
    ensures NoTwenty(Rule2.head)
    ensures FreeOf(Rule2.head, 1, "<di")
    ensures FreeOf(Rule2.head, 1, "let")
  {
    ShortPieceFacts();
    RuleDivOpenNoTwenty();
    RuleDivMidNoTwenty();
    RuleDivCloseNoTwenty();
    NoTwentyConcat(RuleDivOpen, RuleDivMid);
    NoTwentyConcat(RuleDivOpen + RuleDivMid, "13");
    NoTwentyConcat(RuleDivOpen + RuleDivMid + "13", RuleDivClose);
    RuleDivOpenNoDiv();
    RuleDivMidNoDiv();
    RuleDivCloseNoDiv();
    FreeOfTriple(RuleDivOpen, 1, "<di");
    FreeOfTriple(RuleDivMid, 0, "<di");
    FreeOfTriple("13", 0, "<di");
    FreeOfTriple(RuleDivClose, 0, "<di");
    FreeOfConcat(RuleDivOpen, RuleDivMid, 1, "<di");
    FreeOfConcat(RuleDivOpen + RuleDivMid, "13", 1, "<di");
    FreeOfConcat(RuleDivOpen + RuleDivMid + "13", RuleDivClose, 1, "<di");
    RuleDivOpenNoLet();
    RuleDivMidNoLet();
    RuleDivCloseNoLet();
    FreeOfTriple(RuleDivOpen, 1, "let");
    FreeOfTriple(RuleDivMid, 0, "let");
    FreeOfTriple("13", 0, "let");
    FreeOfTriple(RuleDivClose, 0, "let");
    FreeOfConcat(RuleDivOpen, RuleDivMid, 1, "let");
    FreeOfConcat(RuleDivOpen + RuleDivMid, "13", 1, "let");
    FreeOfConcat(RuleDivOpen + RuleDivMid + "13", RuleDivClose, 1, "let");
  }

  lemma Rule2Facts()
    ensures DigitRuleClearing(Rule2, |RuleDivOpen + RuleDivMid|)
  {
    RulesWellFormed();
    DigitInLiteral(Rule2, RuleDivOpen + RuleDivMid, "13", RuleDivClose);
    RuleDivFacts();
    NoTwentyMatches(Rule2);
    SelfDisjointBy(Rule2, "<di");
  }

  /** The tails ` margin-bottom: 13px;">` and ` padding-bottom: 10px;">` of
      rules 5 and 6. */
  lemma RightAlignTailFacts(p: string, d: string)
    requires (p == MarginBottom && d == "13") || (p == PaddingBottom && d == "10")
    ensures NoTwenty(p + d + AttrEnd) && FreeOf(p + d + AttrEnd, 0, "tex")
  {
    ShortPieceFacts();
    MarginBottomNoTwenty();
    PaddingBottomNoTwenty();
    NoTwentyConcat(p, d);
    NoTwentyConcat(p + d, AttrEnd);
    MarginBottomNoTex();
    PaddingBottomNoTex();
    FreeOfTriple(p, 0, "tex");
    FreeOfTriple(d, 0, "tex");
    FreeOfTriple(AttrEnd, 0, "tex");
    FreeOfConcat(p, d, 0, "tex");
    FreeOfConcat(p + d, AttrEnd, 0, "tex");
  }

  lemma RightAlignFacts()
    ensures NoTwenty(RightAlign) && FreeOf(RightAlign, 1, "tex")
  {
    RightAlignNoTwenty();
    RightAlignNoTex();
    FreeOfTriple(RightAlign, 1, "tex");
  }

  lemma Rule5Facts()
    ensures DigitRuleClearing(Rule5, |RightAlign| + |MarginBottom|)
  {
    Rule5Digit();
    Rule5NoTwenty();
    Rule5Disjoint();
  }

  lemma Rule5Digit()
    ensures DigitRule(Rule5, |RightAlign| + |MarginBottom|)
  {
    RulesWellFormed();
    DigitInTail(Rule5, MarginBottom, "13", AttrEnd);
  }

  lemma Rule5NoTwenty()
    ensures MatchesHaveNoTwenty(Rule5)
  {
    RightAlignFacts();
    RightAlignTailFacts(MarginBottom, "13");
    NoTwentyMatches(Rule5);
  }

  lemma Rule5Disjoint()
    ensures SelfDisjoint(Rule5)
  {
    RulesWellFormed();
    RightAlignFacts();
    RightAlignTailFacts(MarginBottom, "13");
    SelfDisjointBy(Rule5, "tex");
  }

  lemma Rule6Facts()
    ensures DigitRuleClearing(Rule6, |RightAlign| + |PaddingBottom|)
  {
    Rule6Digit();
    Rule6NoTwenty();
    Rule6Disjoint();
  }

  lemma Rule6Digit()
    ensures DigitRule(Rule6, |RightAlign| + |PaddingBottom|)
  {
    RulesWellFormed();
    DigitInTail(Rule6, PaddingBottom, "10", AttrEnd);
  }

  lemma Rule6NoTwenty()
    ensures MatchesHaveNoTwenty(Rule6)
  {
    RightAlignFacts();
    RightAlignTailFacts(PaddingBottom, "10");
    NoTwentyMatches(Rule6);
  }

  lemma Rule6Disjoint()
    ensures SelfDisjoint(Rule6)
  {
    RulesWellFormed();
    RightAlignFacts();
    RightAlignTailFacts(PaddingBottom, "10");
    SelfDisjointBy(Rule6, "tex");
  }

  /** The tail of rule 3, `border-bottom: … padding-bottom: 13px;`. */
  lemma BorderTailFacts()
    ensures NoTwenty(Rule3.tail)
    ensures FreeOf(Rule3.tail, 0, "let")
  {
    ShortPieceFacts();
    BorderSolidNoTwenty();
    BorderPaddingNoTwenty();
    NoTwentyConcat(BorderSolid, BorderPadding);
    NoTwentyConcat(BorderSolid + BorderPadding, "13");
    NoTwentyConcat(BorderSolid + BorderPadding + "13", PxEnd);
    BorderSolidNoLet();
    BorderPaddingNoLet();
    FreeOfTriple(BorderSolid, 0, "let");
    FreeOfTriple(BorderPadding, 0, "let");
    FreeOfTriple("13", 0, "let");
    FreeOfTriple(PxEnd, 0, "let");
    FreeOfConcat(BorderSolid, BorderPadding, 0, "let");
    FreeOfConcat(BorderSolid + BorderPadding, "13", 0, "let");
    FreeOfConcat(BorderSolid + BorderPadding + "13", PxEnd, 0, "let");
  }

  /** No position of the block of rule 3 after its first can begin `w`, when
      none of its pieces can. */
  lemma Block3Free(w: string)
    requires FreeOf(LetterSpacing, 1, w) && FreeOf("  ", 0, w) && FreeOf(BorderSolid, 0, w)
    requires FreeOf(BorderPadding, 0, w) && FreeOf("20", 0, w) && FreeOf(PxEnd, 0, w)
    ensures FreeOf(Block3, 1, w)
  {
    FreeOfPieces(LetterSpacing, "  ", BorderSolid, BorderPadding, "20", PxEnd, 1, w);
  }

  lemma Block3FreeOfLet()
    ensures FreeOf(Block3, 1, "let")
  {
    ShortPieceFacts();
    LetterSpacingNoLet();
    BorderSolidNoLet();
    BorderPaddingNoLet();
    FreeOfTriple(LetterSpacing, 1, "let");
    FreeOfTriple("  ", 0, "let");
    FreeOfTriple(BorderSolid, 0, "let");
    FreeOfTriple(BorderPadding, 0, "let");
    FreeOfTriple("20", 0, "let");
    FreeOfTriple(PxEnd, 0, "let");
    Block3Free("let");
  }

  lemma Block3FreeOfTags()
    ensures FreeOf(Block3, 1, "<td") && FreeOf(Block3, 1, "<di")
  {
    ShortPieceFacts();
    LetterSpacingNoTd();
    BorderSolidNoTd();
    BorderPaddingNoTd();
    FreeOfTriple(LetterSpacing, 1, "<td");
    FreeOfTriple("  ", 0, "<td");
    FreeOfTriple(BorderSolid, 0, "<td");
    FreeOfTriple(BorderPadding, 0, "<td");
    FreeOfTriple("20", 0, "<td");
    FreeOfTriple(PxEnd, 0, "<td");
    Block3Free("<td");
    LetterSpacingNoDiv();
    BorderSolidNoDiv();
    BorderPaddingNoDiv();
    FreeOfTriple(LetterSpacing, 1, "<di");
    FreeOfTriple("  ", 0, "<di");
    FreeOfTriple(BorderSolid, 0, "<di");
    FreeOfTriple(BorderPadding, 0, "<di");
    FreeOfTriple("20", 0, "<di");
    FreeOfTriple(PxEnd, 0, "<di");
    Block3Free("<di");
  }

  /** Every match of rule 3 becomes Block3. */
  lemma Rule3Block()
    ensures ConstantBlock(Rule3, Block3)
  {
    RulesWellFormed();
    forall m | IsMatchText(Rule3, m) ensures Replacement(Rule3, m) == Block3 {
      assert m[..|LetterSpacing|] == LetterSpacing;
    }
  }

  /** Rule 3 does not match at the start of its own block: the block has
      exactly two spaces and then `20px;` where the pattern needs `13px;`. */
  lemma Rule3NotAtBlock(x: string)
    ensures MatchAt(Rule3, Block3 + x).None?
  {
    var border := BorderSolid + BorderPadding;
    var after := border + "20" + (PxEnd + x);
    Regroup(LetterSpacing, "  ", BorderSolid, BorderPadding, "20", PxEnd, x);
    assert after[0] == BorderSolid[0] == 'b';
    DigitsDiffer(border, "13", "20", PxEnd, PxEnd + x);
    RulesWellFormed();
    TailMismatch(Rule3, "  ", after);
  }

  lemma Regroup(a: string, b: string, c: string, d: string, e: string, f: string, x: string)
    ensures a + (b + c + d + e + f) + x == a + b + ((c + d) + e + (f + x))
  {
  }

  lemma DigitsDiffer(p: string, d: string, e: string, s: string, t: string)
    requires |d| > 0 && |e| > 0 && d[0] != e[0]
    ensures !(p + d + s <= p + e + t)
  {
    assert (p + d + s)[|p|] == d[0];
    assert (p + e + t)[|p|] == e[0];
  }

  lemma Rule3Facts()
    ensures ConstantBlock(Rule3, Block3) && NoMatchInBlock(Rule3, Block3) && MatchesFreeOf(Rule3, Block3)
    ensures MatchesHaveNoTwenty(Rule3)
  {
    RulesWellFormed();
    Rule3Block();
    Block3FreeOfLet();
    forall x ensures MatchAt(Rule3, Block3 + x).None? {
      Rule3NotAtBlock(x);
    }
    NoMatchInBlockBy(Rule3, Block3, "let");
    LetterSpacingNoLet();
    FreeOfTriple(LetterSpacing, 1, "let");
    BorderTailFacts();
    MatchesFreeOfBy(Rule3, Block3, "let");
    LetterSpacingNoTwenty();
    NoTwentyMatches(Rule3);
  }

  /** Rule 3 creates no match of rules 1 and 2: its block holds no `<`, and
      `let` cannot start inside their matches. */
  lemma EarlyRulesBlockSafe()
    ensures NoMatchInBlock(Rule1, Block3) && MatchesFreeOf(Rule1, Block3)
    ensures NoMatchInBlock(Rule2, Block3) && MatchesFreeOf(Rule2, Block3)
  {
    RulesWellFormed();
    Block3FreeOfTags();
    forall x ensures MatchAt(Rule1, Block3 + x).None? && MatchAt(Rule2, Block3 + x).None? {
      assert (Block3 + x)[0] == 'l';
    }
    NoMatchInBlockBy(Rule1, Block3, "<td");
    NoMatchInBlockBy(Rule2, Block3, "<di");
    CellHeadFacts();
    TopBorderCommentNoLet();
    FreeOfTriple(TopBorderComment, 0, "let");
    MatchesFreeOfBy(Rule1, Block3, "let");
    RuleDivFacts();
    MatchesFreeOfBy(Rule2, Block3, "let");
  }
}
