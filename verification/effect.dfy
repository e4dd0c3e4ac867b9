/**
 What each substitution of the body-template spacing script does to one
 match: which texts it matches, and what it puts in their place.  Rules 1
 and 4 change 13px to 20px and re-emit the whitespace and the following
 literal verbatim; rule 3 keeps `letter-spacing: -0.3px;`, collapses the
 whitespace to exactly two spaces and changes 13px to 20px; rules 5 and 6
 keep `text-align: right;` and change only the value; rules 2 and 8
 replace one literal by another.
 */
module Effect {
  import opened Text
  import opened Pattern
  import opened Table

  /** A replacement `x\\1`, with group 1 being the gap and the tail. */
  lemma TextThenGroupParts(r: Rule, x: string, m: string)
    requires r.template == TextThenGroup(x) && IsMatchText(r, m)
    ensures m == r.head + MatchedGap(r, m) + r.tail
    ensures GapAdmits(r.gap, MatchedGap(r, m))
    ensures Replacement(r, m) == x + MatchedGap(r, m) + r.tail
  {
    MatchTextParts(r, m);
    var g := MatchedGap(r, m);
    DropHead(r.head, g, r.tail);
  }

  lemma DropHead(h: string, g: string, t: string)
    ensures (h + g + t)[|h|..] == g + t
  {
  }

  lemma Flatten(a: string, g: string, b: string, c: string, d: string, e: string)
    ensures a + g + (b + c + d + e) == a + g + b + c + d + e
    ensures a + (g + b + c + d + e) == a + g + b + c + d + e
  {
  }

  /** A replacement `\\1x`, with group 1 being the head. */
  lemma GroupThenTextParts(r: Rule, x: string, m: string)
    requires r.template == GroupThenText(x) && IsMatchText(r, m)
    ensures m == r.head + MatchedGap(r, m) + r.tail
    ensures GapAdmits(r.gap, MatchedGap(r, m))
    ensures Replacement(r, m) == r.head + x
  {
    MatchTextParts(r, m);
  }

  // Rules 1 and 4: the value 13 becomes 20, the whitespace and the literal
  // after it are re-emitted as they were.

  lemma {:induction false} Rule1Effect(m: string)
    requires IsMatchText(Rule1, m)
    ensures var g := MatchedGap(Rule1, m);
            && AllSpace(g)
            && m == CellOpen + "13" + AttrEnd + g + TopBorderComment
            && Replacement(Rule1, m) == CellOpen + "20" + AttrEnd + g + TopBorderComment
  {
    TextThenGroupParts(Rule1, CellOpen + "20" + AttrEnd, m);
  }

  /** Any whitespace at all, none included, may separate the cell from the comment. */
  lemma Rule1Matches(g: string)
    requires AllSpace(g)
    ensures IsMatchText(Rule1, CellOpen + "13" + AttrEnd + g + TopBorderComment)
    ensures MatchedGap(Rule1, CellOpen + "13" + AttrEnd + g + TopBorderComment) == g
  {
    RulesWellFormed();
    MatchOfParts(Rule1, g);
  }

  lemma Rule4Effect(m: string)
    requires IsMatchText(Rule4, m)
    ensures var g := MatchedGap(Rule4, m);
            && AllSpace(g)
            && m == CellOpen + "13" + AttrEnd + g + FontDiv
            && Replacement(Rule4, m) == CellOpen + "20" + AttrEnd + g + FontDiv
  {
    TextThenGroupParts(Rule4, CellOpen + "20" + AttrEnd, m);
  }

  lemma Rule4Matches(g: string)
    requires AllSpace(g)
    ensures IsMatchText(Rule4, CellOpen + "13" + AttrEnd + g + FontDiv)
    ensures MatchedGap(Rule4, CellOpen + "13" + AttrEnd + g + FontDiv) == g
  {
    RulesWellFormed();
    MatchOfParts(Rule4, g);
  }

  // Rule 3: the whitespace run, whatever it was, becomes two spaces.

  lemma Rule3Effect(m: string)
    requires IsMatchText(Rule3, m)
    ensures var g := MatchedGap(Rule3, m);
            && |g| >= 1 && AllSpace(g)
            && m == LetterSpacing + g + BorderSolid + BorderPadding + "13" + PxEnd
            && Replacement(Rule3, m) == LetterSpacing + "  " + BorderSolid + BorderPadding + "20" + PxEnd
  {
    GroupThenTextParts(Rule3, Rule3Text, m);
    var g := MatchedGap(Rule3, m);
    Flatten(LetterSpacing, g, BorderSolid, BorderPadding, "13", PxEnd);
    Flatten(LetterSpacing, "  ", BorderSolid, BorderPadding, "20", PxEnd);
  }

  /** At least one whitespace character must separate the two declarations. */
  lemma {:induction false} Rule3Matches(g: string)
    requires AllSpace(g) && |g| >= 1
    ensures IsMatchText(Rule3, LetterSpacing + g + (BorderSolid + BorderPadding + "13" + PxEnd))
    ensures MatchedGap(Rule3, LetterSpacing + g + (BorderSolid + BorderPadding + "13" + PxEnd)) == g
  {
    RulesWellFormed();
    MatchOfParts(Rule3, g);
  }

  // Rules 5 and 6: `text-align: right;` is kept and only the value changes.

  lemma Rule5Effect(m: string)
    ensures IsMatchText(Rule5, m) <==> m == RightAlign + MarginBottom + "13" + AttrEnd
    ensures IsMatchText(Rule5, m) ==> Replacement(Rule5, m) == RightAlign + MarginBottom + "20" + AttrEnd
  {
    RulesWellFormed();
    var t := RightAlign + (MarginBottom + "13" + AttrEnd);
    assert t == RightAlign + MarginBottom + "13" + AttrEnd;
    MatchOfParts(Rule5, []);
    assert Rule5.head + [] + Rule5.tail == t;
    if IsMatchText(Rule5, m) {
      AdjacentMatchText(Rule5, m);
      GroupThenTextParts(Rule5, MarginBottom + "20" + AttrEnd, m);
    }
  }

  lemma Rule6Effect(m: string)
    ensures IsMatchText(Rule6, m) <==> m == RightAlign + PaddingBottom + "10" + AttrEnd
    ensures IsMatchText(Rule6, m) ==> Replacement(Rule6, m) == RightAlign + PaddingBottom + "20" + AttrEnd
  {
    RulesWellFormed();
    var t := RightAlign + (PaddingBottom + "10" + AttrEnd);
    assert t == RightAlign + PaddingBottom + "10" + AttrEnd;
    MatchOfParts(Rule6, []);
    assert Rule6.head + [] + Rule6.tail == t;
    if IsMatchText(Rule6, m) {
      AdjacentMatchText(Rule6, m);
      GroupThenTextParts(Rule6, PaddingBottom + "20" + AttrEnd, m);
    }
  }

  // Rules 2 and 8: one literal for another.

  lemma Rule2Effect(m: string)
    ensures IsMatchText(Rule2, m) <==> m == RuleDivOpen + RuleDivMid + "13" + RuleDivClose
    ensures IsMatchText(Rule2, m) ==> Replacement(Rule2, m) == RuleDivOpen + RuleDivMid + "20" + RuleDivClose
  {
    RulesWellFormed();
    MatchOfParts(Rule2, []);
    assert Rule2.head + [] + Rule2.tail == Rule2.head;
    if IsMatchText(Rule2, m) {
      AdjacentMatchText(Rule2, m);
      assert m == Rule2.head + [];
    }
  }

  lemma Rule8Effect(m: string)
    ensures IsMatchText(Rule8, m) <==> m == CellOpen + "24" + AttrEnd
    ensures IsMatchText(Rule8, m) ==> Replacement(Rule8, m) == CellOpen + "20" + AttrEnd
  {
    RulesWellFormed();
    MatchOfParts(Rule8, []);
    assert Rule8.head + [] + Rule8.tail == Rule8.head;
    if IsMatchText(Rule8, m) {
      AdjacentMatchText(Rule8, m);
      assert m == Rule8.head + [];
    }
  }
}
