/**
 The seven substitutions of the body-template spacing script, in the order
 the script applies them (rule 7 of the script is a comment only), and the
 facts about their literal texts that the pipeline proofs need.

 Long literals are assembled from short named pieces, so that facts about
 them can be established piece by piece.
 */
module Table {
  import opened Text
  import opened Pattern

  // Pieces of the literal texts.

  /** `<td style="padding-top: `, before the value in rules 1, 4 and 8. */
  const CellOpen := "<td style=\"padding-top: "
  /** `px;">`, closing a style attribute and its tag. */
  const AttrEnd := "px;\">"
  const TopBorderComment := "<!-- Top border above subject -->"
  const FontDiv := "<div style=\"font-family"
  /** `<div style="border-top: 1px solid #000000; margin-bottom: ` in two pieces. */
  const RuleDivOpen := "<div style=\"border-top: 1px solid "
  const RuleDivMid := "#000000; margin-bottom: "
  const RuleDivClose := "px;\"></div>"
  const LetterSpacing := "letter-spacing: -0.3px;"
  /** `border-bottom: 1px solid #000000; padding-bottom: ` in two pieces. */
  const BorderSolid := "border-bottom: 1px solid "
  const BorderPadding := "#000000; padding-bottom: "
  const PxEnd := "px;"
  const RightAlign := "text-align: right;"
  const MarginBottom := " margin-bottom: "
  const PaddingBottom := " padding-bottom: "

  /** The text rule 3 puts after the kept `letter-spacing: -0.3px;`. */
  const Rule3Text := "  " + BorderSolid + BorderPadding + "20" + PxEnd
  /** What every match of rule 3 becomes. */
  const Block3 := LetterSpacing + Rule3Text

  // The rules, in the script's order.

  /** `<td style="padding-top: 13px;">(\s*<!-- Top border above subject -->)`
      becomes `<td style="padding-top: 20px;">\1`. */
  const Rule1 := Rule(CellOpen + "13" + AttrEnd, AnySpaces, TopBorderComment,
                      TextThenGroup(CellOpen + "20" + AttrEnd))
  /** The `border-top` rule div with `margin-bottom: 13px` becomes the one
      with `20px`. */
  const Rule2 := Rule(RuleDivOpen + RuleDivMid + "13" + RuleDivClose, Adjacent, [],
                      Fixed(RuleDivOpen + RuleDivMid + "20" + RuleDivClose))
  /** `(letter-spacing: -0.3px;)\s+(border-bottom: … padding-bottom: 13px;)`
      becomes `\1  border-bottom: … padding-bottom: 20px;`. */
  const Rule3 := Rule(LetterSpacing, SomeSpaces, BorderSolid + BorderPadding + "13" + PxEnd,
                      GroupThenText(Rule3Text))
  /** `<td style="padding-top: 13px;">(\s*<div style="font-family)` becomes
      `<td style="padding-top: 20px;">\1`. */
  const Rule4 := Rule(CellOpen + "13" + AttrEnd, AnySpaces, FontDiv,
                      TextThenGroup(CellOpen + "20" + AttrEnd))
  /** `(text-align: right;) margin-bottom: 13px;">` becomes
      `\1 margin-bottom: 20px;">`. */
  const Rule5 := Rule(RightAlign, Adjacent, MarginBottom + "13" + AttrEnd,
                      GroupThenText(MarginBottom + "20" + AttrEnd))
  /** `(text-align: right;) padding-bottom: 10px;">` becomes
      `\1 padding-bottom: 20px;">`. */
  const Rule6 := Rule(RightAlign, Adjacent, PaddingBottom + "10" + AttrEnd,
                      GroupThenText(PaddingBottom + "20" + AttrEnd))
  /** `<td style="padding-top: 24px;">` becomes `<td style="padding-top: 20px;">`. */
  const Rule8 := Rule(CellOpen + "24" + AttrEnd, Adjacent, [],
                      Fixed(CellOpen + "20" + AttrEnd))

  // Facts about the pieces, each read off the literal: no "20" pair
  // (NoTwenty), and no position where the opening `<td`, `<di`, `let` or `tex`
  // of another text could start (NoTd, NoDiv, NoLet, NoTex).  Each fact has
  // a lemma of its own: proved together, the facts about one long literal
  // cost the solver several times as much as proved apart.
  lemma ShortPieceFacts()
    ensures NoTwenty(AttrEnd) && NoTwenty(PxEnd) && NoTwenty("13") && NoTwenty("10") && NoTwenty("24")
    ensures NoTriple(AttrEnd, 0, "<td") && NoTriple(AttrEnd, 0, "let") && NoTriple(AttrEnd, 0, "tex")
    ensures NoTriple("13", 0, "<td") && NoTriple("13", 0, "let") && NoTriple("13", 0, "<di")
    ensures NoTriple("13", 0, "tex") && NoTriple("10", 0, "tex") && NoTriple("24", 0, "<td")
    ensures NoTriple(PxEnd, 0, "let") && NoTriple("  ", 0, "<td") && NoTriple("  ", 0, "<di")
    ensures NoTriple("  ", 0, "let") && NoTriple("20", 0, "<td") && NoTriple("20", 0, "<di")
    ensures NoTriple("20", 0, "let") && NoTriple(PxEnd, 0, "<td") && NoTriple(PxEnd, 0, "<di")
  {
  }

  // `<td style="padding-top: `

  lemma CellOpenNoTwenty()
    ensures NoTwenty(CellOpen)
  {
  }

  lemma CellOpenNoTd()
    ensures NoTriple(CellOpen, 1, "<td")
  {
  }

  lemma CellOpenNoLet()
    ensures NoTriple(CellOpen, 1, "let")
  {
  }

  // `<!-- Top border above subject -->`

  lemma TopBorderCommentNoTwenty()
    ensures NoTwenty(TopBorderComment)
  {
  }

  lemma TopBorderCommentNoTd()
    ensures NoTriple(TopBorderComment, 0, "<td")
  {
  }

  lemma TopBorderCommentNoLet()
    ensures NoTriple(TopBorderComment, 0, "let")
  {
  }

  // `<div style="font-family`

  lemma FontDivNoTwenty()
    ensures NoTwenty(FontDiv)
  {
  }

  lemma FontDivNoTd()
    ensures NoTriple(FontDiv, 0, "<td")
  {
  }

  // `<div style="border-top: 1px solid `

  lemma RuleDivOpenNoTwenty()
    ensures NoTwenty(RuleDivOpen)
  {
  }

  lemma RuleDivOpenNoDiv()
    ensures NoTriple(RuleDivOpen, 1, "<di")
  {
  }

  lemma RuleDivOpenNoLet()
    ensures NoTriple(RuleDivOpen, 1, "let")
  {
  }

  // `#000000; margin-bottom: `

  lemma RuleDivMidNoTwenty()
    ensures NoTwenty(RuleDivMid)
  {
  }

  lemma RuleDivMidNoDiv()
    ensures NoTriple(RuleDivMid, 0, "<di")
  {
  }

  lemma RuleDivMidNoLet()
    ensures NoTriple(RuleDivMid, 0, "let")
  {
  }

  // `px;"></div>`

  lemma RuleDivCloseNoTwenty()
    ensures NoTwenty(RuleDivClose)
  {
  }

  lemma RuleDivCloseNoDiv()
    ensures NoTriple(RuleDivClose, 0, "<di")
  {
  }

  lemma RuleDivCloseNoLet()
    ensures NoTriple(RuleDivClose, 0, "let")
  {
  }

  // `letter-spacing: -0.3px;`

  lemma LetterSpacingNoTwenty()
    ensures NoTwenty(LetterSpacing)
  {
  }

  lemma LetterSpacingNoTd()
    ensures NoTriple(LetterSpacing, 1, "<td")
  {
  }

  lemma LetterSpacingNoDiv()
    ensures NoTriple(LetterSpacing, 1, "<di")
  {
  }

  lemma LetterSpacingNoLet()
    ensures NoTriple(LetterSpacing, 1, "let")
  {
  }

  // `border-bottom: 1px solid `

  lemma BorderSolidNoTwenty()
    ensures NoTwenty(BorderSolid)
  {
  }

  lemma BorderSolidNoTd()
    ensures NoTriple(BorderSolid, 0, "<td")
  {
  }

  lemma BorderSolidNoDiv()
    ensures NoTriple(BorderSolid, 0, "<di")
  {
  }

  lemma BorderSolidNoLet()
    ensures NoTriple(BorderSolid, 0, "let")
  {
  }

  // `#000000; padding-bottom: `

  lemma BorderPaddingNoTwenty()
    ensures NoTwenty(BorderPadding)
  {
  }

  lemma BorderPaddingNoTd()
    ensures NoTriple(BorderPadding, 0, "<td")
  {
  }

  lemma BorderPaddingNoDiv()
    ensures NoTriple(BorderPadding, 0, "<di")
  {
  }

  lemma BorderPaddingNoLet()
    ensures NoTriple(BorderPadding, 0, "let")
  {
  }

  // `text-align: right;`

  lemma RightAlignNoTwenty()
    ensures NoTwenty(RightAlign)
  {
  }

  lemma RightAlignNoTex()
    ensures NoTriple(RightAlign, 1, "tex")
  {
  }

  // ` margin-bottom: `

  lemma MarginBottomNoTwenty()
    ensures NoTwenty(MarginBottom)
  {
  }

  lemma MarginBottomNoTex()
    ensures NoTriple(MarginBottom, 0, "tex")
  {
  }

  // ` padding-bottom: `

  lemma PaddingBottomNoTwenty()
    ensures NoTwenty(PaddingBottom)
  {
  }

  lemma PaddingBottomNoTex()
    ensures NoTriple(PaddingBottom, 0, "tex")
  {
  }

  lemma RulesWellFormed()
    ensures WellFormed(Rule1) && WellFormed(Rule2) && WellFormed(Rule3) && WellFormed(Rule4)
    ensures WellFormed(Rule5) && WellFormed(Rule6) && WellFormed(Rule8)
  {
  }

  // The rules spelled out in full, as the script writes its patterns and
  // replacements: the head is the text before the whitespace gap (or the
  // whole literal), the tail the text after it, and a `\1` in the
  // replacement stands for the gap and tail (rules 1 and 4) or for the head
  // (rules 3, 5 and 6).

  lemma Rule1AsWritten()
    ensures Rule1 == Rule("<td style=\"padding-top: 13px;\">", AnySpaces,
                          "<!-- Top border above subject -->",
                          TextThenGroup("<td style=\"padding-top: 20px;\">"))
  {
    assert CellOpen + "13" + AttrEnd == "<td style=\"padding-top: 13px;\">";
    assert CellOpen + "20" + AttrEnd == "<td style=\"padding-top: 20px;\">";
  }

  /** The opening of rule 2's divider, up to its value. */
  lemma RuleDivPrefix()
    ensures RuleDivOpen + RuleDivMid == "<div style=\"border-top: 1px solid #000000; margin-bottom: "
  {
  }

  lemma Rule2AsWritten()
    ensures Rule2 == Rule("<div style=\"border-top: 1px solid #000000; margin-bottom: 13px;\"></div>",
                          Adjacent, "",
                          Fixed("<div style=\"border-top: 1px solid #000000; margin-bottom: 20px;\"></div>"))
  {
    RuleDivPrefix();
    var x := "<div style=\"border-top: 1px solid #000000; margin-bottom: ";
    assert x + "13" + RuleDivClose
        == "<div style=\"border-top: 1px solid #000000; margin-bottom: 13px;\"></div>";
    assert x + "20" + RuleDivClose
        == "<div style=\"border-top: 1px solid #000000; margin-bottom: 20px;\"></div>";
  }

  /** The border declaration of rule 3, up to its value. */
  lemma BorderPrefix()
    ensures BorderSolid + BorderPadding == "border-bottom: 1px solid #000000; padding-bottom: "
  {
  }

  lemma Rule3AsWritten()
    ensures Rule3 == Rule("letter-spacing: -0.3px;", SomeSpaces,
                          "border-bottom: 1px solid #000000; padding-bottom: 13px;",
                          GroupThenText("  " + "border-bottom: 1px solid #000000; padding-bottom: 20px;"))
  {
    BorderPrefix();
    var x := "border-bottom: 1px solid #000000; padding-bottom: ";
    assert x + "13" + PxEnd == "border-bottom: 1px solid #000000; padding-bottom: 13px;";
    assert x + "20" + PxEnd == "border-bottom: 1px solid #000000; padding-bottom: 20px;";
    assert Rule3Text == "  " + (BorderSolid + BorderPadding + "20" + PxEnd);
  }

  lemma Rule4AsWritten()
    ensures Rule4 == Rule("<td style=\"padding-top: 13px;\">", AnySpaces,
                          "<div style=\"font-family",
                          TextThenGroup("<td style=\"padding-top: 20px;\">"))
  {
    assert CellOpen + "13" + AttrEnd == "<td style=\"padding-top: 13px;\">";
    assert CellOpen + "20" + AttrEnd == "<td style=\"padding-top: 20px;\">";
  }

  lemma Rule5AsWritten()
    ensures Rule5 == Rule("text-align: right;", Adjacent, " margin-bottom: 13px;\">",
                          GroupThenText(" margin-bottom: 20px;\">"))
  {
    assert MarginBottom + "13" + AttrEnd == " margin-bottom: 13px;\">";
    assert MarginBottom + "20" + AttrEnd == " margin-bottom: 20px;\">";
  }

  lemma Rule6AsWritten()
    ensures Rule6 == Rule("text-align: right;", Adjacent, " padding-bottom: 10px;\">",
                          GroupThenText(" padding-bottom: 20px;\">"))
  {
    assert PaddingBottom + "10" + AttrEnd == " padding-bottom: 10px;\">";
    assert PaddingBottom + "20" + AttrEnd == " padding-bottom: 20px;\">";
  }

  lemma Rule8AsWritten()
    ensures Rule8 == Rule("<td style=\"padding-top: 24px;\">", Adjacent, "",
                          Fixed("<td style=\"padding-top: 20px;\">"))
  {
    assert CellOpen + "24" + AttrEnd == "<td style=\"padding-top: 24px;\">";
    assert CellOpen + "20" + AttrEnd == "<td style=\"padding-top: 20px;\">";
  }
}
