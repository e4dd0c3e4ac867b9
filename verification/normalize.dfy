/**
 The spacing pipeline of the body-template script: the seven substitutions
 run one after another over the content of a template, and the script's
 decision whether to write the file back.
 */
module Normalize {
  import opened Text
  import opened Pattern
  import opened Rewrite
  import opened Table
  import opened RuleFacts

  /** The substitutions in the order the script runs them. */
  const Rules: seq<Rule> := [Rule1, Rule2, Rule3, Rule4, Rule5, Rule6, Rule8]

  predicate AllWellFormed(rules: seq<Rule>) {
    forall i :: 0 <= i < |rules| ==> WellFormed(rules[i])
  }

  /** `content = re.sub(...)` for each rule in turn, first to last. */
  function Apply(rules: seq<Rule>, content: string): string
    requires AllWellFormed(rules)
    decreases |rules|
  {
    if |rules| == 0 then content
    else Sub(rules[|rules| - 1], Apply(rules[..|rules| - 1], content))
  }

  /** No match of any rule of `rules` occurs anywhere in `s`. */
  predicate NoneOf(rules: seq<Rule>, s: string) {
    forall i :: 0 <= i < |rules| ==> Absent(rules[i], s)
  }

  /** Each rule removes its own matches and creates no match of a rule that
      ran before it. */
  ghost predicate Ordered(rules: seq<Rule>) {
    && (forall i :: 0 <= i < |rules| ==> Clears(rules[i]))
    && (forall i, j :: 0 <= j < i < |rules| ==> Keeps(rules[i], rules[j]))
  }

  lemma AllWellFormedPrefix(rules: seq<Rule>, n: nat)
    requires AllWellFormed(rules) && n <= |rules|
    ensures AllWellFormed(rules[..n])
  {
    assert forall i :: 0 <= i < n ==> rules[..n][i] == rules[i];
  }

  /** A pipeline of ordered rules leaves no match of any of them. */
  lemma {:induction false} ApplyLeavesNone(rules: seq<Rule>, c: string)
    requires AllWellFormed(rules) && Ordered(rules)
    ensures NoneOf(rules, Apply(rules, c))
  {
    assert rules[..|rules|] == rules;
    forall j | 0 <= j < |rules| ensures Absent(rules[j], Apply(rules, c)) {
      PrefixLeavesNone(rules, |rules|, c, j);
    }
  }

  /** After the first `n` rules of an ordered pipeline, no match of rule `j`
      (one of those `n`) is left. */
  lemma {:induction false} PrefixLeavesNone(rules: seq<Rule>, n: nat, c: string, j: nat)
    requires AllWellFormed(rules) && Ordered(rules)
    requires j < n <= |rules|
    ensures AllWellFormed(rules[..n]) && Absent(rules[j], Apply(rules[..n], c))
    decreases n
  {
    AllWellFormedPrefix(rules, n);
    AllWellFormedPrefix(rules, n - 1);
    var q := rules[n - 1];
    assert rules[..n][..n - 1] == rules[..n - 1];
    assert rules[..n][n - 1] == q;
    var s := Apply(rules[..n - 1], c);
    assert Apply(rules[..n], c) == Sub(q, s);
    if j == n - 1 {
      assert Clears(q);
    } else {
      PrefixLeavesNone(rules, n - 1, c, j);
      assert Keeps(q, rules[j]);
    }
  }

  /** A pipeline leaves content with no match of its rules as it is. */
  lemma {:induction false} ApplyKeepsClean(rules: seq<Rule>, s: string)
    requires AllWellFormed(rules) && NoneOf(rules, s)
    ensures Apply(rules, s) == s
    decreases |rules|
  {
    if |rules| > 0 {
      var n := |rules| - 1;
      var init := rules[..n];
      assert forall i :: 0 <= i < n ==> init[i] == rules[i];
      ApplyKeepsClean(init, s);
      SubWithoutMatch(rules[n], s);
    }
  }

  // The script's rules are ordered.

  /** Where the digit pair of each digit rule sits in its matches. */
  function DigitOffset(i: nat): nat {
    if i == 1 then |RuleDivOpen + RuleDivMid|
    else if i == 4 then |RightAlign| + |MarginBottom|
    else if i == 5 then |RightAlign| + |PaddingBottom|
    else |CellOpen|
  }

  /** Every rule but rule 3 is a digit rule that removes its own matches. */
  lemma {:induction false} DigitRuleAt(i: nat)
    requires i < |Rules| && i != 2
    ensures DigitRuleClearing(Rules[i], DigitOffset(i))
  {
    if i == 0 {
      Rule1Facts();
    } else if i == 1 {
      Rule2Facts();
    } else if i == 3 {
      Rule4Facts();
    } else if i == 4 {
      Rule5Facts();
    } else if i == 5 {
      Rule6Facts();
    } else {
      Rule8Facts();
    }
  }

  lemma {:induction false} NoTwentyAt(j: nat)
    requires j < |Rules|
    ensures WellFormed(Rules[j]) && MatchesHaveNoTwenty(Rules[j])
  {
    RulesWellFormed();
    if j == 2 {
      Rule3Facts();
    } else {
      DigitRuleAt(j);
    }
  }

  lemma {:induction false} ClearsAt(i: nat)
    requires i < |Rules|
    ensures Clears(Rules[i])
  {
    if i == 2 {
      Rule3Facts();
      BlockRuleClears(Rule3, Block3);
    } else {
      DigitRuleAt(i);
      DigitRuleClears(Rules[i], DigitOffset(i));
    }
  }

  lemma {:induction false} KeepsAt(i: nat, j: nat)
    requires j < i < |Rules|
    ensures Keeps(Rules[i], Rules[j])
  {
    if i == 2 {
      Rule3Facts();
      EarlyRulesBlockSafe();
      RulesWellFormed();
      BlockRuleKeeps(Rule3, Block3, Rules[j]);
    } else {
      DigitRuleAt(i);
      NoTwentyAt(j);
      DigitRuleKeeps(Rules[i], DigitOffset(i), Rules[j]);
    }
  }

  lemma {:induction false} RulesOrdered()
    ensures AllWellFormed(Rules) && Ordered(Rules)
  {
    RulesWellFormed();
    forall i | 0 <= i < |Rules| ensures Clears(Rules[i]) {
      ClearsAt(i);
    }
    forall i, j | 0 <= j < i < |Rules| ensures Keeps(Rules[i], Rules[j]) {
      KeepsAt(i, j);
    }
  }

  /** Every rule but rule 3 rewrites each of its matches in place: the
      content keeps its length, no character outside a match changes, and no
      match of the rule is left. */
  lemma {:induction false} DigitRulePass(i: nat, s: string)
    requires i < |Rules| && i != 2
    ensures WellFormed(Rules[i])
    ensures |Sub(Rules[i], s)| == |s|
    ensures forall j :: 0 <= j < |s| && !Covered(Rules[i], s, j) ==> Sub(Rules[i], s)[j] == s[j]
    ensures Absent(Rules[i], Sub(Rules[i], s))
  {
    DigitRuleAt(i);
    SubKeepsUncovered(Rules[i], DigitOffset(i), s);
    ClearsAt(i);
  }

  /** Each of those rules rewrites every one of its matches in the content,
      not only the first: wherever a match starts, the output holds, at the
      same position, the replacement of that match. */
  lemma {:induction false} DigitRuleRewritesEach(i: nat, s: string, p: nat, len: nat)
    requires i < |Rules| && i != 2
    requires p <= |s| && MatchAt(Rules[i], s[p..]) == Some(len)
    ensures WellFormed(Rules[i]) && p + len <= |s|
    ensures |Sub(Rules[i], s)| == |s|
    ensures Sub(Rules[i], s)[p..p + len] == Replacement(Rules[i], s[p..p + len])
  {
    DigitRuleAt(i);
    SubRewritesMatch(Rules[i], DigitOffset(i), s, p, len);
  }

  /** Every `<td style="padding-top: 24px;">` in the content, wherever it
      stands, becomes `<td style="padding-top: 20px;">` under rule 8. */
  lemma Rule8EveryCell(s: string, p: nat)
    requires p <= |s| && Rule8.head <= s[p..]
    ensures WellFormed(Rule8) && p + |Rule8.head| <= |s| && |Sub(Rule8, s)| == |s|
    ensures Sub(Rule8, s)[p..p + |Rule8.head|] == CellOpen + "20" + AttrEnd
  {
    RulesWellFormed();
    LiteralMatch(Rule8, s[p..]);
    Rule8Facts();
    SubRewritesMatch(Rule8, |CellOpen|, s, p, |Rule8.head|);
  }

  /** Every 13px border-top divider in the content, wherever it stands,
      becomes the 20px divider under rule 2. */
  lemma Rule2EveryDivider(s: string, p: nat)
    requires p <= |s| && Rule2.head <= s[p..]
    ensures WellFormed(Rule2) && p + |Rule2.head| <= |s| && |Sub(Rule2, s)| == |s|
    ensures Sub(Rule2, s)[p..p + |Rule2.head|] == RuleDivOpen + RuleDivMid + "20" + RuleDivClose
  {
    RulesWellFormed();
    LiteralMatch(Rule2, s[p..]);
    Rule2Facts();
    SubRewritesMatch(Rule2, |RuleDivOpen + RuleDivMid|, s, p, |Rule2.head|);
  }

  /** A rule without gap or tail matches wherever its head occurs. */
  lemma LiteralMatch(r: Rule, s: string)
    requires WellFormed(r) && r.gap == Adjacent && r.tail == []
    requires r.head <= s
    ensures MatchAt(r, s) == Some(|r.head|)
  {
    assert r.head + [] + [] == r.head;
    MatchAtComplete(r, s, []);
  }

  /** Rule 3 copies the content up to its first match, puts the rule's block
      there, and leaves no match of itself behind. */
  lemma {:induction false} Rule3Pass(s: string, k: nat, len: nat)
    requires k <= |s| && AbsentBefore(Rule3, s, k) && MatchAt(Rule3, s[k..]) == Some(len)
    ensures WellFormed(Rule3) && k + len <= |s|
    ensures Sub(Rule3, s) == s[..k] + Block3 + Sub(Rule3, s[k + len..])
    ensures Absent(Rule3, Sub(Rule3, s))
  {
    RulesWellFormed();
    Rule3Facts();
    BlockAt(Rule3, Block3, s, k, len);
    BlockRuleClears(Rule3, Block3);
  }

  /** The content after the script's seven substitutions. */
  function Normalize(content: string): string {
    RulesOrdered();
    Apply(Rules, content)
  }

  /** No match of any rule is left in the script's output: no 24px cell, no
      13px divider, and so on. */
  lemma {:induction false} NormalizeLeavesNone(c: string)
    ensures NoneOf(Rules, Normalize(c))
  {
    RulesOrdered();
    ApplyLeavesNone(Rules, c);
  }

  /** Content with no match of any rule comes out identical. */
  lemma {:induction false} NormalizeKeepsClean(c: string)
    requires NoneOf(Rules, c)
    ensures Normalize(c) == c
  {
    RulesOrdered();
    ApplyKeepsClean(Rules, c);
  }

  /** Running the script a second time changes nothing. */
  lemma {:induction false} NormalizeIdempotent(c: string)
    ensures Normalize(Normalize(c)) == Normalize(c)
  {
    NormalizeLeavesNone(c);
    NormalizeKeepsClean(Normalize(c));
  }

  /** The content changes exactly when some pattern occurs in it. */
  lemma {:induction false} ChangedIffPattern(c: string)
    ensures Normalize(c) != c <==> !NoneOf(Rules, c)
  {
    NormalizeLeavesNone(c);
    if NoneOf(Rules, c) {
      NormalizeKeepsClean(c);
    }
  }

  /** What the script does with one template: write the new content back, or
      report that no change was made. */
  datatype Outcome = Updated(content: string) | NoChanges

  function Process(content: string): (o: Outcome)
    ensures o.Updated? <==> Normalize(content) != content
    ensures o.Updated? ==> o.content == Normalize(content)
    ensures o == NoChanges <==> NoneOf(Rules, content)
  {
    ChangedIffPattern(content);
    var n := Normalize(content);
    if n != content then Updated(n) else NoChanges
  }

  /** A second run over the script's own output reports no change. */
  lemma {:induction false} SecondRunNoChanges(c: string)
    ensures Process(Normalize(c)) == NoChanges
  {
    NormalizeLeavesNone(c);
  }
}
