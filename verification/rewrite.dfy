/**
 Why a substitution never leaves or creates matches.

 Two kinds of rule occur in the script.  A digit rule (rules 1, 2, 4, 5, 6
 and 8) rewrites every match by turning one two-digit value into "20" and
 keeping every other character, so its output has the input's length and
 differs from it only inside "20" pairs.  A constant-block rule (rule 3)
 replaces every match by one and the same text.  For each kind this module
 proves, from facts about the match texts alone, that Sub removes all
 matches of its own rule and creates no match of another rule.
 */
module Rewrite {
  import opened Text
  import opened Pattern

  /** Position `j` of `t` holds one of the two characters of a "20" pair. */
  predicate InTwenty(t: string, j: nat) {
    || (j + 1 < |t| && t[j] == '2' && t[j + 1] == '0')
    || (1 <= j < |t| && t[j - 1] == '2' && t[j] == '0')
  }

  /** `t` is `s` with some characters overwritten, each overwritten character
      being part of a "20" pair of `t`. */
  predicate DigitEdited(s: string, t: string) {
    |s| == |t| && forall j :: 0 <= j < |t| ==> t[j] == s[j] || InTwenty(t, j)
  }

  /** `m` with the two characters at `k` replaced by "20". */
  function SetTwenty(m: string, k: nat): (r: string)
    requires k + 2 <= |m|
    ensures |r| == |m| && r[k..k + 2] == "20"
    ensures forall j :: 0 <= j < |m| && j != k && j != k + 1 ==> r[j] == m[j]
  {
    m[..k] + "20" + m[k + 2..]
  }

  /** Every match of `r` is rewritten by setting its digit pair at `k` to "20",
      and that pair is never "20" already. */
  ghost predicate DigitRule(r: Rule, k: nat) {
    WellFormed(r) && forall m :: IsMatchText(r, m) ==> DigitMatch(r, k, m)
  }

  /** The match `m` of `r` has a digit pair other than "20" at `k`, and its
      replacement is `m` with that pair set to "20". */
  ghost predicate DigitMatch(r: Rule, k: nat, m: string) {
    && IsMatchText(r, m)
    && k + 2 <= |m|
    && m[k..k + 2] != "20"
    && Replacement(r, m) == SetTwenty(m, k)
  }

  /** No match of `r` contains, starts or ends a "20" pair. */
  ghost predicate MatchesHaveNoTwenty(r: Rule) {
    forall m :: IsMatchText(r, m) ==> NoTwenty(m)
  }

  /** No match of `r` can begin strictly inside another match of `r`. */
  ghost predicate SelfDisjoint(r: Rule) {
    forall m :: IsMatchText(r, m) ==> FreeOf(m, 1, r.head)
  }

  lemma SetTwentyEdited(m: string, k: nat)
    requires k + 2 <= |m|
    ensures DigitEdited(m, SetTwenty(m, k))
  {
    var t := SetTwenty(m, k);
    assert t[k] == '2' && t[k + 1] == '0';
    forall j | 0 <= j < |t| ensures t[j] == m[j] || InTwenty(t, j) {
      if j == k {
        assert InTwenty(t, j);
      } else if j == k + 1 {
        assert InTwenty(t, j);
      }
    }
  }

  lemma DigitEditedConcat(a: string, b: string, c: string, d: string)
    requires DigitEdited(a, b) && DigitEdited(c, d)
    ensures DigitEdited(a + c, b + d)
  {
    var s, t := a + c, b + d;
    forall j | 0 <= j < |t| ensures t[j] == s[j] || InTwenty(t, j) {
      if j < |b| {
        assert t[j] == b[j] && s[j] == a[j];
        if b[j] != a[j] {
          assert InTwenty(b, j);
          if j + 1 < |b| && b[j] == '2' && b[j + 1] == '0' {
            assert t[j + 1] == b[j + 1];
          } else {
            assert t[j - 1] == b[j - 1];
          }
        }
      } else {
        var i := j - |b|;
        assert t[j] == d[i] && s[j] == c[i];
        if d[i] != c[i] {
          assert InTwenty(d, i);
          if i + 1 < |d| && d[i] == '2' && d[i + 1] == '0' {
            assert t[j + 1] == d[i + 1];
          } else {
            assert t[j - 1] == d[i - 1];
          }
        }
      }
    }
  }

  /** What a digit rule does to the match at the start of `s`. */
  lemma DigitRuleMatch(q: Rule, k: nat, s: string, len: nat)
    requires DigitRule(q, k) && MatchAt(q, s) == Some(len)
    ensures IsMatchText(q, s[..len])
    ensures k + 2 <= len && s[..len][k..k + 2] != "20"
    ensures Replacement(q, s[..len]) == SetTwenty(s[..len], k)
  {
    assert s[..len][..len] == s[..len];
    MatchIsLocal(q, s, s[..len], len);
    assert DigitMatch(q, k, s[..len]);
  }

  /** The replacement of a digit rule's match is the match, digit-edited. */
  lemma DigitAtMatch(q: Rule, k: nat, s: string, len: nat)
    requires DigitRule(q, k) && MatchAt(q, s) == Some(len)
    ensures DigitEdited(s[..len], Replacement(q, s[..len]))
  {
    DigitRuleMatch(q, k, s, len);
    SetTwentyEdited(s[..len], k);
  }

  /** A digit rule keeps the length of the text and changes nothing but
      characters of the "20" pairs it writes. */
  lemma {:induction false} SubDigitEdited(q: Rule, k: nat, s: string)
    requires DigitRule(q, k)
    ensures DigitEdited(s, Sub(q, s))
    decreases |s|
  {
    if |s| > 0 {
      match MatchAt(q, s)
      case Some(len) =>
        SubDigitEdited(q, k, s[len..]);
        DigitAtMatch(q, k, s, len);
        DigitStepMatch(q, s, len);
      case None =>
        SubDigitEdited(q, k, s[1..]);
        DigitStepCopy(q, k, s);
    }
  }

  lemma DigitStepMatch(q: Rule, s: string, len: nat)
    requires WellFormed(q) && MatchAt(q, s) == Some(len)
    requires DigitEdited(s[..len], Replacement(q, s[..len]))
    requires DigitEdited(s[len..], Sub(q, s[len..]))
    ensures DigitEdited(s, Sub(q, s))
  {
    var a, c := s[..len], s[len..];
    var t := Sub(q, s);
    SubStepMatch(q, s, len);
    assert a + c == s;
    assert t == Replacement(q, a) + Sub(q, c);
    DigitEditedConcat(a, Replacement(q, a), c, Sub(q, c));
  }

  lemma DigitStepCopy(q: Rule, k: nat, s: string)
    requires DigitRule(q, k) && |s| > 0 && MatchAt(q, s).None?
    requires DigitEdited(s[1..], Sub(q, s[1..]))
    ensures DigitEdited(s, Sub(q, s))
  {
    SubStepCopy(q, s);
    DigitEditedConcat([s[0]], [s[0]], s[1..], Sub(q, s[1..]));
    assert [s[0]] + s[1..] == s;
  }

  /** Position `j` of `s` lies inside a match of `q` that starts at or before it. */
  ghost predicate Covered(q: Rule, s: string, j: nat) {
    exists p :: 0 <= p <= j && p <= |s| && MatchAt(q, s[p..]).Some? && j < p + MatchAt(q, s[p..]).value
  }

  /** Text outside every match of a digit rule comes out as it went in, and
      the output has the input's length. */
  lemma {:induction false} SubKeepsUncovered(q: Rule, k: nat, s: string)
    requires DigitRule(q, k)
    ensures |Sub(q, s)| == |s|
    ensures forall j :: 0 <= j < |s| && !Covered(q, s, j) ==> Sub(q, s)[j] == s[j]
    decreases |s|
  {
    if |s| > 0 {
      match MatchAt(q, s)
      case Some(len) =>
        SubKeepsUncovered(q, k, s[len..]);
        UncoveredStepMatch(q, k, s, len);
      case None =>
        SubKeepsUncovered(q, k, s[1..]);
        UncoveredStepCopy(q, s);
    }
  }

  lemma UncoveredStepMatch(q: Rule, k: nat, s: string, len: nat)
    requires DigitRule(q, k) && MatchAt(q, s) == Some(len)
    requires |Sub(q, s[len..])| == |s[len..]|
    requires forall j :: 0 <= j < |s[len..]| && !Covered(q, s[len..], j) ==> Sub(q, s[len..])[j] == s[len..][j]
    ensures |Sub(q, s)| == |s|
    ensures forall j :: 0 <= j < |s| && !Covered(q, s, j) ==> Sub(q, s)[j] == s[j]
  {
    SubStepMatch(q, s, len);
    DigitAtMatch(q, k, s, len);
    var rest := s[len..];
    forall j | 0 <= j < |s| && !Covered(q, s, j) ensures Sub(q, s)[j] == s[j] {
      CoveredInMatch(q, s, len, j);
      if j >= len {
        CoveredShift(q, s, len, j - len);
        assert Sub(q, s)[j] == Sub(q, rest)[j - len];
      }
    }
  }

  lemma UncoveredStepCopy(q: Rule, s: string)
    requires WellFormed(q) && |s| > 0 && MatchAt(q, s).None?
    requires |Sub(q, s[1..])| == |s[1..]|
    requires forall j :: 0 <= j < |s[1..]| && !Covered(q, s[1..], j) ==> Sub(q, s[1..])[j] == s[1..][j]
    ensures |Sub(q, s)| == |s|
    ensures forall j :: 0 <= j < |s| && !Covered(q, s, j) ==> Sub(q, s)[j] == s[j]
  {
    SubStepCopy(q, s);
    forall j | 0 <= j < |s| && !Covered(q, s, j) ensures Sub(q, s)[j] == s[j] {
      if j > 0 {
        CoveredShift(q, s, 1, j - 1);
      }
    }
  }

  /** Every match of a digit rule whose matches cannot overlap is rewritten
      where it stands: wherever a match of length `len` starts in the input,
      the output holds its replacement at the same position. */
  lemma SubRewritesMatch(q: Rule, k: nat, s: string, p: nat, len: nat)
    requires DigitRule(q, k) && SelfDisjoint(q)
    requires p <= |s| && MatchAt(q, s[p..]) == Some(len)
    ensures p + len <= |s| && |q.head| <= len && |Sub(q, s)| == |s|
    ensures Sub(q, s)[p..p + len] == Replacement(q, s[p..p + len])
  {
    SubDigitEdited(q, k, s);
    SubPlacesAll(q, k, s);
    assert Placed(q, s[p..], Sub(q, s), p);
    assert s[p..][..len] == s[p..p + len];
  }

  /** If a match of `q` opens `x`, then `t` holds its replacement at `p`;
      `x` is the text from `p` on. */
  ghost predicate Placed(q: Rule, x: string, t: string, p: nat) {
    match MatchAt(q, x)
    case None => true
    case Some(len) =>
      p + len <= |t| && |q.head| <= len && t[p..p + len] == Replacement(q, x[..len])
  }

  lemma {:induction false} SubPlacesAll(q: Rule, k: nat, s: string)
    requires DigitRule(q, k) && SelfDisjoint(q)
    ensures forall p :: 0 <= p <= |s| ==> Placed(q, s[p..], Sub(q, s), p)
    decreases |s|
  {
    if |s| == 0 {
      assert s[0..] == s;
    } else {
      match MatchAt(q, s)
      case Some(l0) =>
        SubPlacesAll(q, k, s[l0..]);
        PlacedStepMatch(q, k, s, l0);
      case None =>
        SubPlacesAll(q, k, s[1..]);
        PlacedStepCopy(q, s);
    }
  }

  lemma PlacedStepMatch(q: Rule, k: nat, s: string, l0: nat)
    requires DigitRule(q, k) && SelfDisjoint(q) && MatchAt(q, s) == Some(l0)
    requires forall p :: 0 <= p <= |s[l0..]| ==> Placed(q, s[l0..][p..], Sub(q, s[l0..]), p)
    ensures forall p :: 0 <= p <= |s| ==> Placed(q, s[p..], Sub(q, s), p)
  {
    DigitRuleMatch(q, k, s, l0);
    SubStepMatch(q, s, l0);
    var a := Replacement(q, s[..l0]);
    forall p | 0 <= p <= |s| ensures Placed(q, s[p..], Sub(q, s), p) {
      if p == 0 {
        assert s[0..] == s;
        PlacedFirst(q, s, Sub(q, s), l0, a, Sub(q, s[l0..]));
      } else if p < l0 {
        NotInsideMatch(q, s, l0, p);
      } else {
        assert s[l0..][p - l0..] == s[p..];
        PlacedShift(q, s[p..], Sub(q, s), a, Sub(q, s[l0..]), p);
      }
    }
  }

  lemma PlacedStepCopy(q: Rule, s: string)
    requires WellFormed(q) && |s| > 0 && MatchAt(q, s).None?
    requires forall p :: 0 <= p <= |s[1..]| ==> Placed(q, s[1..][p..], Sub(q, s[1..]), p)
    ensures forall p :: 0 <= p <= |s| ==> Placed(q, s[p..], Sub(q, s), p)
  {
    SubStepCopy(q, s);
    forall p | 0 <= p <= |s| ensures Placed(q, s[p..], Sub(q, s), p) {
      if p == 0 {
        assert s[0..] == s;
      } else {
        assert s[1..][p - 1..] == s[p..];
        PlacedShift(q, s[p..], Sub(q, s), [s[0]], Sub(q, s[1..]), p);
      }
    }
  }

  /** The first match's replacement `a` opens the output. */
  lemma PlacedFirst(q: Rule, s: string, t: string, l0: nat, a: string, u: string)
    requires MatchAt(q, s) == Some(l0) && t == a + u
    requires |q.head| <= l0 && a == Replacement(q, s[..l0]) && |a| == l0
    ensures Placed(q, s, t, 0)
  {
    assert t[0..l0] == a;
  }

  /** What the output `u` of the rest of the text holds, the output `a + u`
      holds `|a|` places later. */
  lemma PlacedShift(q: Rule, x: string, t: string, a: string, u: string, p: nat)
    requires t == a + u && |a| <= p
    requires Placed(q, x, u, p - |a|)
    ensures Placed(q, x, t, p)
  {
    match MatchAt(q, x)
    case None =>
    case Some(len) =>
      SliceAfter(a, u, p, len);
  }

  /** Every position of the match at the start of `s` is covered. */
  lemma CoveredInMatch(q: Rule, s: string, len: nat, j: nat)
    requires MatchAt(q, s) == Some(len)
    ensures j < len ==> Covered(q, s, j)
  {
    assert s[0..] == s;
  }

  /** A position covered in a suffix of `s` is covered in `s`. */
  lemma CoveredShift(q: Rule, s: string, d: nat, i: nat)
    requires d <= |s|
    ensures Covered(q, s[d..], i) ==> Covered(q, s, i + d)
  {
    if Covered(q, s[d..], i) {
      var rest := s[d..];
      var p :| 0 <= p <= i && p <= |rest| && MatchAt(q, rest[p..]).Some? && i < p + MatchAt(q, rest[p..]).value;
      assert rest[p..] == s[p + d..];
    }
  }

  /** A match in a digit-edited text that has no "20" pair in it was there,
      character for character, before the edit. */
  lemma EditKeepsMatch(s: string, t: string, r: Rule, p: nat, len: nat)
    requires DigitEdited(s, t)
    requires WellFormed(r) && MatchesHaveNoTwenty(r)
    requires p <= |t| && MatchAt(r, t[p..]) == Some(len)
    ensures p + len <= |s|
    ensures s[p..p + len] == t[p..p + len]
    ensures MatchAt(r, s[p..]) == Some(len)
  {
    var m := t[p..p + len];
    assert t[p..][..len] == m;
    MatchIsLocal(r, t[p..], m, len);
    assert NoTwenty(m);
    EditSparesWindow(s, t, p, len);
    assert s[p..][..len] == t[p..][..len];
    MatchIsLocal(r, t[p..], s[p..], len);
  }

  /** A window of a digit-edited text with no "20" pair in or at the edge of
      it is unedited. */
  lemma EditSparesWindow(s: string, t: string, p: nat, len: nat)
    requires DigitEdited(s, t)
    requires p + len <= |t| && NoTwenty(t[p..p + len])
    ensures s[p..p + len] == t[p..p + len]
  {
    var m := t[p..p + len];
    forall j | p <= j < p + len ensures s[j] == t[j] {
      var i := j - p;
      assert m[i] == t[j];
      if i + 1 < |m| {
        assert m[i + 1] == t[j + 1];
      }
      if i >= 1 {
        assert m[i - 1] == t[j - 1];
      }
    }
  }

  /** A digit rule creates no match of a rule whose matches hold no "20" pair. */
  lemma DigitPreserves(q: Rule, k: nat, r: Rule, s: string)
    requires DigitRule(q, k)
    requires WellFormed(r) && MatchesHaveNoTwenty(r)
    requires Absent(r, s)
    ensures Absent(r, Sub(q, s))
  {
    var t := Sub(q, s);
    SubDigitEdited(q, k, s);
    forall p | 0 <= p <= |t| ensures MatchAt(r, t[p..]).None? {
      if MatchAt(r, t[p..]).Some? {
        EditKeepsMatch(s, t, r, p, MatchAt(r, t[p..]).value);
      }
    }
  }

  /** After a digit rule has run, none of its own matches is left. */
  lemma DigitClears(q: Rule, k: nat, s: string)
    requires DigitRule(q, k) && MatchesHaveNoTwenty(q) && SelfDisjoint(q)
    ensures Absent(q, Sub(q, s))
  {
    forall p | 0 <= p <= |Sub(q, s)| ensures MatchAt(q, Sub(q, s)[p..]).None? {
      DigitClearsAt(q, k, s, p);
    }
  }

  lemma {:induction false} DigitClearsAt(q: Rule, k: nat, s: string, p: nat)
    requires DigitRule(q, k) && MatchesHaveNoTwenty(q) && SelfDisjoint(q)
    requires p <= |Sub(q, s)|
    ensures MatchAt(q, Sub(q, s)[p..]).None?
    decreases |s|
  {
    if |s| > 0 {
      match MatchAt(q, s)
      case Some(l0) =>
        if p < l0 {
          InsideFirstMatch(q, k, s, l0, p);
        } else {
          DigitRuleMatch(q, k, s, l0);
          SubStepMatch(q, s, l0);
          DropPast(Replacement(q, s[..l0]), Sub(q, s[l0..]), p);
          DigitClearsAt(q, k, s[l0..], p - l0);
        }
      case None =>
        if p == 0 {
          NoneAtStart(q, k, s);
        } else {
          SubStepCopy(q, s);
          DropPast([s[0]], Sub(q, s[1..]), p);
          DigitClearsAt(q, k, s[1..], p - 1);
        }
    }
  }

  /** Where the input had no match at its start, the output has none either. */
  lemma NoneAtStart(q: Rule, k: nat, s: string)
    requires DigitRule(q, k) && MatchesHaveNoTwenty(q)
    requires MatchAt(q, s).None?
    ensures MatchAt(q, Sub(q, s)).None?
  {
    var t := Sub(q, s);
    SubDigitEdited(q, k, s);
    assert t[0..] == t && s[0..] == s;
    if MatchAt(q, t).Some? {
      EditKeepsMatch(s, t, q, 0, MatchAt(q, t).value);
    }
  }

  /** No match of `q` starts inside the rewritten first match. */
  lemma InsideFirstMatch(q: Rule, k: nat, s: string, l0: nat, p: nat)
    requires DigitRule(q, k) && MatchesHaveNoTwenty(q) && SelfDisjoint(q)
    requires MatchAt(q, s) == Some(l0) && p < l0 && p <= |Sub(q, s)|
    ensures MatchAt(q, Sub(q, s)[p..]).None?
  {
    if p == 0 {
      RewrittenStart(q, k, s, l0);
    } else {
      var t := Sub(q, s);
      SubDigitEdited(q, k, s);
      NotInsideMatch(q, s, l0, p);
      if MatchAt(q, t[p..]).Some? {
        EditKeepsMatch(s, t, q, p, MatchAt(q, t[p..]).value);
      }
    }
  }

  /** The rewritten first match is no longer a match. */
  lemma RewrittenStart(q: Rule, k: nat, s: string, l0: nat)
    requires DigitRule(q, k) && MatchesHaveNoTwenty(q)
    requires MatchAt(q, s) == Some(l0)
    ensures MatchAt(q, Sub(q, s)[0..]).None?
  {
    var t := Sub(q, s);
    var m := s[..l0];
    DigitRuleMatch(q, k, s, l0);
    var b := Replacement(q, m);
    assert t == b + Sub(q, s[l0..]);
    assert t[..l0] == b;
    assert t[0..] == t && s[0..] == s;
    SubDigitEdited(q, k, s);
    if MatchAt(q, t).Some? {
      EditKeepsMatch(s, t, q, 0, MatchAt(q, t).value);
    }
  }

  /** In any text, no match of a self-disjoint rule starts strictly inside
      another of its matches. */
  lemma NotInsideMatch(q: Rule, s: string, l0: nat, p: nat)
    requires WellFormed(q) && SelfDisjoint(q)
    requires MatchAt(q, s) == Some(l0) && 0 < p < l0
    ensures MatchAt(q, s[p..]).None?
  {
    var m := s[..l0];
    MatchIsLocal(q, s, m, l0);
    assert FreeOf(m, 1, q.head);
    if MatchAt(q, s[p..]).Some? {
      assert q.head <= s[p..];
      forall i | 0 <= i < |q.head| && p + i < |m| ensures m[p + i] == q.head[i] {
        assert s[p..][i] == s[p + i];
      }
      assert Opens(m, p, q.head);
    }
  }

  /** Every match of `q` is replaced by the same text `b`. */
  ghost predicate ConstantBlock(q: Rule, b: string) {
    WellFormed(q) && forall m :: IsMatchText(q, m) ==> Replacement(q, m) == b
  }

  /** No match of `r` starts inside the block `b`, whatever follows it. */
  ghost predicate NoMatchInBlock(r: Rule, b: string) {
    forall x, p :: 0 <= p < |b| ==> MatchAt(r, (b + x)[p..]).None?
  }

  /** No match of `r` can have `b` beginning strictly inside it. */
  ghost predicate MatchesFreeOf(r: Rule, b: string) {
    forall m :: IsMatchText(r, m) ==> FreeOf(m, 1, b)
  }

  /** A constant-block rule leaves no match of a rule `r` behind, provided no
      match of `r` can overlap the block: none starts inside it and none that
      starts earlier reaches into it.  When `r` is `q` itself this says that
      `q` removes its own matches; otherwise the input must have had none. */
  lemma {:induction false} BlockPreserves(q: Rule, b: string, r: Rule, s: string)
    requires ConstantBlock(q, b)
    requires WellFormed(r) && NoMatchInBlock(r, b) && MatchesFreeOf(r, b)
    requires r == q || Absent(r, s)
    ensures Absent(r, Sub(q, s))
    decreases |s|
  {
    if |s| == 0 {
      assert Sub(q, s) == [];
      assert Sub(q, s)[0..] == [];
    } else {
      match MatchAt(q, s)
      case Some(l0) =>
        if r != q { AbsentSuffix(r, s, l0); }
        BlockPreserves(q, b, r, s[l0..]);
        BlockStepMatch(q, b, r, s, l0);
      case None =>
        if r != q { AbsentSuffix(r, s, 1); }
        BlockPreserves(q, b, r, s[1..]);
        BlockStepCopy(q, b, r, s);
    }
  }

  /** Where a match of `q` starts, the output is the block followed by the
      rest of the output; neither the block nor the rest holds a match of `r`. */
  lemma {:induction false} BlockStepMatch(q: Rule, b: string, r: Rule, s: string, l0: nat)
    requires ConstantBlock(q, b)
    requires WellFormed(r) && NoMatchInBlock(r, b)
    requires MatchAt(q, s) == Some(l0)
    requires Absent(r, Sub(q, s[l0..]))
    ensures Absent(r, Sub(q, s))
  {
    SubStepMatch(q, s, l0);
    BlockAtFirstMatch(q, b, s, l0);
    var rest := Sub(q, s[l0..]);
    forall p | 0 <= p <= |b + rest| ensures MatchAt(r, (b + rest)[p..]).None? {
      if p >= |b| {
        DropPast(b, rest, p);
      }
    }
  }

  /** Where no match of `q` starts, the output is the first character
      followed by the rest of the output. */
  lemma {:induction false} BlockStepCopy(q: Rule, b: string, r: Rule, s: string)
    requires ConstantBlock(q, b)
    requires WellFormed(r) && MatchesFreeOf(r, b)
    requires r == q || Absent(r, s)
    requires |s| > 0 && MatchAt(q, s).None?
    requires Absent(r, Sub(q, s[1..]))
    ensures Absent(r, Sub(q, s))
  {
    SubStepCopy(q, s);
    var rest := Sub(q, s[1..]);
    OverlapAtStart(q, b, r, s);
    forall p | 0 <= p <= |[s[0]] + rest| ensures MatchAt(r, ([s[0]] + rest)[p..]).None? {
      if p == 0 {
        assert ([s[0]] + rest)[0..] == Sub(q, s);
      } else {
        DropPast([s[0]], rest, p);
      }
    }
  }

  /** The case of BlockPreserves where the match of `r` in the output would
      start at position 0 and the input has no match of `q` there: either that
      match was already in the input, or the first block comes early enough to
      reach into it, and neither can be. */
  lemma {:induction false} OverlapAtStart(q: Rule, b: string, r: Rule, s: string)
    requires ConstantBlock(q, b)
    requires WellFormed(r) && MatchesFreeOf(r, b)
    requires r == q || Absent(r, s)
    requires |s| > 0 && MatchAt(q, s).None?
    ensures MatchAt(r, Sub(q, s)).None?
  {
    assert s[0..] == s;
    if MatchAt(r, Sub(q, s)).Some? {
      var len := MatchAt(r, Sub(q, s)).value;
      var hi := if len <= |s| then len else |s|;
      var j := FirstMatchFrom(q, s, 1, hi);
      assert AbsentBefore(q, s, j);
      if j == hi {
        CopiedMatch(q, r, s, len, hi);
      } else {
        EarlyBlock(q, b, r, s, len, j, MatchAt(q, s[j..]).value);
      }
    }
  }

  /** No match of `q` starts before the end of the match of `r` at the start
      of the output: that match was copied from the input. */
  lemma {:induction false} CopiedMatch(q: Rule, r: Rule, s: string, len: nat, hi: nat)
    requires WellFormed(q) && WellFormed(r)
    requires MatchAt(r, Sub(q, s)) == Some(len)
    requires hi == (if len <= |s| then len else |s|)
    requires AbsentBefore(q, s, hi)
    ensures MatchAt(r, s) == Some(len) && MatchAt(r, s[0..]) == Some(len)
  {
    var t := Sub(q, s);
    assert s[0..] == s;
    assert s[|s|..] == [];
    SubCopiesPrefix(q, s, hi);
    assert hi == len;
    assert t[..len] == s[..len];
    MatchIsLocal(r, t, s, len);
  }

  /** A block emitted at `j`, before the end of the match of `r` at the start
      of the output, begins strictly inside that match. */
  lemma {:induction false} EarlyBlock(q: Rule, b: string, r: Rule, s: string, len: nat, j: nat, l1: nat)
    requires ConstantBlock(q, b) && WellFormed(r)
    requires MatchAt(r, Sub(q, s)) == Some(len)
    requires 1 <= j < len && j <= |s|
    requires AbsentBefore(q, s, j) && MatchAt(q, s[j..]) == Some(l1)
    ensures IsMatchText(r, Sub(q, s)[..len])
    ensures !FreeOf(Sub(q, s)[..len], 1, b)
  {
    var t := Sub(q, s);
    BlockAt(q, b, s, j, l1);
    OpensAfter(s[..j], b, Sub(q, s[j + l1..]), len);
    assert t[..len][..len] == t[..len];
    MatchIsLocal(r, t, t[..len], len);
  }

  /** At the first match, a constant-block rule emits its block. */
  lemma {:induction false} BlockAt(q: Rule, b: string, s: string, j: nat, l1: nat)
    requires ConstantBlock(q, b)
    requires j <= |s| && AbsentBefore(q, s, j) && MatchAt(q, s[j..]) == Some(l1)
    ensures j + l1 <= |s|
    ensures Sub(q, s) == s[..j] + b + Sub(q, s[j + l1..])
  {
    SubAtFirstMatch(q, s, j, l1);
    BlockAtMatch(q, b, s, j, l1);
  }

  lemma BlockAtMatch(q: Rule, b: string, s: string, j: nat, len: nat)
    requires ConstantBlock(q, b) && j <= |s| && MatchAt(q, s[j..]) == Some(len)
    ensures j + len <= |s| && Replacement(q, s[j..j + len]) == b
  {
    var w := s[j..];
    assert w[..len] == s[j..j + len];
    BlockAtFirstMatch(q, b, w, len);
  }

  /** The replacement of a constant-block rule's match is the block. */
  lemma BlockAtFirstMatch(q: Rule, b: string, s: string, len: nat)
    requires ConstantBlock(q, b)
    requires MatchAt(q, s) == Some(len)
    ensures Replacement(q, s[..len]) == b
  {
    assert s[..len][..len] == s[..len];
    MatchIsLocal(q, s, s[..len], len);
  }

  // Facts about a rule drawn from facts about its literal parts.

  /** A rule whose head carries the two digits `d` and whose replacement is
      `P20S\1` (group 1 = gap and tail) is a digit rule at `|P|`. */
  lemma DigitInHead(q: Rule, p: string, d: string, s: string)
    requires WellFormed(q)
    requires q.head == p + d + s && q.template == TextThenGroup(p + "20" + s)
    requires |d| == 2 && d != "20"
    ensures DigitRule(q, |p|)
  {
    forall m | IsMatchText(q, m) ensures DigitMatch(q, |p|, m) {
      DigitInHeadAt(q, p, d, s, m);
    }
  }

  lemma DigitInHeadAt(q: Rule, p: string, d: string, s: string, m: string)
    requires q.head == p + d + s && q.template == TextThenGroup(p + "20" + s)
    requires |d| == 2 && q.head <= m
    ensures |p| + 2 <= |m| && m[|p|..|p| + 2] == d && Replacement(q, m) == SetTwenty(m, |p|)
  {
    var rest := m[|q.head|..];
    assert m == p + d + (s + rest);
    SetTwentySplit(p, d, s + rest);
    assert p + "20" + s + rest == p + "20" + (s + rest);
  }

  /** A rule with no gap whose tail carries the digits `d` and whose
      replacement is `\1P20S` (group 1 = head) is a digit rule. */
  lemma DigitInTail(q: Rule, p: string, d: string, s: string)
    requires WellFormed(q) && q.gap == Adjacent
    requires q.tail == p + d + s && q.template == GroupThenText(p + "20" + s)
    requires |d| == 2 && d != "20"
    ensures DigitRule(q, |q.head| + |p|)
  {
    var k := |q.head| + |p|;
    forall m | IsMatchText(q, m) ensures DigitMatch(q, k, m) {
      DigitInTailAt(q, p, d, s, m, k);
    }
  }

  lemma DigitInTailAt(q: Rule, p: string, d: string, s: string, m: string, k: nat)
    requires q.gap == Adjacent && IsMatchText(q, m)
    requires q.tail == p + d + s && q.template == GroupThenText(p + "20" + s)
    requires |d| == 2 && d != "20" && k == |q.head| + |p|
    ensures DigitMatch(q, k, m)
  {
    AdjacentMatchText(q, m);
    DigitInTailText(q, p, d, s, m);
  }

  lemma DigitInTailText(q: Rule, p: string, d: string, s: string, m: string)
    requires q.tail == p + d + s && q.template == GroupThenText(p + "20" + s)
    requires |d| == 2 && m == q.head + q.tail
    ensures |q.head| + |p| + 2 <= |m| && m[|q.head| + |p|..|q.head| + |p| + 2] == d
    ensures Replacement(q, m) == SetTwenty(m, |q.head| + |p|)
  {
    var h := q.head;
    Associate(h, p, d, s);
    SetTwentySplit(h + p, d, s);
    Associate(h, p, "20", s);
    assert m[..|h|] == h;
  }

  lemma Associate(a: string, b: string, c: string, d: string)
    ensures a + (b + c + d) == (a + b) + c + d
  {
  }

  /** A literal rule replacing `PdS` by `P20S` is a digit rule. */
  lemma DigitInLiteral(q: Rule, p: string, d: string, s: string)
    requires q == Rule(p + d + s, Adjacent, [], Fixed(p + "20" + s))
    requires |p + d + s| > 0 && |d| == 2 && d != "20"
    ensures DigitRule(q, |p|)
  {
    forall m | IsMatchText(q, m) ensures DigitMatch(q, |p|, m) {
      DigitInLiteralAt(q, p, d, s, m);
    }
  }

  lemma DigitInLiteralAt(q: Rule, p: string, d: string, s: string, m: string)
    requires q == Rule(p + d + s, Adjacent, [], Fixed(p + "20" + s))
    requires |d| == 2 && d != "20" && IsMatchText(q, m)
    ensures DigitMatch(q, |p|, m)
  {
    AdjacentMatchText(q, m);
    assert m == p + d + s;
    SetTwentySplit(p, d, s);
  }

  lemma SetTwentySplit(p: string, d: string, s: string)
    requires |d| == 2
    ensures (p + d + s)[|p|..|p| + 2] == d
    ensures SetTwenty(p + d + s, |p|) == p + "20" + s
  {
    var m := p + d + s;
    assert m[..|p|] == p && m[|p| + 2..] == s;
  }

  lemma NoTwentyMatches(r: Rule)
    requires NoTwenty(r.head) && NoTwenty(r.tail)
    ensures MatchesHaveNoTwenty(r)
  {
    forall m | IsMatchText(r, m) ensures NoTwenty(m) {
      MatchTextParts(r, m);
      SpacesHaveNoTwenty(MatchedGap(r, m));
      NoTwentyConcat(r.head, MatchedGap(r, m));
      NoTwentyConcat(r.head + MatchedGap(r, m), r.tail);
    }
  }

  /** If neither the head (after its first character) nor the tail can begin
      `w`, and `w` does not begin with whitespace, no match of `r` can. */
  lemma MatchesAvoid(r: Rule, w: string)
    requires WellFormed(r) && |w| > 0 && !IsSpace(w[0])
    requires FreeOf(r.head, 1, w) && FreeOf(r.tail, 0, w)
    ensures forall m :: IsMatchText(r, m) ==> FreeOf(m, 1, w)
  {
    forall m | IsMatchText(r, m) ensures FreeOf(m, 1, w) {
      MatchTextParts(r, m);
      FreeOfAcrossGap(r.head, MatchedGap(r, m), r.tail, w, 1);
    }
  }

  lemma SelfDisjointBy(r: Rule, w: string)
    requires WellFormed(r) && |w| > 0 && !IsSpace(w[0]) && w <= r.head
    requires FreeOf(r.head, 1, w) && FreeOf(r.tail, 0, w)
    ensures SelfDisjoint(r)
  {
    MatchesAvoid(r, w);
    forall m | IsMatchText(r, m) ensures FreeOf(m, 1, r.head) {
      FreeOfPrefix(m, 1, w, r.head);
    }
  }

  lemma MatchesFreeOfBy(r: Rule, b: string, w: string)
    requires WellFormed(r) && |w| > 0 && !IsSpace(w[0]) && w <= b
    requires FreeOf(r.head, 1, w) && FreeOf(r.tail, 0, w)
    ensures MatchesFreeOf(r, b)
  {
    MatchesAvoid(r, w);
    forall m | IsMatchText(r, m) ensures FreeOf(m, 1, b) {
      FreeOfPrefix(m, 1, w, b);
    }
  }

  /** No match of `r` starts inside `b` if none starts at its beginning and
      no later position of `b` can begin (a prefix `w` of) the head. */
  lemma NoMatchInBlockBy(r: Rule, b: string, w: string)
    requires WellFormed(r) && w <= r.head
    requires FreeOf(b, 1, w)
    requires forall x :: MatchAt(r, b + x).None?
    ensures NoMatchInBlock(r, b)
  {
    forall x, p | 0 <= p < |b| ensures MatchAt(r, (b + x)[p..]).None? {
      if p == 0 {
        assert (b + x)[0..] == b + x;
      } else {
        HeadOpens(r, b, x, p, w);
      }
    }
  }

  /** Where the head of `r` starts, inside `b`, so does every prefix of it. */
  lemma HeadOpens(r: Rule, b: string, x: string, p: nat, w: string)
    requires w <= r.head && p < |b|
    ensures r.head <= (b + x)[p..] ==> Opens(b, p, w)
  {
    if r.head <= (b + x)[p..] {
      forall i | 0 <= i < |w| && p + i < |b| ensures b[p + i] == w[i] {
        assert (b + x)[p..][i] == r.head[i];
      }
    }
  }

  // The two properties the pipeline needs of each rule.

  /** After `q` has run, no match of `q` is left, whatever the input. */
  ghost predicate Clears(q: Rule) {
    WellFormed(q) && forall s :: Absent(q, Sub(q, s))
  }

  /** Running `q` never creates a match of `r`. */
  ghost predicate Keeps(q: Rule, r: Rule) {
    WellFormed(q) && forall s :: Absent(r, s) ==> Absent(r, Sub(q, s))
  }

  /** A digit rule whose matches hold no "20" pair and cannot overlap. */
  ghost predicate DigitRuleClearing(q: Rule, k: nat) {
    DigitRule(q, k) && MatchesHaveNoTwenty(q) && SelfDisjoint(q)
  }

  lemma DigitRuleClears(q: Rule, k: nat)
    requires DigitRuleClearing(q, k)
    ensures Clears(q)
  {
    forall s ensures Absent(q, Sub(q, s)) {
      DigitClears(q, k, s);
    }
  }

  lemma DigitRuleKeeps(q: Rule, k: nat, r: Rule)
    requires DigitRule(q, k)
    requires WellFormed(r) && MatchesHaveNoTwenty(r)
    ensures Keeps(q, r)
  {
    forall s | Absent(r, s) ensures Absent(r, Sub(q, s)) {
      DigitPreserves(q, k, r, s);
    }
  }

  lemma BlockRuleClears(q: Rule, b: string)
    requires ConstantBlock(q, b) && NoMatchInBlock(q, b) && MatchesFreeOf(q, b)
    ensures Clears(q)
  {
    forall s ensures Absent(q, Sub(q, s)) {
      BlockPreserves(q, b, q, s);
    }
  }

  lemma BlockRuleKeeps(q: Rule, b: string, r: Rule)
    requires ConstantBlock(q, b)
    requires WellFormed(r) && NoMatchInBlock(r, b) && MatchesFreeOf(r, b)
    ensures Keeps(q, r)
  {
    forall s | Absent(r, s) ensures Absent(r, Sub(q, s)) {
      BlockPreserves(q, b, r, s);
    }
  }
}
