/**
 The shape shared by the seven substitutions of the template spacing script,
 and Python's `re.sub` over that shape.

 Every pattern of the script is a literal head, an optional whitespace gap
 (nothing, `\s*` or `\s+`) and a literal tail; every replacement is a fixed
 text, a fixed text followed by group 1 (the gap and tail, re-emitted
 verbatim) or group 1 (the head) followed by a fixed text.  MatchAt is a
 hand-written matcher for that shape, RegexMatch is what the regular
 expression means, and Sub is the leftmost, non-overlapping replace-all.
 */
module Pattern {
  import opened Text

  /** What the pattern allows between head and tail. */
  datatype Gap = Adjacent | AnySpaces | SomeSpaces

  /** The replacement template: `text`, `text\1` with group 1 = gap + tail, or
      `\1text` with group 1 = head. */
  datatype Template = Fixed(text: string) | TextThenGroup(text: string) | GroupThenText(text: string)

  datatype Rule = Rule(head: string, gap: Gap, tail: string, template: Template)

  /** The patterns used by the script all have a non-empty head, and whenever
      a whitespace gap precedes the tail, the tail starts with a non-space. */
  predicate WellFormed(r: Rule) {
    && |r.head| > 0
    && (r.gap != Adjacent ==> |r.tail| > 0 && !IsSpace(r.tail[0]))
  }

  /** The whitespace text the gap `g` may stand for. */
  ghost predicate GapAdmits(g: Gap, w: string) {
    && AllSpace(w)
    && match g
       case Adjacent => |w| == 0
       case AnySpaces => true
       case SomeSpaces => |w| >= 1
  }

  /** The regular expression of `r` matches at the start of `s` with the gap
      standing for `w`. */
  ghost predicate RegexMatch(r: Rule, s: string, w: string) {
    GapAdmits(r.gap, w) && r.head + w + r.tail <= s
  }

  /** Number of characters the gap consumes: none, or the greedy whitespace run. */
  function GapLength(g: Gap, rest: string): nat {
    if g == Adjacent then 0 else SpaceRun(rest)
  }

  /** The length of the match of `r` that starts at the beginning of `s`, if any. */
  function MatchAt(r: Rule, s: string): (res: Option<nat>)
    ensures res.Some? ==> |r.head| + |r.tail| <= res.value <= |s|
  {
    if !(r.head <= s) then None
    else
      var rest := s[|r.head|..];
      var n := GapLength(r.gap, rest);
      if r.gap == SomeSpaces && n == 0 then None
      else if r.tail <= rest[n..] then Some(|r.head| + n + |r.tail|)
      else None
  }

  /** The gap text of a match `m`. */
  function MatchedGap(r: Rule, m: string): string
    requires |r.head| + |r.tail| <= |m|
  {
    m[|r.head|..|m| - |r.tail|]
  }

  /** What MatchAt finds is a match of the regular expression, with the gap
      being the text between head and tail. */
  lemma MatchAtSound(r: Rule, s: string)
    requires MatchAt(r, s).Some?
    ensures var len := MatchAt(r, s).value;
            RegexMatch(r, s, MatchedGap(r, s[..len]))
  {
    var len := MatchAt(r, s).value;
    var rest := s[|r.head|..];
    var n := GapLength(r.gap, rest);
    var w := MatchedGap(r, s[..len]);
    assert w == rest[..n];
    assert r.head + w + r.tail == s[..len];
  }

  /** Every match of the regular expression is the one MatchAt finds: with a
      tail that starts with a non-space, the greedy gap cannot be shortened,
      so backtracking has no second alternative. */
  lemma MatchAtComplete(r: Rule, s: string, w: string)
    requires WellFormed(r)
    requires RegexMatch(r, s, w)
    ensures MatchAt(r, s) == Some(|r.head| + |w| + |r.tail|)
    ensures MatchedGap(r, s[..|r.head| + |w| + |r.tail|]) == w
  {
    PrefixParts(r.head, w, r.tail, s);
    var rest := s[|r.head|..];
    if r.gap != Adjacent {
      SpaceRunUnique(rest, |w|);
    }
  }

  /** Reading `h + w + t` back out of a text that starts with it. */
  lemma PrefixParts(h: string, w: string, t: string, s: string)
    requires h + w + t <= s
    ensures h <= s
    ensures s[|h|..][..|w|] == w && t <= s[|h|..][|w|..]
    ensures |t| > 0 ==> s[|h|..][|w|] == t[0]
    ensures s[..|h| + |w| + |t|][|h|..|h| + |w| + |t| - |t|] == w
  {
    var m := h + w + t;
    assert s[..|m|] == m;
    assert m[..|h|] == h;
    var rest := s[|h|..];
    assert rest[..|w| + |t|] == w + t;
    assert (w + t)[..|w|] == w;
    assert rest[|w|..][..|t|] == t;
    assert m[|h|..|m| - |t|] == w;
  }

  /** `m` is, in its entirety, a match of `r`. */
  predicate IsMatchText(r: Rule, m: string) {
    MatchAt(r, m) == Some(|m|)
  }

  /** A match only depends on the characters it covers. */
  lemma MatchIsLocal(r: Rule, s: string, t: string, len: nat)
    requires WellFormed(r)
    requires MatchAt(r, s) == Some(len)
    requires len <= |t| && t[..len] == s[..len]
    ensures MatchAt(r, t) == Some(len)
  {
    MatchAtSound(r, s);
    var w := MatchedGap(r, s[..len]);
    assert r.head + w + r.tail <= t;
    MatchAtComplete(r, t, w);
  }

  /** The text a match is made of: head, whitespace admitted by the gap, tail. */
  lemma MatchTextParts(r: Rule, m: string)
    requires IsMatchText(r, m)
    ensures m == r.head + MatchedGap(r, m) + r.tail
    ensures GapAdmits(r.gap, MatchedGap(r, m))
  {
    MatchAtSound(r, m);
    assert m[..|m|] == m;
  }

  /** After the head and a whitespace run, a text that does not start with
      the tail leaves no match. */
  lemma TailMismatch(r: Rule, w: string, y: string)
    requires WellFormed(r) && r.gap != Adjacent
    requires AllSpace(w) && |y| > 0 && !IsSpace(y[0]) && !(r.tail <= y)
    ensures MatchAt(r, r.head + w + y).None?
  {
    var s := r.head + w + y;
    var rest := s[|r.head|..];
    assert rest == w + y;
    assert rest[..|w|] == w && rest[|w|] == y[0];
    SpaceRunUnique(rest, |w|);
    assert rest[|w|..] == y;
  }

  /** Conversely, head, admitted whitespace and tail make a match, with that
      whitespace as its gap. */
  lemma MatchOfParts(r: Rule, w: string)
    requires WellFormed(r) && GapAdmits(r.gap, w)
    ensures IsMatchText(r, r.head + w + r.tail)
    ensures MatchedGap(r, r.head + w + r.tail) == w
  {
    var m := r.head + w + r.tail;
    MatchAtComplete(r, m, w);
    assert m[..|m|] == m;
  }

  /** Without a gap, a match is exactly head and tail. */
  lemma AdjacentMatchText(r: Rule, m: string)
    requires r.gap == Adjacent && IsMatchText(r, m)
    ensures m == r.head + r.tail
  {
    MatchTextParts(r, m);
    assert MatchedGap(r, m) == [];
  }

  /** The text that replaces the match `m`: group 1 is the head for `\1text`
      and the gap plus tail for `text\1`. */
  function Replacement(r: Rule, m: string): string
    requires |r.head| <= |m|
  {
    match r.template
    case Fixed(x) => x
    case TextThenGroup(x) => x + m[|r.head|..]
    case GroupThenText(x) => m[..|r.head|] + x
  }

  /** `re.sub(pattern, replacement, s)`: scan from the left; where a match
      starts, emit its replacement and resume after it; otherwise copy one
      character and move on. */
  function Sub(r: Rule, s: string): string
    requires WellFormed(r)
    decreases |s|
  {
    if |s| == 0 then []
    else match MatchAt(r, s)
      case Some(len) => Replacement(r, s[..len]) + Sub(r, s[len..])
      case None => [s[0]] + Sub(r, s[1..])
  }

  /** One step of Sub where a match starts. */
  lemma SubStepMatch(r: Rule, s: string, len: nat)
    requires WellFormed(r) && MatchAt(r, s) == Some(len)
    ensures Sub(r, s) == Replacement(r, s[..len]) + Sub(r, s[len..])
  {
  }

  /** One step of Sub where no match starts. */
  lemma SubStepCopy(r: Rule, s: string)
    requires WellFormed(r) && |s| > 0 && MatchAt(r, s).None?
    ensures Sub(r, s) == [s[0]] + Sub(r, s[1..])
  {
  }

  lemma DropPast(a: string, b: string, p: nat)
    requires |a| <= p <= |a| + |b|
    ensures (a + b)[p..] == b[p - |a|..]
  {
  }

  lemma SliceAfter(a: string, b: string, p: nat, n: nat)
    requires |a| <= p && p + n <= |a| + |b|
    ensures (a + b)[p..p + n] == b[p - |a|..p - |a| + n]
  {
  }

  /** No match of `r` starts anywhere in `s`. */
  predicate Absent(r: Rule, s: string) {
    forall i :: 0 <= i <= |s| ==> MatchAt(r, s[i..]).None?
  }

  /** No match starts at any position of `s` before `k`. */
  predicate AbsentBefore(r: Rule, s: string, k: nat) {
    forall i :: 0 <= i < k && i <= |s| ==> MatchAt(r, s[i..]).None?
  }

  lemma AbsentSuffix(r: Rule, s: string, k: nat)
    requires Absent(r, s) && k <= |s|
    ensures Absent(r, s[k..])
  {
    forall i | 0 <= i <= |s[k..]| ensures MatchAt(r, s[k..][i..]).None? {
      assert s[k..][i..] == s[k + i..];
    }
  }

  /** Text before the first match is copied unchanged. */
  lemma {:induction false} SubCopiesPrefix(r: Rule, s: string, k: nat)
    requires WellFormed(r)
    requires k <= |s| && AbsentBefore(r, s, k)
    ensures Sub(r, s) == s[..k] + Sub(r, s[k..])
    decreases k
  {
    if k > 0 {
      assert MatchAt(r, s[0..]).None?;
      assert s[0..] == s;
      forall i | 0 <= i < k - 1 && i <= |s[1..]| ensures MatchAt(r, s[1..][i..]).None? {
        assert s[1..][i..] == s[i + 1..];
      }
      SubCopiesPrefix(r, s[1..], k - 1);
      assert s[1..][k - 1..] == s[k..];
      assert [s[0]] + s[1..][..k - 1] == s[..k];
    }
  }

  /** Leftmost, non-overlapping: at the first match, Sub emits the replacement
      and carries on after the match. */
  lemma {:induction false} SubAtFirstMatch(r: Rule, s: string, k: nat, len: nat)
    requires WellFormed(r)
    requires k <= |s| && AbsentBefore(r, s, k)
    requires MatchAt(r, s[k..]) == Some(len)
    ensures k + len <= |s|
    ensures Sub(r, s) == s[..k] + Replacement(r, s[k..k + len]) + Sub(r, s[k + len..])
  {
    SubCopiesPrefix(r, s, k);
    var u := s[k..];
    SubStepMatch(r, u, len);
    assert u[..len] == s[k..k + len];
    assert u[len..] == s[k + len..];
  }

  /** Content with no match of `r` comes out of Sub unchanged. */
  lemma SubWithoutMatch(r: Rule, s: string)
    requires WellFormed(r)
    requires Absent(r, s)
    ensures Sub(r, s) == s
  {
    SubCopiesPrefix(r, s, |s|);
    assert s[|s|..] == [];
  }

  /** The least position in `[lo, hi)` at which a match starts, or `hi`. */
  ghost function FirstMatchFrom(r: Rule, s: string, lo: nat, hi: nat): (j: nat)
    requires lo <= hi <= |s|
    ensures lo <= j <= hi
    ensures forall i :: lo <= i < j ==> MatchAt(r, s[i..]).None?
    ensures j < hi ==> MatchAt(r, s[j..]).Some?
    decreases hi - lo
  {
    if lo == hi then hi
    else if MatchAt(r, s[lo..]).Some? then lo
    else FirstMatchFrom(r, s, lo + 1, hi)
  }
}
