/**
 Characters and small facts about text used by the template spacing rules:
 Python's `\s` character class, the greedy whitespace run a `\s*` or `\s+`
 consumes, and two local shapes of text ("w can start here", "no 20 pair")
 that the proofs about the rules are built from.
 */
module Text {

  datatype Option<T> = None | Some(value: T)

  /** Python's `\s` in a `str` pattern: exactly the characters for which
      `str.isspace()` holds. */
  predicate IsSpace(c: char) {
    var n := c as int;
    || (0x09 <= n <= 0x0D)
    || (0x1C <= n <= 0x20)
    || n == 0x85 || n == 0xA0 || n == 0x1680
    || (0x2000 <= n <= 0x200A)
    || n == 0x2028 || n == 0x2029 || n == 0x202F || n == 0x205F || n == 0x3000
  }

  predicate AllSpace(w: string) {
    forall i :: 0 <= i < |w| ==> IsSpace(w[i])
  }

  /** The number of characters a greedy `\s*` consumes at the start of `s`:
      the longest prefix made only of whitespace. */
  function SpaceRun(s: string): (n: nat)
    ensures n <= |s|
    ensures AllSpace(s[..n])
    ensures n < |s| ==> !IsSpace(s[n])
  {
    if |s| > 0 && IsSpace(s[0]) then 1 + SpaceRun(s[1..]) else 0
  }

  /** A whitespace prefix that is followed by a non-space (or by the end) is
      the one SpaceRun finds: the greedy run is the only run with that property. */
  lemma {:induction false} SpaceRunUnique(s: string, n: nat)
    requires n <= |s|
    requires AllSpace(s[..n])
    requires n == |s| || !IsSpace(s[n])
    ensures SpaceRun(s) == n
  {
    if n == 0 {
    } else {
      assert s[0] == s[..n][0];
      assert s[1..][..n - 1] == s[..n][1..];
      SpaceRunUnique(s[1..], n - 1);
    }
  }

  /** `w` can begin at position `k` of `m`: every character of `w` that still
      falls inside `m` agrees with it (characters past the end are not compared). */
  predicate Opens(m: string, k: nat, w: string) {
    k < |m| && forall i :: 0 <= i < |w| && k + i < |m| ==> m[k + i] == w[i]
  }

  /** No position of `m` at or after `from` can begin `w`. */
  predicate FreeOf(m: string, from: nat, w: string) {
    forall k :: from <= k < |m| ==> !Opens(m, k, w)
  }

  lemma OpensPrefix(m: string, k: nat, w: string, v: string)
    requires Opens(m, k, w)
    requires v <= w
    ensures Opens(m, k, v)
  {
    forall i | 0 <= i < |v| && k + i < |m| ensures m[k + i] == v[i] {
      assert v[i] == w[i];
    }
  }

  /** Reading `w` starting inside `x + g + y`, where `g` is whitespace and `w`
      starts with a non-space: the start lies in `x` or in `y`, never in `g`. */
  lemma OpensAcrossGap(x: string, g: string, y: string, k: nat, w: string)
    requires AllSpace(g)
    requires |g| == 0 || (|w| > 0 && !IsSpace(w[0]))
    requires Opens(x + g + y, k, w)
    ensures (k < |x| && Opens(x, k, w)) || (|x| + |g| <= k && Opens(y, k - |x| - |g|, w))
  {
    var m := x + g + y;
    assert |w| > 0 ==> m[k] == w[0];
    if k < |x| {
      forall i | 0 <= i < |w| && k + i < |x| ensures x[k + i] == w[i] {
        assert m[k + i] == x[k + i];
      }
    } else if k < |x| + |g| {
      assert false;
    } else {
      var k' := k - |x| - |g|;
      forall i | 0 <= i < |w| && k' + i < |y| ensures y[k' + i] == w[i] {
        assert m[k + i] == y[k' + i];
      }
    }
  }

  lemma FreeOfAcrossGap(x: string, g: string, y: string, w: string, from: nat)
    requires AllSpace(g)
    requires |g| == 0 || (|w| > 0 && !IsSpace(w[0]))
    requires FreeOf(x, from, w) && FreeOf(y, 0, w)
    ensures FreeOf(x + g + y, from, w)
  {
    forall k | from <= k < |x + g + y| ensures !Opens(x + g + y, k, w) {
      if Opens(x + g + y, k, w) {
        OpensAcrossGap(x, g, y, k, w);
      }
    }
  }

  /** `m` never shows a `2` immediately followed by a `0`, and it neither starts
      with `0` nor ends with `2`, so no "20" pair can sit inside it or straddle
      one of its ends. */
  predicate NoTwenty(m: string) {
    && (|m| > 0 ==> m[0] != '0' && m[|m| - 1] != '2')
    && forall j :: 0 <= j < |m| - 1 ==> !(m[j] == '2' && m[j + 1] == '0')
  }

  lemma NoTwentyConcat(a: string, b: string)
    requires NoTwenty(a) && NoTwenty(b)
    ensures NoTwenty(a + b)
  {
    var m := a + b;
    forall j | 0 <= j < |m| - 1 ensures !(m[j] == '2' && m[j + 1] == '0') {
      if j + 1 < |a| {
        assert m[j] == a[j] && m[j + 1] == a[j + 1];
      } else if j + 1 == |a| {
        assert m[j] == a[|a| - 1];
      } else {
        assert m[j] == b[j - |a|] && m[j + 1] == b[j + 1 - |a|];
      }
    }
    if |m| > 0 {
      if |a| > 0 { assert m[0] == a[0]; } else { assert m[0] == b[0]; }
      if |b| > 0 { assert m[|m| - 1] == b[|b| - 1]; } else { assert m[|m| - 1] == a[|a| - 1]; }
    }
  }

  lemma SpacesHaveNoTwenty(w: string)
    requires AllSpace(w)
    ensures NoTwenty(w)
  {
    if |w| > 0 {
      assert IsSpace(w[0]) && IsSpace(w[|w| - 1]);
    }
    forall j | 0 <= j < |w| - 1 ensures w[j] != '2' {
      assert IsSpace(w[j]);
    }
  }

  /** In `a + b + c`, cut anywhere past the start of `b`, the block `b` can begin at `|a|`. */
  lemma OpensAfter(a: string, b: string, c: string, len: nat)
    requires |a| < len <= |a + b + c|
    ensures Opens((a + b + c)[..len], |a|, b)
  {
    var m := (a + b + c)[..len];
    forall i | 0 <= i < |b| && |a| + i < |m| ensures m[|a| + i] == b[i] {
    }
  }

  lemma FreeOfConcat(a: string, b: string, from: nat, w: string)
    requires FreeOf(a, from, w) && FreeOf(b, 0, w)
    ensures FreeOf(a + b, from, w)
  {
    FreeOfAcrossGap(a, [], b, w, from);
    assert a + [] + b == a + b;
  }

  /** FreeOf carried along a text made of six pieces. */
  lemma FreeOfPieces(a: string, b: string, c: string, d: string, e: string, f: string, from: nat, w: string)
    requires FreeOf(a, from, w) && FreeOf(b, 0, w) && FreeOf(c, 0, w)
    requires FreeOf(d, 0, w) && FreeOf(e, 0, w) && FreeOf(f, 0, w)
    ensures FreeOf(a + (b + c + d + e + f), from, w)
  {
    FreeOfConcat(a, b, from, w);
    FreeOfConcat(a + b, c, from, w);
    FreeOfConcat(a + b + c, d, from, w);
    FreeOfConcat(a + b + c + d, e, from, w);
    FreeOfConcat(a + b + c + d + e, f, from, w);
    assert a + b + c + d + e + f == a + (b + c + d + e + f);
  }

  /** Whatever cannot begin `v` cannot begin a text `w` that starts with `v`. */
  lemma FreeOfPrefix(m: string, from: nat, v: string, w: string)
    requires FreeOf(m, from, v) && v <= w
    ensures FreeOf(m, from, w)
  {
    forall k | from <= k < |m| ensures !Opens(m, k, w) {
      if Opens(m, k, w) {
        OpensPrefix(m, k, w, v);
      }
    }
  }

  /** No position of `m` from `from` on shows the first three characters of
      `w` (as far as `m` goes): a check that can be done by reading `m`. */
  predicate NoTriple(m: string, from: nat, w: string)
    requires |w| >= 3
  {
    forall k {:trigger m[k]} :: from <= k < |m| ==>
      !(m[k] == w[0] && (k + 1 < |m| ==> m[k + 1] == w[1]) && (k + 2 < |m| ==> m[k + 2] == w[2]))
  }

  lemma FreeOfTriple(m: string, from: nat, w: string)
    requires |w| >= 3 && NoTriple(m, from, w)
    ensures FreeOf(m, from, w)
  {
    forall k | from <= k < |m| ensures !Opens(m, k, w) {
      var c := m[k];
    }
  }
}
