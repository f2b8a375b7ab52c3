/** Python string operations used by the patch script: the substring test
    `marker in text` and `text.replace(marker, replacement)`, which replaces
    every non-overlapping occurrence found scanning left to right. */
module Text {

  /** `p` occurs in `s` starting at index `i`. */
  predicate OccursAt(s: string, p: string, i: int)
  {
    0 <= i && i + |p| <= |s| && s[i..i + |p|] == p
  }

  /** Python's `p in s`. */
  predicate Contains(s: string, p: string)
  {
    exists i | 0 <= i <= |s| - |p| :: OccursAt(s, p, i)
  }

  /** Python's `s.replace(p, rep)` for a non-empty `p`: at each position, an
      occurrence of `p` is replaced and skipped over, otherwise one character
      is copied. */
  function ReplaceAll(s: string, p: string, rep: string): string
    requires |p| > 0
    decreases |s|
  {
    if |s| < |p| then s
    else if s[..|p|] == p then rep + ReplaceAll(s[|p|..], p, rep)
    else [s[0]] + ReplaceAll(s[1..], p, rep)
  }

  /** The number of occurrences of `p` that the left-to-right scan of
      `ReplaceAll` replaces. */
  function Count(s: string, p: string): nat
    requires |p| > 0
    decreases |s|
  {
    if |s| < |p| then 0
    else if s[..|p|] == p then 1 + Count(s[|p|..], p)
    else Count(s[1..], p)
  }

  /** The `if marker in content: content = content.replace(marker, rep)`
      idiom of the patch script. */
  function Rewrite(s: string, p: string, rep: string): (r: string)
    requires |p| > 0
    ensures !Contains(s, p) ==> r == s
    ensures |r| == |s| + Count(s, p) * (|rep| - |p|)
    ensures Contains(s, p) && |rep| > |p| ==> |r| > |s|
    ensures Contains(s, p) ==> Contains(r, rep)
  {
    CountPositiveIffContains(s, p);
    if Contains(s, p) then
      ReplaceAllLength(s, p, rep);
      ReplaceAllHasReplacement(s, p, rep);
      var k := Count(s, p);
      assert |rep| > |p| ==> k * (|rep| - |p|) >= |rep| - |p| by {
        if |rep| > |p| { MulAtLeast(k, |rep| - |p|); }
      }
      ReplaceAll(s, p, rep)
    else
      s
  }

  /** The length of a guarded rewrite whose replacement is `d` characters
      longer than its marker. */
  lemma RewriteGrowth(s: string, p: string, rep: string, d: int)
    requires |p| > 0 && |rep| == |p| + d
    ensures |Rewrite(s, p, rep)| == |s| + Count(s, p) * d
  {
  }

  /** A positive count of growing replacements grows the text by at least one
      replacement's worth. */
  lemma MulAtLeast(k: int, d: int)
    requires k >= 1 && d >= 0
    ensures k * d >= d
  {
  }

  // ---------------------------------------------------------------------
  // Occurrences under slicing and concatenation
  // ---------------------------------------------------------------------

  /** When `p` does not start `s`, `s` contains `p` exactly when its tail does. */
  lemma ContainsTail(s: string, p: string)
    requires |s| > 0 && !OccursAt(s, p, 0)
    ensures Contains(s, p) <==> Contains(s[1..], p)
  {
    if Contains(s, p) {
      var i :| 0 <= i <= |s| - |p| && OccursAt(s, p, i);
      assert i > 0;
      assert s[1..][i - 1..i - 1 + |p|] == s[i..i + |p|];
      assert OccursAt(s[1..], p, i - 1);
    }
    if Contains(s[1..], p) {
      var j :| 0 <= j <= |s[1..]| - |p| && OccursAt(s[1..], p, j);
      assert s[j + 1..j + 1 + |p|] == s[1..][j..j + |p|];
      assert OccursAt(s, p, j + 1);
    }
  }

  /** An occurrence in `b` is an occurrence in `a + b`, shifted by `|a|`. */
  lemma ContainsAfter(a: string, b: string, p: string)
    requires Contains(b, p)
    ensures Contains(a + b, p)
  {
    var j :| 0 <= j <= |b| - |p| && OccursAt(b, p, j);
    assert (a + b)[|a| + j..|a| + j + |p|] == b[j..j + |p|];
    assert OccursAt(a + b, p, |a| + j);
  }

  /** An occurrence in `a` is an occurrence in `a + b` at the same index. */
  lemma ContainsBefore(a: string, b: string, p: string)
    requires Contains(a, p)
    ensures Contains(a + b, p)
  {
    var j :| 0 <= j <= |a| - |p| && OccursAt(a, p, j);
    assert (a + b)[j..j + |p|] == a[j..j + |p|];
    assert OccursAt(a + b, p, j);
  }

  /** Every string contains itself. */
  lemma ContainsSelf(p: string)
    ensures Contains(p, p)
  {
    assert p[0..|p|] == p;
    assert OccursAt(p, p, 0);
  }

  // ---------------------------------------------------------------------
  // Properties of the scan
  // ---------------------------------------------------------------------

  /** The scan replaces at least one occurrence exactly when `p` is a substring. */
  lemma {:induction false} CountPositiveIffContains(s: string, p: string)
    requires |p| > 0
    ensures Count(s, p) > 0 <==> Contains(s, p)
    decreases |s|
  {
    if |s| < |p| {
    } else if s[..|p|] == p {
      assert OccursAt(s, p, 0);
    } else {
      assert !OccursAt(s, p, 0);
      ContainsTail(s, p);
      CountPositiveIffContains(s[1..], p);
    }
  }

  /** Python: when the marker is absent, `replace` returns the text unchanged. */
  lemma {:induction false} ReplaceAllAbsent(s: string, p: string, rep: string)
    requires |p| > 0 && !Contains(s, p)
    ensures ReplaceAll(s, p, rep) == s
    decreases |s|
  {
    if |s| < |p| {
    } else {
      assert !OccursAt(s, p, 0);
      ContainsTail(s, p);
      ReplaceAllAbsent(s[1..], p, rep);
      assert [s[0]] + s[1..] == s;
    }
  }

  /** Each replaced occurrence changes the length by `|rep| - |p|`. */
  lemma {:induction false} ReplaceAllLength(s: string, p: string, rep: string)
    requires |p| > 0
    ensures |ReplaceAll(s, p, rep)| == |s| + Count(s, p) * (|rep| - |p|)
    decreases |s|
  {
    if |s| < |p| {
    } else if s[..|p|] == p {
      ReplaceAllLength(s[|p|..], p, rep);
      var k := Count(s[|p|..], p);
      assert (1 + k) * (|rep| - |p|) == (|rep| - |p|) + k * (|rep| - |p|);
    } else {
      ReplaceAllLength(s[1..], p, rep);
    }
  }

  /** If the replacement contains the marker, a marker present before the
      replacement is still present after it. */
  lemma {:induction false} ReplaceAllKeepsMarker(s: string, p: string, rep: string)
    requires |p| > 0 && Contains(rep, p) && Contains(s, p)
    ensures Contains(ReplaceAll(s, p, rep), p)
    decreases |s|
  {
    if |s| < |p| {
    } else if s[..|p|] == p {
      ContainsBefore(rep, ReplaceAll(s[|p|..], p, rep), p);
    } else {
      assert !OccursAt(s, p, 0);
      ContainsTail(s, p);
      ReplaceAllKeepsMarker(s[1..], p, rep);
      ContainsAfter([s[0]], ReplaceAll(s[1..], p, rep), p);
    }
  }

  /** A `replace` that finds its marker puts the replacement into the text. */
  lemma {:induction false} ReplaceAllHasReplacement(s: string, p: string, rep: string)
    requires |p| > 0 && Contains(s, p)
    ensures Contains(ReplaceAll(s, p, rep), rep)
    decreases |s|
  {
    if |s| < |p| {
    } else if s[..|p|] == p {
      ContainsSelf(rep);
      ContainsBefore(rep, ReplaceAll(s[|p|..], p, rep), rep);
    } else {
      assert !OccursAt(s, p, 0);
      ContainsTail(s, p);
      ReplaceAllHasReplacement(s[1..], p, rep);
      ContainsAfter([s[0]], ReplaceAll(s[1..], p, rep), rep);
    }
  }

  /** The guard in front of `replace` changes nothing: the guarded rewrite is
      Python's `replace` itself. */
  lemma RewriteIsReplaceAll(s: string, p: string, rep: string)
    requires |p| > 0
    ensures Rewrite(s, p, rep) == ReplaceAll(s, p, rep)
  {
    if !Contains(s, p) {
      ReplaceAllAbsent(s, p, rep);
    }
  }

  /** A guarded rewrite whose replacement contains its own marker leaves the
      marker in place, so applying it a second time changes the text again. */
  lemma RewriteNotIdempotent(s: string, p: string, rep: string)
    requires |p| > 0 && |rep| > |p| && Contains(rep, p) && Contains(s, p)
    ensures Contains(Rewrite(s, p, rep), p)
    ensures Rewrite(Rewrite(s, p, rep), p, rep) != Rewrite(s, p, rep)
  {
    ReplaceAllKeepsMarker(s, p, rep);
  }
}
