/**
 * String operations the Python scripts take from `str`: substring search
 * (`in`), `split(sep)[0]`, `split(sep)[-1]`, `rstrip()`, `strip()` and
 * `"\n".join`.
 */
module Text {

  import opened Wrappers

  predicate IsPrefix(p: string, s: string) {
    |p| <= |s| && s[..|p|] == p
  }

  predicate IsSuffix(p: string, s: string) {
    |p| <= |s| && s[|s| - |p|..] == p
  }

  /** `pat` occurs in `s` starting at index `i`. */
  predicate OccursAt(s: string, pat: string, i: nat) {
    i + |pat| <= |s| && s[i..i + |pat|] == pat
  }

  /** Python's `pat in s`. */
  predicate Contains(s: string, pat: string) {
    exists i: nat | i <= |s| :: OccursAt(s, pat, i)
  }

  /** First index at or after `k` where `pat` occurs in `s` (the scan of `str.find`). */
  function FindFrom(s: string, pat: string, k: nat): (r: Option<nat>)
    decreases |s| - k
    ensures r.Some? ==> k <= r.value && OccursAt(s, pat, r.value)
    ensures r.Some? ==> forall j: nat :: k <= j < r.value ==> !OccursAt(s, pat, j)
    ensures r.None? ==> forall j: nat :: k <= j ==> !OccursAt(s, pat, j)
  {
    if k + |pat| > |s| then None
    else if s[k..k + |pat|] == pat then Some(k)
    else FindFrom(s, pat, k + 1)
  }

  lemma FindFirst(s: string, pat: string)
    ensures Contains(s, pat) <==> FindFrom(s, pat, 0).Some?
  {
  }

  /** An occurrence inside a prefix is an occurrence in the whole string. */
  lemma OccursInPrefix(s: string, n: nat, pat: string, j: nat)
    requires n <= |s| && OccursAt(s[..n], pat, j)
    ensures OccursAt(s, pat, j)
  {
    assert s[..n][j..j + |pat|] == s[j..j + |pat|];
  }

  /** An occurrence inside a suffix is an occurrence in the whole string, shifted. */
  lemma OccursInSuffix(s: string, n: nat, pat: string, j: nat)
    requires n <= |s| && OccursAt(s[n..], pat, j)
    ensures OccursAt(s, pat, n + j)
  {
    assert s[n..][j..j + |pat|] == s[n + j..n + j + |pat|];
  }

  /** Python's `s.split(sep)[0]`: the text before the first occurrence of `sep`. */
  function SplitFirst(s: string, sep: string): (r: string)
    requires sep != []
    ensures IsPrefix(r, s) && !Contains(r, sep)
    ensures Contains(s, sep) ==> OccursAt(s, sep, |r|)
    ensures Contains(s, sep) ==> forall k: nat | k < |r| :: !OccursAt(s, sep, k)
    ensures !Contains(s, sep) ==> r == s
  {
    FindFirst(s, sep);
    match FindFrom(s, sep, 0)
    case None => s
    case Some(i) =>
      var r := s[..i];
      assert !Contains(r, sep) by {
        forall j: nat | j <= |r| ensures !OccursAt(r, sep, j) {
          if OccursAt(r, sep, j) { OccursInPrefix(s, i, sep, j); }
        }
      }
      r
  }

  /**
   * Python's `s.split(sep)[-1]`: split scans left to right for non-overlapping
   * occurrences, and the last piece is what follows the last one it finds.
   */
  function SplitLast(s: string, sep: string): (r: string)
    requires sep != []
    decreases |s|
    ensures IsSuffix(r, s) && !Contains(r, sep)
    ensures Contains(s, sep) ==> IsSuffix(sep, s[..|s| - |r|])
    ensures !Contains(s, sep) ==> r == s
  {
    FindFirst(s, sep);
    match FindFrom(s, sep, 0)
    case None => s
    case Some(i) =>
      var r := SplitLast(s[i + |sep|..], sep);
      SplitLastStep(s, sep, i, r);
      r
  }

  /** One step of the scan: what holds of the tail after the first separator holds of `s`. */
  lemma SplitLastStep(s: string, sep: string, i: nat, r: string)
    requires OccursAt(s, sep, i)
    requires IsSuffix(r, s[i + |sep|..])
    requires Contains(s[i + |sep|..], sep) ==> IsSuffix(sep, s[i + |sep|..][..|s| - i - |sep| - |r|])
    requires !Contains(s[i + |sep|..], sep) ==> r == s[i + |sep|..]
    ensures IsSuffix(r, s)
    ensures IsSuffix(sep, s[..|s| - |r|])
  {
    var k := i + |sep|;
    var rest := s[k..];
    var pre := s[..|s| - |r|];
    assert s[|s| - |r|..] == rest[|rest| - |r|..];
    if Contains(rest, sep) {
      var q := rest[..|rest| - |r|];
      assert IsSuffix(sep, q);
      assert pre == s[..k] + q;
      assert pre[|pre| - |sep|..] == q[|q| - |sep|..];
    } else {
      assert pre == s[..k];
      assert pre[|pre| - |sep|..] == s[i..k];
    }
  }

  /** The characters for which Python's `str.isspace()` holds. */
  predicate IsSpace(c: char) {
    || c == ' '
    || '\t' <= c <= '\r'
    || '\U{1C}' <= c <= '\U{1F}'
    || c == '\U{85}' || c == '\U{A0}' || c == '\U{1680}'
    || '\U{2000}' <= c <= '\U{200A}'
    || c == '\U{2028}' || c == '\U{2029}' || c == '\U{202F}' || c == '\U{205F}'
    || c == '\U{3000}'
  }

  /** `s.strip()` is the empty string. */
  predicate IsBlank(s: string) {
    forall i | 0 <= i < |s| :: IsSpace(s[i])
  }

  /** Python's `s.rstrip()`: drop trailing whitespace. */
  function RStrip(s: string): (r: string)
    ensures IsPrefix(r, s)
    ensures forall i | |r| <= i < |s| :: IsSpace(s[i])
    ensures r == [] || !IsSpace(r[|r| - 1])
  {
    if s == [] then []
    else if IsSpace(s[|s| - 1]) then RStrip(s[..|s| - 1])
    else s
  }

  /** Python's `"\n".join(lines)`. */
  function Join(lines: seq<string>): string {
    if |lines| == 0 then ""
    else if |lines| == 1 then lines[0]
    else lines[0] + "\n" + Join(lines[1..])
  }

  lemma {:induction false} JoinEnds(lines: seq<string>)
    requires |lines| > 0
    ensures IsPrefix(lines[0], Join(lines))
    ensures IsSuffix(lines[|lines| - 1], Join(lines))
  {
    if |lines| > 1 {
      JoinEnds(lines[1..]);
    }
  }

  lemma CharOfOccurrence(s: string, pat: string, i: nat, k: nat)
    requires OccursAt(s, pat, i) && i <= k < i + |pat|
    ensures s[k] in pat
  {
    assert s[k] == s[i..i + |pat|][k - i];
  }

  lemma OccurrenceChar(s: string, pat: string, i: nat, k: nat)
    requires OccursAt(s, pat, i) && k < |pat|
    ensures s[i + k] == pat[k]
  {
    assert s[i + k] == s[i..i + |pat|][k];
  }

  /** A string missing one of the characters of `pat` does not contain `pat`. */
  lemma MissingChar(s: string, pat: string, c: char)
    requires c in pat && c !in s
    ensures !Contains(s, pat)
  {
    var k: nat :| k < |pat| && pat[k] == c;
    forall i: nat | i <= |s|
      ensures !OccursAt(s, pat, i)
    {
      if OccursAt(s, pat, i) {
        OccurrenceChar(s, pat, i, k);
        assert false;
      }
    }
  }

  /** A character that `pat` lacks splits every occurrence of `pat` to one side. */
  lemma SplitAtChar(x: string, c: char, y: string, pat: string)
    requires c !in pat
    requires Contains(x + [c] + y, pat)
    ensures Contains(x, pat) || Contains(y, pat)
  {
    var s := x + [c] + y;
    var i: nat :| i <= |s| && OccursAt(s, pat, i);
    if i + |pat| <= |x| {
      assert s[i..i + |pat|] == x[i..i + |pat|];
      assert OccursAt(x, pat, i);
    } else if i > |x| {
      assert s[i..i + |pat|] == y[i - |x| - 1..i - |x| - 1 + |pat|];
      assert OccursAt(y, pat, i - |x| - 1);
    } else {
      CharOfOccurrence(s, pat, i, |x|);
      assert false;
    }
  }

  /**
   * When a character next to the seam of `a + b` is missing from `pat`, no
   * occurrence of `pat` straddles the seam.
   */
  lemma SplitAtSeam(a: string, b: string, pat: string)
    requires (a != [] && a[|a| - 1] !in pat) || (b != [] && b[0] !in pat)
    requires Contains(a + b, pat)
    ensures Contains(a, pat) || Contains(b, pat)
  {
    var s := a + b;
    var i: nat :| i <= |s| && OccursAt(s, pat, i);
    if i + |pat| <= |a| {
      assert s[i..i + |pat|] == a[i..i + |pat|];
      assert OccursAt(a, pat, i);
    } else if i >= |a| {
      assert s[i..i + |pat|] == b[i - |a|..i - |a| + |pat|];
      assert OccursAt(b, pat, i - |a|);
    } else if a != [] && a[|a| - 1] !in pat {
      CharOfOccurrence(s, pat, i, |a| - 1);
      assert false;
    } else {
      CharOfOccurrence(s, pat, i, |a|);
      assert false;
    }
  }

  lemma OccursBetween(a: string, pat: string, b: string)
    ensures OccursAt(a + pat + b, pat, |a|)
  {
    assert (a + pat + b)[|a|..|a| + |pat|] == pat;
  }
}
