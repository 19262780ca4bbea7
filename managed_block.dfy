/**
 * `write_managed_block`: the text a managed aliases file holds after the
 * block is written (the temporary-file rename is not modelled).
 */
module ManagedBlock {

  import opened Text

  const SentinelBegin := "# >>> k8s-aliases (managed) >>>"
  const SentinelEnd := "# <<< k8s-aliases (managed) <<<"

  /** What `render_shell_block` produces: opens with the begin marker, ends with the end marker and a newline. */
  predicate IsManagedBlock(b: string) {
    IsPrefix(SentinelBegin, b) && IsSuffix(SentinelEnd + "\n", b)
  }

  /** The first character of `pat` occurs nowhere else in it, so two occurrences never overlap. */
  predicate FirstCharUnique(pat: string) {
    pat != [] && forall k | 0 < k < |pat| :: pat[k] != pat[0]
  }

  lemma SentinelsFirstCharUnique()
    ensures FirstCharUnique(SentinelBegin) && FirstCharUnique(SentinelEnd)
    ensures '\n' !in SentinelBegin && '\n' !in SentinelEnd
  {
  }

  lemma NoOverlap(s: string, pat: string, a: nat, b: nat)
    requires FirstCharUnique(pat)
    requires OccursAt(s, pat, a) && OccursAt(s, pat, b) && a < b
    ensures a + |pat| <= b
  {
    if b < a + |pat| {
      CharOfOccurrence(s, pat, a, b);
      assert false;
    }
  }

  /** An occurrence of `sep` ends at `j`. */
  lemma EndsAt(s: string, sep: string, j: nat)
    requires j <= |s| && IsSuffix(sep, s[..j])
    ensures j >= |sep| && OccursAt(s, sep, j - |sep|)
  {
    assert s[..j][j - |sep|..] == s[j - |sep|..j];
  }

  /** An occurrence at or after `j` is an occurrence in `s[j..]`. */
  lemma InSuffix(s: string, j: nat, sep: string, q: nat)
    requires j <= q && OccursAt(s, sep, q)
    ensures Contains(s[j..], sep)
  {
    assert s[j..][q - j..q - j + |sep|] == s[q..q + |sep|];
    assert OccursAt(s[j..], sep, q - j);
  }

  /** An occurrence wholly before `n` is an occurrence in `s[..n]`. */
  lemma InPrefix(s: string, n: nat, sep: string, q: nat)
    requires n <= |s| && q + |sep| <= n && OccursAt(s, sep, q)
    ensures Contains(s[..n], sep)
  {
    assert s[..n][q..q + |sep|] == s[q..q + |sep|];
    assert OccursAt(s[..n], sep, q);
  }

  /** `s.split(sep)[0]` is `s[..i]` when `i` is the first occurrence of `sep`. */
  lemma SplitFirstAt(s: string, sep: string, i: nat)
    requires sep != []
    requires OccursAt(s, sep, i) && forall k: nat | k < i :: !OccursAt(s, sep, k)
    ensures SplitFirst(s, sep) == s[..i]
  {
    assert Contains(s, sep);
  }

  /** An occurrence ends at `j` and `s[j..]` holds none. */
  predicate LastEnd(s: string, sep: string, j: nat) {
    j <= |s| && IsSuffix(sep, s[..j]) && !Contains(s[j..], sep)
  }

  lemma LastEndNotBefore(s: string, sep: string, j: nat, j': nat)
    requires FirstCharUnique(sep) && LastEnd(s, sep, j) && LastEnd(s, sep, j')
    ensures j' <= j
  {
    if j < j' {
      EndsAt(s, sep, j);
      EndsAt(s, sep, j');
      if j' - |sep| >= j {
        InSuffix(s, j, sep, j' - |sep|);
      } else {
        NoOverlap(s, sep, j - |sep|, j' - |sep|);
      }
      assert false;
    }
  }

  /** `s.split(sep)[-1]` is `s[j..]` when an occurrence ends at `j` and none follows. */
  lemma SplitLastAt(s: string, sep: string, j: nat)
    requires FirstCharUnique(sep) && LastEnd(s, sep, j)
    ensures SplitLast(s, sep) == s[j..]
  {
    EndsAt(s, sep, j);
    assert Contains(s, sep);
    var r := SplitLast(s, sep);
    var j' := |s| - |r|;
    assert r == s[j'..];
    assert LastEnd(s, sep, j');
    LastEndNotBefore(s, sep, j, j');
    LastEndNotBefore(s, sep, j', j);
  }

  /** The new file text computed from the file's current text and the block (lines 205-210). */
  function Splice(text: string, block: string): string {
    if Contains(text, SentinelBegin) && Contains(text, SentinelEnd) then
      SplitFirst(text, SentinelBegin) + block + SplitLast(text, SentinelEnd)
    else if !IsBlank(text) then
      RStrip(text) + "\n\n" + block
    else
      block
  }

  /** The part of `text` that `Splice` keeps in front of the block. */
  function Head(text: string): string {
    if Contains(text, SentinelBegin) && Contains(text, SentinelEnd) then SplitFirst(text, SentinelBegin)
    else if !IsBlank(text) then RStrip(text) + "\n\n"
    else ""
  }

  /** The part of `text` that `Splice` keeps after the block. */
  function Tail(text: string): string {
    if Contains(text, SentinelBegin) && Contains(text, SentinelEnd) then SplitLast(text, SentinelEnd) else ""
  }

  /** With both markers present, the text from the first begin marker to the end of the last end marker is replaced. */
  lemma SpliceReplacesRegion(text: string, block: string, i: nat, j: nat)
    requires OccursAt(text, SentinelBegin, i) && forall k: nat | k < i :: !OccursAt(text, SentinelBegin, k)
    requires LastEnd(text, SentinelEnd, j)
    ensures Splice(text, block) == text[..i] + block + text[j..]
  {
    SentinelsFirstCharUnique();
    EndsAt(text, SentinelEnd, j);
    assert Contains(text, SentinelBegin) && Contains(text, SentinelEnd);
    SplitFirstAt(text, SentinelBegin, i);
    SplitLastAt(text, SentinelEnd, j);
  }

  /** If `s[..i]` holds no `pat` and `pat` occurs at `i`, that is its first occurrence. */
  lemma FirstOccurrenceAt(s: string, pat: string, i: nat)
    requires FirstCharUnique(pat) && OccursAt(s, pat, i) && !Contains(s[..i], pat)
    ensures forall k: nat | k < i :: !OccursAt(s, pat, k)
  {
    forall k: nat | k < i ensures !OccursAt(s, pat, k) {
      if OccursAt(s, pat, k) {
        if k + |pat| <= i {
          InPrefix(s, i, pat, k);
        } else {
          NoOverlap(s, pat, k, i);
        }
        assert false;
      }
    }
  }

  lemma HeadAvoidsBegin(text: string)
    requires Contains(text, SentinelBegin) ==> Contains(text, SentinelEnd)
    ensures !Contains(Head(text), SentinelBegin)
  {
    SentinelsFirstCharUnique();
    if !Contains(text, SentinelBegin) && !IsBlank(text) {
      var r := RStrip(text);
      if Contains(r, SentinelBegin) {
        var q: nat :| q <= |r| && OccursAt(r, SentinelBegin, q);
        assert r == text[..|r|];
        OccursInPrefix(text, |r|, SentinelBegin, q);
        assert false;
      }
      assert r + "\n\n" == r + ['\n'] + "\n";
      if Contains(r + "\n\n", SentinelBegin) {
        SplitAtChar(r, '\n', "\n", SentinelBegin);
        assert false;
      }
    }
  }

  lemma SpliceParts(text: string, block: string)
    ensures Splice(text, block) == Head(text) + block + Tail(text)
  {
  }

  /**
   * Without both markers, a blank text is replaced by the block; otherwise the
   * block follows the text's content (trailing whitespace dropped) and one blank line.
   */
  lemma SpliceAppendsBlock(text: string, block: string)
    requires !(Contains(text, SentinelBegin) && Contains(text, SentinelEnd))
    ensures IsBlank(text) ==> Splice(text, block) == block
    ensures !IsBlank(text) ==>
              var n := |RStrip(text)|;
              && 0 < n <= |text|
              && Splice(text, block) == text[..n] + "\n\n" + block
              && !IsSpace(text[n - 1])
              && IsBlank(text[n..])
  {
    var r := RStrip(text);
    assert r == text[..|r|];
    assert |r| == 0 ==> IsBlank(text);
    assert forall i | 0 <= i < |text| - |r| :: text[|r|..][i] == text[|r| + i];
  }

  /** The block always appears in the new text, right after the kept head. */
  lemma SpliceInstallsBlock(text: string, block: string)
    ensures OccursAt(Splice(text, block), block, |Head(text)|)
  {
    OccursBetween(Head(text), block, Tail(text));
  }

  /** In `h + block + t` with no begin marker in `h`, the first begin marker opens the block. */
  lemma FirstBeginOpensBlock(h: string, block: string, t: string)
    requires IsManagedBlock(block) && !Contains(h, SentinelBegin)
    ensures Contains(h + block + t, SentinelBegin)
    ensures SplitFirst(h + block + t, SentinelBegin) == h
  {
    SentinelsFirstCharUnique();
    var s := h + block + t;
    assert s[|h|..|h| + |SentinelBegin|] == block[..|SentinelBegin|];
    assert OccursAt(s, SentinelBegin, |h|);
    assert s[..|h|] == h;
    FirstOccurrenceAt(s, SentinelBegin, |h|);
    SplitFirstAt(s, SentinelBegin, |h|);
  }

  /** In `h + block + t`, where `block` ends with `end + "\n"` and `t` holds no `end`, the last `end` closes the block. */
  lemma LastClosesBlock(h: string, block: string, t: string, end: string)
    requires FirstCharUnique(end) && '\n' !in end
    requires IsSuffix(end + "\n", block) && !Contains(t, end)
    ensures Contains(h + block + t, end)
    ensures SplitLast(h + block + t, end) == "\n" + t
  {
    var s := h + block + t;
    var j := |h| + |block| - 1;
    assert s[j - |end|..j] == block[|block| - |end| - 1..|block| - 1] == (end + "\n")[..|end|] == end;
    assert s[..j][j - |end|..] == s[j - |end|..j];
    assert s[j..] == [] + ['\n'] + t;
    if Contains(s[j..], end) {
      SplitAtChar([], '\n', t, end);
      assert false;
    }
    SplitLastAt(s, end, j);
    EndsAt(s, end, j);
  }

  /** In `h + block + t` with no end marker in `t`, the last end marker closes the block. */
  lemma LastEndClosesBlock(h: string, block: string, t: string)
    requires IsManagedBlock(block) && !Contains(t, SentinelEnd)
    ensures Contains(h + block + t, SentinelEnd)
    ensures SplitLast(h + block + t, SentinelEnd) == "\n" + t
  {
    SentinelsFirstCharUnique();
    LastClosesBlock(h, block, t, SentinelEnd);
  }

  /**
   * Writing the block is not idempotent: writing the same managed block a
   * second time keeps the same surrounding text but adds one more newline
   * after the block, because the block ends with the end marker and a
   * newline and that newline is kept as part of the text after the marker.
   * (A file holding a begin marker without an end marker is the case of
   * `ReapplyAfterLoneBegin`.)
   */
  lemma ReapplyAddsNewline(text: string, block: string)
    requires IsManagedBlock(block)
    requires Contains(text, SentinelBegin) ==> Contains(text, SentinelEnd)
    ensures Splice(text, block) == Head(text) + block + Tail(text)
    ensures Splice(Splice(text, block), block) == Head(text) + block + "\n" + Tail(text)
  {
    HeadAvoidsBegin(text);
    TailAvoidsEnd(text);
    SpliceParts(text, block);
    SpliceAgain(Head(text), block, Tail(text));
  }

  /** Splicing into text that already holds the block exactly once between its markers. */
  lemma SpliceAgain(h: string, block: string, t: string)
    requires IsManagedBlock(block) && !Contains(h, SentinelBegin) && !Contains(t, SentinelEnd)
    ensures Splice(h + block + t, block) == h + block + "\n" + t
  {
    FirstBeginOpensBlock(h, block, t);
    LastEndClosesBlock(h, block, t);
    SpliceMarked(h + block + t, block);
    assert h + block + ("\n" + t) == h + block + "\n" + t;
  }

  lemma TailAvoidsEnd(text: string)
    ensures !Contains(Tail(text), SentinelEnd)
  {
  }

  lemma SpliceMarked(text: string, block: string)
    requires Contains(text, SentinelBegin) && Contains(text, SentinelEnd)
    ensures Splice(text, block) == SplitFirst(text, SentinelBegin) + block + SplitLast(text, SentinelEnd)
  {
  }

  /** A begin marker in `text` lies wholly inside the part that `rstrip` keeps. */
  lemma BeginInStripped(text: string)
    requires Contains(text, SentinelBegin)
    ensures !IsBlank(text)
    ensures Contains(RStrip(text), SentinelBegin)
  {
    var i := |SplitFirst(text, SentinelBegin)|;
    var n := |SentinelBegin|;
    OccurrenceChar(text, SentinelBegin, i, 0);
    OccurrenceChar(text, SentinelBegin, i, n - 1);
    assert SentinelBegin[n - 1] == '>';
    InPrefix(text, |RStrip(text)|, SentinelBegin, i);
  }

  /** Text appended after an occurrence of `pat` does not move the first one. */
  lemma FirstInPrefix(p: string, t: string, pat: string)
    requires pat != [] && Contains(p, pat)
    ensures Contains(p + t, pat)
    ensures SplitFirst(p + t, pat) == SplitFirst(p, pat)
  {
    var s := p + t;
    var i := |SplitFirst(p, pat)|;
    var n := |pat|;
    assert s[i..i + n] == p[i..i + n];
    forall k: nat | k < i
      ensures !OccursAt(s, pat, k)
    {
      assert !OccursAt(p, pat, k);
      assert s[k..k + n] == p[k..k + n];
    }
    SplitFirstAt(s, pat, i);
    assert s[..i] == p[..i];
  }

  lemma LoneBeginFirstWrite(text: string, block: string)
    requires Contains(text, SentinelBegin) && !Contains(text, SentinelEnd)
    ensures Splice(text, block) == RStrip(text) + "\n\n" + block
  {
    BeginInStripped(text);
  }

  /** Writing the block into `r + "\n\n" + block`, where `r` holds a begin marker. */
  lemma LoneBeginSecondWrite(r: string, block: string)
    requires IsManagedBlock(block) && Contains(r, SentinelBegin)
    ensures Splice(r + "\n\n" + block, block) == SplitFirst(r, SentinelBegin) + block + "\n"
  {
    var s := r + "\n\n" + block;
    assert s == r + ("\n\n" + block);
    FirstInPrefix(r, "\n\n" + block, SentinelBegin);
    LastEndClosesBlock(r + "\n\n", block, "");
    assert r + "\n\n" + block + "" == s;
    SpliceMarked(s, block);
  }

  /**
   * A file holding a begin marker but no end marker: the first write appends
   * the block, and the second write then drops everything from that lone
   * begin marker through the first block, so the file gets shorter.
   */
  lemma ReapplyAfterLoneBegin(text: string, block: string)
    requires IsManagedBlock(block)
    requires Contains(text, SentinelBegin) && !Contains(text, SentinelEnd)
    ensures Splice(text, block) == RStrip(text) + "\n\n" + block
    ensures Splice(Splice(text, block), block) == SplitFirst(text, SentinelBegin) + block + "\n"
    ensures |Splice(Splice(text, block), block)| < |Splice(text, block)|
  {
    BeginInStripped(text);
    var r := RStrip(text);
    LoneBeginFirstWrite(text, block);
    assert text == r + text[|r|..];
    FirstInPrefix(r, text[|r|..], SentinelBegin);
    LoneBeginSecondWrite(r, block);
    assert |SplitFirst(r, SentinelBegin)| < |r|;
  }

  /**
   * Writing the same block twice never leaves the file as the first write
   * did: it grows by one newline when every begin marker has an end marker,
   * and it shrinks when the file held a begin marker without an end marker.
   */
  lemma SpliceNotIdempotent(text: string, block: string)
    requires IsManagedBlock(block)
    ensures Splice(Splice(text, block), block) != Splice(text, block)
    ensures (Contains(text, SentinelBegin) ==> Contains(text, SentinelEnd)) ==>
              |Splice(Splice(text, block), block)| == |Splice(text, block)| + 1
    ensures Contains(text, SentinelBegin) && !Contains(text, SentinelEnd) ==>
              |Splice(Splice(text, block), block)| < |Splice(text, block)|
  {
    if Contains(text, SentinelBegin) && !Contains(text, SentinelEnd) {
      ReapplyAfterLoneBegin(text, block);
    } else {
      ReapplyAddsNewline(text, block);
    }
  }
}
