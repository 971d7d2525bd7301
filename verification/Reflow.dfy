/** Breaking text into lines (table_printer_reflow_text in src/table-printer.c).

The routine copies the text, and when a line has become too long it goes back to the last space, turns it
into a newline and copies on from there. */
module Reflow {
  import opened Wrappers

  // ---------------------------------------------------------------------------------------------------
  // What a reflow is

  /** `r` is `src` with some spaces turned into newlines. */
  ghost predicate IsReflow(src: string, r: string)
  {
    |r| == |src| && forall k | 0 <= k < |r| :: r[k] == src[k] || (src[k] == ' ' && r[k] == '\n')
  }

  /** The length that the line at position i has before position i. */
  ghost function LineLen(r: string, i: nat): (n: nat)
    requires i <= |r|
    ensures n <= i
    ensures forall k | i - n <= k < i :: r[k] != '\n'
    ensures n < i ==> r[i - n - 1] == '\n'
  {
    if i == 0 || r[i - 1] == '\n' then 0 else LineLen(r, i - 1) + 1
  }

  ghost predicate LinesFit(r: string, width: int)
  {
    forall i: nat | i <= |r| :: LineLen(r, i) <= width
  }

  /** The newlines before position i. */
  ghost function Newlines(r: string, i: nat): (n: nat)
    requires i <= |r|
  {
    if i == 0 then 0 else Newlines(r, i - 1) + (if r[i - 1] == '\n' then 1 else 0)
  }

  predicate IsBreak(c: char) { c == ' ' || c == '\n' }

  /** A line that is full at the break q: from its start, the longest line allowed reaches beyond q, and there
      is no place to break it after q. */
  ghost predicate FullAt(src: string, r: string, width: int, q: nat)
    requires q <= |r| && |r| <= |src|
  {
    var start := q - LineLen(r, q);
    start + width < |src| && forall k | q < k <= start + width :: !IsBreak(src[k])
  }

  /** Spaces are turned into newlines only where the line is full. */
  ghost predicate Greedy(src: string, r: string, width: int)
    requires |r| <= |src|
  {
    forall q: nat | q < |r| && r[q] == '\n' && src[q] == ' ' :: FullAt(src, r, width, q)
  }

  ghost predicate HasBreak(src: string, from: nat, end: nat)
  {
    exists k :: from <= k < end && k < |src| && IsBreak(src[k])
  }

  /** The characters from i on that make one more than a full line include a place to break. */
  ghost predicate BreakWithin(src: string, i: nat, width: int)
  {
    width >= 0 && HasBreak(src, i, i + width + 1)
  }

  /** The text can be reflowed: no word is longer than the width, and the first line has a place to break
      other than a space at its very start. */
  ghost predicate Fits(src: string, width: int)
  {
    && width >= 0
    && (forall i: nat | i + width < |src| :: BreakWithin(src, i, width))
    && (width < |src| && src[0] == ' ' ==> HasBreak(src, 1, width + 1))
  }

  /** What the routine promises of its result. */
  ghost predicate Correct(src: string, r: string, width: int)
  {
    IsReflow(src, r) && LinesFit(r, width) && Greedy(src, r, width)
  }

  // ---------------------------------------------------------------------------------------------------
  // Fewest lines

  lemma {:induction false} SamePrefixLen(a: string, b: string, i: nat)
    requires i <= |a| && i <= |b| && a[..i] == b[..i]
    ensures LineLen(a, i) == LineLen(b, i) && Newlines(a, i) == Newlines(b, i)
    decreases i
  {
    if i > 0 {
      assert a[i - 1] == a[..i][i - 1] == b[..i][i - 1] == b[i - 1];
      assert a[..i - 1] == a[..i][..i - 1] == b[..i][..i - 1] == b[..i - 1];
      SamePrefixLen(a, b, i - 1);
    }
  }

  lemma {:induction false} NoNewlinesBetween(r: string, i: nat, j: nat)
    requires i <= j <= |r|
    ensures Newlines(r, i) <= Newlines(r, j)
    ensures Newlines(r, i) == Newlines(r, j) <==> forall k | i <= k < j :: r[k] != '\n'
    decreases j
  {
    if i < j { NoNewlinesBetween(r, i, j - 1); }
  }

  lemma {:induction false} LongLine(r: string, i: nat, j: nat)
    requires i <= j <= |r| && forall k | i <= k < j :: r[k] != '\n'
    ensures LineLen(r, j) >= j - i
    decreases j
  {
    if i < j { LongLine(r, i, j - 1); }
  }

  /** At every position a greedy reflow has used no more newlines than any other reflow that fits. */
  lemma {:induction false} GreedyStaysAhead(src: string, r: string, other: string, width: int, p: nat)
    requires Correct(src, r, width)
    requires IsReflow(src, other) && LinesFit(other, width)
    requires p <= |src|
    ensures Newlines(r, p) <= Newlines(other, p)
    decreases p
  {
    if p > 0 {
      var q := p - 1;
      GreedyStaysAhead(src, r, other, width, q);
      if r[q] == '\n' && other[q] != '\n' && Newlines(r, q) == Newlines(other, q) {
        var start := q - LineLen(r, q);
        GreedyStaysAhead(src, r, other, width, start);
        NoNewlinesBetween(r, start, q);
        NoNewlinesBetween(other, start, q);
        assert FullAt(src, r, width, q);
        assert LineLen(r, q) <= width;
        LongLine(other, start, start + width + 1);
        assert false;
      }
    }
  }

  /** No reflow that fits has fewer lines than a correct one. */
  lemma {:induction false} FewestLines(src: string, r: string, other: string, width: int)
    requires Correct(src, r, width)
    requires IsReflow(src, other) && LinesFit(other, width)
    ensures Newlines(r, |r|) <= Newlines(other, |other|)
  {
    GreedyStaysAhead(src, r, other, width, |src|);
  }

  /** There is only one correct reflow. */
  lemma {:induction false} CorrectIsUnique(src: string, r1: string, r2: string, width: int)
    requires Correct(src, r1, width) && Correct(src, r2, width)
    ensures r1 == r2
  {
    hide LinesFit, Greedy;
    forall k | 0 <= k < |src| ensures r1[k] == r2[k] {
      GreedyStaysAhead(src, r1, r2, width, k);
      GreedyStaysAhead(src, r2, r1, width, k);
      GreedyStaysAhead(src, r1, r2, width, k + 1);
      GreedyStaysAhead(src, r2, r1, width, k + 1);
    }
  }

  /** Reflowing a reflowed text changes nothing. */
  lemma {:induction false} Idempotent(src: string, r: string, again: string, width: int)
    requires Correct(src, r, width) && Correct(r, again, width)
    ensures again == r
  {
    assert Correct(r, r, width);
    CorrectIsUnique(r, again, r, width);
  }

  /** A reflow that fits and leaves a leading space alone exists only for texts that fit. */
  lemma {:induction false} FittingTextFits(src: string, r: string, width: int)
    requires IsReflow(src, r) && LinesFit(r, width) && (r != [] ==> r[0] == src[0])
    ensures Fits(src, width)
  {
    assert LineLen(r, 0) <= width;
    forall i: nat | i + width < |src| ensures BreakWithin(src, i, width) {
      BreakInWindow(src, r, width, i);
    }
    if width < |src| && src[0] == ' ' {
      BreakInWindow(src, r, width, 0);
      if !HasBreak(src, 1, width + 1) {
        LongLine(r, 0, width + 1);
        assert false;
      }
    }
  }

  lemma {:induction false} BreakInWindow(src: string, r: string, width: int, i: nat)
    requires IsReflow(src, r) && LinesFit(r, width) && width >= 0 && i + width < |src|
    ensures BreakWithin(src, i, width)
  {
    if !HasBreak(src, i, i + width + 1) {
      forall k | i <= k < i + width + 1 ensures r[k] != '\n' {
        assert !IsBreak(src[k]);
      }
      LongLine(r, i, i + width + 1);
      assert false;
    }
  }

  // ---------------------------------------------------------------------------------------------------
  // The routine

  /** `last` is the last space among the first n characters, or 0. */
  ghost predicate LastSpace(src: string, n: nat, last: nat)
    requires n <= |src|
  {
    && (last < n || last == 0)
    && (0 < last ==> src[last] == ' ')
    && (forall k | last < k < n :: src[k] != ' ')
  }

  /** `out` is what has been copied: a reflow of the beginning of the text in which every line but perhaps
      the last one fits and in which the first character was not touched. */
  ghost predicate Copied(src: string, out: string, width: int)
  {
    && |out| <= |src| && IsReflow(src[..|out|], out)
    && (forall j: nat | j < |out| :: LineLen(out, j) <= width)
    && (out != [] ==> out[0] == src[0])
  }

  lemma {:induction false} PushKeeps(src: string, out: string, width: int)
    requires Copied(src, out, width) && |out| < |src| && LineLen(out, |out|) <= width
    ensures var next := out + [src[|out|]];
            && Copied(src, next, width)
            && LineLen(next, |next|) == (if src[|out|] == '\n' then 0 else LineLen(out, |out|) + 1)
            && (Greedy(src, out, width) ==> Greedy(src, next, width))
  {
    var next := out + [src[|out|]];
    PrefixKeeps(src, out, next, width, |out|);
    assert next[..|out|] == out[..|out|] == out;
    SamePrefixLen(out, next, |out|);
  }

  /** What holds of positions up to n depends only on the characters before n. */
  lemma {:induction false} PrefixKeeps(src: string, a: string, b: string, width: int, n: nat)
    requires n <= |a| && n <= |b| && a[..n] == b[..n] && |a| <= |src| && |b| <= |src|
    ensures forall j: nat | j <= n :: LineLen(a, j) == LineLen(b, j)
    ensures forall q: nat | q < n :: FullAt(src, a, width, q) <==> FullAt(src, b, width, q)
  {
    forall j: nat | j <= n ensures LineLen(a, j) == LineLen(b, j) {
      assert a[..j] == a[..n][..j] == b[..n][..j] == b[..j];
      SamePrefixLen(a, b, j);
    }
  }

  lemma {:induction false} BreakKeeps(src: string, out: string, width: int, last: nat)
    requires Copied(src, out, width) && LastSpace(src, |out|, last) && 0 < last < |out|
    ensures var next := out[..last] + ['\n'];
            Copied(src, next, width) && LineLen(next, |next|) == 0 && LastSpace(src, |next|, last)
  {
    var next := out[..last] + ['\n'];
    assert next[..last] == out[..last];
    PrefixKeeps(src, out, next, width, last);
  }

  /** In a text that fits, a line that has become too long has a space to break at, and breaking at the last
      one is what a greedy reflow does. */
  lemma {:induction false} BreakIsGreedy(src: string, out: string, width: int, last: nat)
    requires Fits(src, width) && Copied(src, out, width) && LastSpace(src, |out|, last) && Greedy(src, out, width)
    requires LineLen(out, |out|) == width + 1
    ensures 0 < last < |out| && out[last] != '\n'
    ensures Greedy(src, out[..last] + ['\n'], width)
  {
    var start := |out| - (width + 1);
    SpaceInLine(src, out, width, start, last);
    var next := out[..last] + ['\n'];
    assert next[..last] == out[..last];
    PrefixKeeps(src, out, next, width, last);
    LineStart(out, start, last);
    assert FullAt(src, next, width, last);
  }

  lemma {:induction false} SpaceInLine(src: string, out: string, width: int, start: nat, last: nat)
    requires Fits(src, width) && Copied(src, out, width) && LastSpace(src, |out|, last)
    requires start + width + 1 == |out| && forall k | start <= k < |out| :: out[k] != '\n'
    ensures start <= last < |out| && 0 < last
    ensures forall k | last < k < |out| :: !IsBreak(src[k])
  {
    forall k | start <= k < |out| ensures src[k] != '\n' {
      assert src[..|out|][k] == src[k];
    }
    assert BreakWithin(src, start, width);
  }

  lemma {:induction false} LineStart(out: string, start: nat, i: nat)
    requires start <= i <= |out| && (start == 0 || out[start - 1] == '\n')
    requires forall k | start <= k < i :: out[k] != '\n'
    ensures LineLen(out, i) == i - start
    decreases i
  {
    if start < i { LineStart(out, start, i - 1); }
  }

  /** The routine. It gives the length written to `dst`, or none where one of its assertions stops it. It
      succeeds exactly when the text fits and `dst` has room for it and a terminator, and the text it leaves
      is then the correct reflow. `mark` is the last place it broke a line at; every return to an earlier
      position moves it forward, so the routine terminates on every input. */
  method ReflowText(dst: array<char>, src: string, width: int) returns (len: Option<nat>)
    requires dst.Length > 0
    modifies dst
    ensures len.Some? <==> Fits(src, width) && |src| < dst.Length
    ensures len.Some? ==>
              len.value == |src| && dst[|src|] == '\0' && Correct(src, dst[..|src|], width)
  {
    var lineLen, lastSpace, dstLen, i := 0, 0, 0, 0;
    ghost var out: string, mark: int := [], -1;
    while true
      invariant dstLen == i == |out| && dstLen < dst.Length && dst[..i] == out
      invariant State(src, out, width, lineLen, lastSpace)
      invariant -1 <= mark < i && mark <= lastSpace && (mark >= 0 ==> out[mark] == '\n')
      decreases |src| - mark, |src| - i
    {
      if lineLen > width {
        BreakState(src, out, width, lineLen, lastSpace);
        if lastSpace <= 0 { return None; }
        if dst[lastSpace] == '\n' { return None; }
        dstLen := dstLen - (i - lastSpace);
        dst[dstLen] := '\n';
        dstLen := dstLen + 1;
        i := lastSpace + 1;
        lineLen := 0;
        mark, out := lastSpace, out[..lastSpace] + ['\n'];
        continue;
      }
      if i == |src| { break; }
      var c := src[i];
      PushState(src, out, width, lineLen, lastSpace);
      if c == ' ' {
        lastSpace := i;
      }
      dst[dstLen] := c;
      dstLen := dstLen + 1;
      if dstLen >= dst.Length { return None; }
      lineLen := lineLen + 1;
      i := i + 1;
      out := out + [c];
      if c == '\n' {
        lineLen := 0;
      }
    }
    Finished(src, out, width, lineLen, lastSpace);
    dst[dstLen] := '\0';
    assert dst[..|src|] == out;
    len := Some(dstLen);
  }

  /** What the routine knows between two characters. */
  ghost predicate State(src: string, out: string, width: int, lineLen: nat, lastSpace: nat)
  {
    && Copied(src, out, width) && LastSpace(src, |out|, lastSpace)
    && lineLen == LineLen(out, |out|) && (lineLen <= width + 1 || out == [])
    && (Fits(src, width) ==> Greedy(src, out, width))
  }

  lemma {:induction false} PushState(src: string, out: string, width: int, lineLen: nat, lastSpace: nat)
    requires State(src, out, width, lineLen, lastSpace) && lineLen <= width && |out| < |src|
    ensures var c := src[|out|];
            State(src, out + [c], width, if c == '\n' then 0 else lineLen + 1, if c == ' ' then |out| else lastSpace)
  {
    PushKeeps(src, out, width);
  }

  /** Where a line is too long, the assertions hold exactly for a place to break, and break it there. */
  lemma {:induction false} BreakState(src: string, out: string, width: int, lineLen: nat, lastSpace: nat)
    requires State(src, out, width, lineLen, lastSpace) && lineLen > width
    ensures lastSpace < |out| || lastSpace == 0
    ensures lastSpace == 0 || out[lastSpace] == '\n' ==> !Fits(src, width)
    ensures 0 < lastSpace ==> State(src, out[..lastSpace] + ['\n'], width, 0, lastSpace)
  {
    if Fits(src, width) { BreakIsGreedy(src, out, width, lastSpace); }
    if 0 < lastSpace { BreakKeeps(src, out, width, lastSpace); }
  }

  lemma {:induction false} Finished(src: string, out: string, width: int, lineLen: nat, lastSpace: nat)
    requires State(src, out, width, lineLen, lastSpace) && |out| == |src| && lineLen <= width
    ensures Fits(src, width) && Correct(src, out, width)
  {
    assert src[..|src|] == src;
    FittingTextFits(src, out, width);
  }
}
