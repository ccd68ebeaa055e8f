/**
 * `FilterRepeatedCharsToOne` (filters.go): collapses runs of runes that are
 * equal up to case. A run is kept whole while it repeats its first rune
 * fewer than `maxCount` times, and is reduced to its first rune otherwise.
 */
module RepeatedChars {
  import opened Runes

  /** Two runes that compare equal once lower-cased. */
  predicate SameRune(a: char, b: char) {
    ToLower(a) == ToLower(b)
  }

  /** Where the run that holds `s[j]` begins: the earliest index from which every rune up to `j` equals `s[j]` up to case. */
  function RunStart(s: seq<char>, j: nat): (b: nat)
    requires j < |s|
    ensures b <= j
  {
    if j > 0 && SameRune(s[j - 1], s[j]) then RunStart(s, j - 1) else j
  }

  /** The run is maximal: its runes all equal `s[j]` up to case, and the rune before it does not. */
  lemma {:induction false} RunStartIsMaximal(s: seq<char>, j: nat)
    requires j < |s|
    ensures forall k :: RunStart(s, j) <= k <= j ==> SameRune(s[k], s[j])
    ensures RunStart(s, j) == 0 || !SameRune(s[RunStart(s, j) - 1], s[j])
  {
    if j > 0 && SameRune(s[j - 1], s[j]) {
      RunStartIsMaximal(s, j - 1);
    }
  }

  /** What survives of one run: all of it while it has fewer than `maxCount` repeats, else its first rune. */
  function KeptRun(run: seq<char>, maxCount: int): seq<char>
    requires |run| > 0
  {
    if |run| - 1 < maxCount then run else [run[0]]
  }

  /** The text with every maximal run replaced by what survives of it. */
  function Collapse(s: seq<char>, maxCount: int): seq<char>
  {
    if |s| == 0 then []
    else
      var b := RunStart(s, |s| - 1);
      Collapse(s[..b], maxCount) + KeptRun(s[b..], maxCount)
  }

  lemma CollapseUnfold(s: seq<char>, maxCount: int)
    requires |s| > 0
    ensures Collapse(s, maxCount)
         == Collapse(s[..RunStart(s, |s| - 1)], maxCount) + KeptRun(s[RunStart(s, |s| - 1)..], maxCount)
  {
  }

  /** Every rune of `run` equals its first one up to case. */
  predicate Uniform(run: seq<char>) {
    forall k :: 0 <= k < |run| ==> SameRune(run[k], run[0])
  }

  /** Inside a uniform run that follows a run boundary, every rune's run begins at the boundary. */
  lemma {:induction false} RunStartAfterBoundary(a: seq<char>, run: seq<char>, j: nat)
    requires Uniform(run) && |a| <= j < |a| + |run|
    requires |a| == 0 || !SameRune(a[|a| - 1], run[0])
    ensures RunStart(a + run, j) == |a|
  {
    var s := a + run;
    assert s[j] == run[j - |a|];
    if j > |a| {
      assert s[j - 1] == run[j - 1 - |a|];
      RunStartAfterBoundary(a, run, j - 1);
    } else if j > 0 {
      assert s[j - 1] == a[|a| - 1];
    }
  }

  /** Appending a uniform run after a run boundary appends what survives of it. */
  lemma CollapseAppend(a: seq<char>, run: seq<char>, maxCount: int)
    requires |run| > 0 && Uniform(run)
    requires |a| == 0 || !SameRune(a[|a| - 1], run[0])
    ensures Collapse(a + run, maxCount) == Collapse(a, maxCount) + KeptRun(run, maxCount)
  {
    var s := a + run;
    RunStartAfterBoundary(a, run, |s| - 1);
    CollapseUnfold(s, maxCount);
    assert s[..|a|] == a && s[|a|..] == run;
  }

  /** The collapsed text is never longer than the text, starts with its first rune and ends with a rune equal to its last. */
  lemma {:induction false} CollapseEnds(s: seq<char>, maxCount: int)
    ensures |Collapse(s, maxCount)| <= |s|
    ensures |s| > 0 ==> |Collapse(s, maxCount)| > 0 && Collapse(s, maxCount)[0] == s[0]
    ensures |s| > 0 ==> SameRune(Collapse(s, maxCount)[|Collapse(s, maxCount)| - 1], s[|s| - 1])
  {
    if |s| > 0 {
      var b := RunStart(s, |s| - 1);
      var run := s[b..];
      assert run[0] == s[b] && run[|run| - 1] == s[|s| - 1];
      LastRunBoundary(s);
      KeptRunEnds(run, maxCount);
      CollapseEnds(s[..b], maxCount);
      assert b == 0 || s[..b][0] == s[0];
      CollapseUnfold(s, maxCount);
    }
  }

  /** What survives of a run is no longer than it, and starts with its first rune and ends with its first or last one. */
  lemma KeptRunEnds(run: seq<char>, maxCount: int)
    requires |run| > 0
    ensures var kept := KeptRun(run, maxCount);
      0 < |kept| <= |run| && kept[0] == run[0]
      && (kept[|kept| - 1] == run[0] || kept[|kept| - 1] == run[|run| - 1])
  {
  }

  /** A bound above the length of the text keeps it unchanged. */
  lemma {:induction false} HighBoundKeepsText(s: seq<char>, maxCount: int)
    requires |s| <= maxCount
    ensures Collapse(s, maxCount) == s
  {
    if |s| > 0 {
      HighBoundKeepsText(s[..RunStart(s, |s| - 1)], maxCount);
      HighBoundKeepsLastRun(s, maxCount);
    }
  }

  lemma HighBoundKeepsLastRun(s: seq<char>, maxCount: int)
    requires 0 < |s| <= maxCount
    requires Collapse(s[..RunStart(s, |s| - 1)], maxCount) == s[..RunStart(s, |s| - 1)]
    ensures Collapse(s, maxCount) == s
  {
    var b := RunStart(s, |s| - 1);
    var p, run := s[..b], s[b..];
    assert p + run == s;
    assert |run| - 1 < maxCount;
    CollapseUnfold(s, maxCount);
  }

  /** No two neighbouring runes are equal up to case. */
  predicate NoRepeats(s: seq<char>) {
    forall k :: 0 < k < |s| ==> !SameRune(s[k - 1], s[k])
  }

  /** With a bound of at most one, every run is reduced to one rune. */
  lemma {:induction false} LowBoundLeavesNoRepeats(s: seq<char>, maxCount: int)
    requires maxCount <= 1
    ensures NoRepeats(Collapse(s, maxCount))
  {
    if |s| > 0 {
      var b := RunStart(s, |s| - 1);
      var init := Collapse(s[..b], maxCount);
      LowBoundLeavesNoRepeats(s[..b], maxCount);
      CollapsedBoundary(s, maxCount);
      assert KeptRun(s[b..], maxCount) == [s[b]];
      CollapseUnfold(s, maxCount);
      NoRepeatsAppend(init, s[b]);
    }
  }

  lemma NoRepeatsAppend(a: seq<char>, x: char)
    requires NoRepeats(a) && (|a| == 0 || !SameRune(a[|a| - 1], x))
    ensures NoRepeats(a + [x])
  {
    var r := a + [x];
    forall k | 0 < k < |r| ensures !SameRune(r[k - 1], r[k]) {
      if k < |a| {
        assert r[k - 1] == a[k - 1] && r[k] == a[k];
      }
    }
  }

  /** The last run of a text is uniform. */
  lemma LastRunUniform(s: seq<char>)
    requires |s| > 0
    ensures Uniform(s[RunStart(s, |s| - 1)..])
  {
    var b := RunStart(s, |s| - 1);
    var run := s[b..];
    RunStartIsMaximal(s, |s| - 1);
    forall k | 0 <= k < |run| ensures SameRune(run[k], run[0]) {
      assert run[k] == s[b + k] && run[0] == s[b];
    }
  }

  /** What survives of a uniform run is uniform and starts with the run's first rune. */
  lemma KeptRunUniform(run: seq<char>, maxCount: int)
    requires |run| > 0 && Uniform(run)
    ensures Uniform(KeptRun(run, maxCount)) && KeptRun(run, maxCount)[0] == run[0]
  {
    if |run| - 1 >= maxCount {
      assert KeptRun(run, maxCount) == [run[0]];
    }
  }

  /** The last run begins with a rune equal to the text's last one, after a rune that is not. */
  lemma LastRunBoundary(s: seq<char>)
    requires |s| > 0
    ensures var b := RunStart(s, |s| - 1);
      SameRune(s[b], s[|s| - 1]) && (b == 0 || !SameRune(s[b - 1], s[b]))
  {
    RunStartIsMaximal(s, |s| - 1);
  }

  /** Collapsing keeps a text's last rune up to case, so a rune that differs from it still differs afterwards. */
  lemma CollapseKeepsBoundary(p: seq<char>, x: char, maxCount: int)
    requires |p| == 0 || !SameRune(p[|p| - 1], x)
    ensures |Collapse(p, maxCount)| == 0 || !SameRune(Collapse(p, maxCount)[|Collapse(p, maxCount)| - 1], x)
  {
    if |p| > 0 {
      CollapseEnds(p, maxCount);
    }
  }

  /** The collapsed text before the last run ends with a rune different from that run's. */
  lemma CollapsedBoundary(s: seq<char>, maxCount: int)
    requires |s| > 0
    ensures var b := RunStart(s, |s| - 1); var init := Collapse(s[..b], maxCount);
      |init| == 0 || !SameRune(init[|init| - 1], s[b])
  {
    var b := RunStart(s, |s| - 1);
    LastRunBoundary(s);
    assert b == 0 || s[..b][b - 1] == s[b - 1];
    CollapseKeepsBoundary(s[..b], s[b], maxCount);
  }

  /** The last run of a text survives a second collapse: it is uniform and still follows a run boundary. */
  lemma LastRunRecollapses(s: seq<char>, maxCount: int)
    requires |s| > 0
    ensures var b := RunStart(s, |s| - 1);
      Collapse(Collapse(s[..b], maxCount) + KeptRun(s[b..], maxCount), maxCount)
      == Collapse(Collapse(s[..b], maxCount), maxCount) + KeptRun(s[b..], maxCount)
  {
    var b := RunStart(s, |s| - 1);
    LastRunUniform(s);
    KeptRunUniform(s[b..], maxCount);
    CollapsedBoundary(s, maxCount);
    assert s[b..][0] == s[b];
    CollapseAppend(Collapse(s[..b], maxCount), KeptRun(s[b..], maxCount), maxCount);
  }

  /** Collapsing twice changes nothing more: run boundaries survive and each kept run is kept again. */
  lemma {:induction false} CollapseIdempotent(s: seq<char>, maxCount: int)
    ensures Collapse(Collapse(s, maxCount), maxCount) == Collapse(s, maxCount)
  {
    if |s| > 0 {
      var b := RunStart(s, |s| - 1);
      LastRunRecollapses(s, maxCount);
      CollapseIdempotent(s[..b], maxCount);
      CollapseUnfold(s, maxCount);
    }
  }

  /** The repeats of the current run that `charBuffer` holds after `counter` of them. */
  function Buffered(counter: nat, maxCount: int): nat {
    if counter < maxCount then counter else if maxCount > 0 then maxCount - 1 else 0
  }

  /** What survives of a run is its first rune followed, while it has fewer than `maxCount` repeats, by the buffered repeats. */
  lemma KeptRunBuffered(run: seq<char>, buffer: seq<char>, maxCount: int)
    requires |run| > 0 && maxCount >= 0
    requires |buffer| == Buffered(|run| - 1, maxCount) && buffer == run[1..1 + |buffer|]
    ensures KeptRun(run, maxCount) == [run[0]] + (if |run| - 1 < maxCount then buffer else [])
  {
    if |run| - 1 < maxCount {
      assert run == [run[0]] + run[1..];
    }
  }

  lemma SliceUniform(s: seq<char>, start: nat, i: nat)
    requires start < i <= |s|
    requires forall k :: start <= k < i ==> SameRune(s[k], s[start])
    ensures Uniform(s[start..i])
  {
    var run := s[start..i];
    forall k | 0 <= k < |run| ensures SameRune(run[k], run[0]) {
      assert run[k] == s[start + k];
    }
  }

  /**
   * A run from `start` that ends at `i`: its first rune and, while it has
   * fewer than `maxCount` repeats, the buffered repeats complete the
   * collapsed prefix.
   */
  lemma CloseRun(s: seq<char>, start: nat, i: nat, buffer: seq<char>, maxCount: int)
    requires start < i <= |s| && maxCount >= 0
    requires forall k :: start <= k < i ==> SameRune(s[k], s[start])
    requires start == 0 || !SameRune(s[start - 1], s[start])
    requires |buffer| == Buffered(i - start - 1, maxCount) && buffer == s[start + 1..start + 1 + |buffer|]
    ensures Collapse(s[..i], maxCount)
         == Collapse(s[..start], maxCount) + [s[start]] + (if i - start - 1 < maxCount then buffer else [])
  {
    var a, run := s[..start], s[start..i];
    var x := if i - start - 1 < maxCount then buffer else [];
    assert run[0] == s[start];
    assert buffer == run[1..1 + |buffer|] by {
      assert |buffer| <= |run| - 1;
      forall k | 0 <= k < |buffer| ensures buffer[k] == run[1 + k] {
        assert buffer[k] == s[start + 1 + k];
      }
    }
    KeptRunBuffered(run, buffer, maxCount);
    SliceUniform(s, start, i);
    assert |a| == 0 || a[|a| - 1] == s[start - 1];
    AppendAssoc(Collapse(a, maxCount), [s[start]], x);
    assert s[..i] == a + run;
    CollapseAppend(a, run, maxCount);
  }

  lemma BufferGrows(s: seq<char>, lo: nat, buffer: seq<char>)
    requires lo + |buffer| < |s| && buffer == s[lo..lo + |buffer|]
    ensures buffer + [s[lo + |buffer|]] == s[lo..lo + |buffer| + 1]
  {
    assert s[lo..lo + |buffer| + 1] == s[lo..lo + |buffer|] + [s[lo + |buffer|]];
  }

  lemma AppendAssoc(p: seq<char>, q: seq<char>, r: seq<char>)
    ensures p + (q + r) == p + q + r
  {
  }

  /**
   * The state of `FilterRepeatedCharsToOne` after reading `s[..i]`: the
   * current run began at `start`, `counter` counts its repeats and
   * `charBuffer` holds those that are kept while it stays short; `result`
   * holds the collapsed text before the run and the run's first rune.
   */
  ghost predicate Scanned(s: seq<char>, maxCount: int, i: nat, start: nat, counter: int,
                          charBuffer: seq<char>, lastChar: char, result: seq<char>)
  {
    InRun(s, maxCount, i, start, counter, charBuffer, lastChar) && Emitted(s, maxCount, start, result)
  }

  /** The run read so far began at `start` and is buffered as the source buffers it. */
  ghost predicate InRun(s: seq<char>, maxCount: int, i: nat, start: nat, counter: int,
                        charBuffer: seq<char>, lastChar: char)
  {
    && start < i <= |s|
    && lastChar == ToLower(s[start])
    && (forall k :: start <= k < i ==> SameRune(s[k], s[start]))
    && (start == 0 || !SameRune(s[start - 1], s[start]))
    && counter == i - start - 1
    && |charBuffer| == Buffered(counter, maxCount)
    && charBuffer == s[start + 1..start + 1 + |charBuffer|]
  }

  /** `result` holds the collapsed text before the run at `start`, then that run's first rune. */
  ghost predicate Emitted(s: seq<char>, maxCount: int, start: nat, result: seq<char>)
    requires start < |s|
  {
    result == Collapse(s[..start], maxCount) + [s[start]]
  }

  /** The first rune starts the first run. */
  lemma ScanStart(s: seq<char>, maxCount: int)
    requires |s| > 0
    ensures Scanned(s, maxCount, 1, 0, 0, [], ToLower(s[0]), [s[0]])
  {
    assert s[..0] == [];
  }

  /** A rune equal to the run's one extends the run and, while the run is short, the buffer. */
  lemma ScanRepeat(s: seq<char>, maxCount: int, i: nat, start: nat, counter: int,
                   charBuffer: seq<char>, lastChar: char, result: seq<char>)
    requires maxCount >= 0 && i < |s| && ToLower(s[i]) == lastChar
    requires Scanned(s, maxCount, i, start, counter, charBuffer, lastChar, result)
    ensures Scanned(s, maxCount, i + 1, start, counter + 1,
                    if counter + 1 < maxCount then charBuffer + [s[i]] else charBuffer, lastChar, result)
  {
    if counter + 1 < maxCount {
      BufferGrows(s, start + 1, charBuffer);
    }
  }

  /** A different rune closes the run and starts a new one. */
  lemma ScanBreak(s: seq<char>, maxCount: int, i: nat, start: nat, counter: int,
                  charBuffer: seq<char>, lastChar: char, result: seq<char>)
    requires maxCount >= 0 && i < |s| && ToLower(s[i]) != lastChar
    requires Scanned(s, maxCount, i, start, counter, charBuffer, lastChar, result)
    ensures Scanned(s, maxCount, i + 1, i, 0, [], ToLower(s[i]),
                    (if counter < maxCount then result + charBuffer else result) + [s[i]])
  {
    CloseRun(s, start, i, charBuffer, maxCount);
  }

  /** At the end of the text, flushing the buffer completes the collapsed text. */
  lemma ScanEnd(s: seq<char>, maxCount: int, start: nat, counter: int,
                charBuffer: seq<char>, lastChar: char, result: seq<char>)
    requires maxCount >= 0
    requires Scanned(s, maxCount, |s|, start, counter, charBuffer, lastChar, result)
    ensures (if counter < maxCount then result + charBuffer else result) == Collapse(s, maxCount)
  {
    CloseRun(s, start, |s|, charBuffer, maxCount);
    assert s[..|s|] == s;
  }

  /**
   * `FilterRepeatedCharsToOne`. The source allocates a buffer of capacity
   * `maxCount`, which panics for a negative bound.
   */
  method FilterRepeatedCharsToOne(s: seq<char>, maxCount: int) returns (r: seq<char>)
    requires maxCount >= 0
    ensures r == Collapse(s, maxCount)
  {
    if |s| == 0 {
      return [];
    }
    var result := [s[0]];
    var counter := 0;
    var charBuffer: seq<char> := [];
    var lastChar := ToLower(s[0]);
    ghost var start := 0;
    var i := 1;
    ScanStart(s, maxCount);
    while i < |s|
      invariant Scanned(s, maxCount, i, start, counter, charBuffer, lastChar, result)
    {
      var chr := s[i];
      if ToLower(chr) == lastChar {
        ScanRepeat(s, maxCount, i, start, counter, charBuffer, lastChar, result);
        counter := counter + 1;
        if counter < maxCount {
          charBuffer := charBuffer + [chr];
        }
      } else {
        ScanBreak(s, maxCount, i, start, counter, charBuffer, lastChar, result);
        if counter < maxCount {
          result := result + charBuffer;
        }
        result := result + [chr];
        lastChar := ToLower(chr);
        charBuffer := [];
        counter := 0;
        start := i;
      }
      i := i + 1;
    }
    ScanEnd(s, maxCount, start, counter, charBuffer, lastChar, result);
    if counter < maxCount {
      result := result + charBuffer;
    }
    return result;
  }
}
