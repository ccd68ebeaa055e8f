/**
 * The per-word matching automaton (`wordProcessor` in filters.go).
 *
 * `Step` is the transition of `compareChar` on the automaton's state,
 * `ExcludedBefore` the verdict of `compareWithExcludePrev`; the class
 * `WordProcessor` updates its fields in place and is proved to follow them.
 */
module WordProcessing {
  import opened Runes
  import opened ChrComparer
  import Options

  /** `wordCompareStatus`. */
  datatype Status = InProgress | Failed | Success

  /** `preparedWord`: the searched word and the contexts that may not precede it. */
  datatype PreparedWord = PreparedWord(excludePrev: seq<seq<char>>, searchedWord: seq<char>)

  /** The mutable fields of a `wordProcessor`. */
  datatype ProcState = ProcState(
    lastActiveChar: nat,
    skipCheckIteration: nat,
    symbolCounter: nat,
    lettersBetweenSymbols: nat,
    charsBetweenSymbols: nat,
    startSymbol: int,
    status: Status)

  /** A freshly created `wordProcessor`: every field at its zero value. */
  const Initial: ProcState := ProcState(0, 0, 0, 0, 0, 0, InProgress)

  /** `reset`: clears the progress, the counters and the status, but not `startSymbol`. */
  function ResetState(p: ProcState): (r: ProcState)
    ensures r == Initial.(startSymbol := p.startSymbol)
  {
    p.(lastActiveChar := 0, skipCheckIteration := 0, symbolCounter := 0, status := InProgress,
       lettersBetweenSymbols := 0, charsBetweenSymbols := 0)
  }

  /** After `reset` the automaton is a fresh one that only remembers where its last attempt began. */
  lemma ResetIsInitialExceptStart(p: ProcState)
    ensures ResetState(p) == Initial.(startSymbol := p.startSymbol)
    ensures ResetState(ResetState(p)) == ResetState(p)
  {
  }

  /** Every letter the automaton may look up has an entry without empty variants. */
  predicate WordEntriesNonEmpty(table: CharsMap, word: seq<char>) {
    forall i :: 0 <= i < |word| ==> EntryNonEmpty(table, word[i])
  }

  /**
   * The tolerance rules tried after a mismatch that is not a repeated
   * letter: an inserted non-letter, then an inserted letter, else failure.
   */
  function Tolerate(p: ProcState, chr: char, letters: int, symbols: int): (r: ProcState)
    ensures r.status != Success
    ensures r.status == Failed ==> r == Initial.(startSymbol := p.startSymbol, status := Failed)
    ensures r.status == InProgress ==>
      r.lastActiveChar == p.lastActiveChar && r.symbolCounter == p.symbolCounter &&
      r.skipCheckIteration == p.skipCheckIteration && r.startSymbol == p.startSymbol &&
      ((!IsLetter(chr) && r.charsBetweenSymbols == p.charsBetweenSymbols + 1 <= symbols &&
        r.lettersBetweenSymbols == p.lettersBetweenSymbols == 0) ||
       (r.lettersBetweenSymbols == p.lettersBetweenSymbols + 1 <= letters &&
        r.charsBetweenSymbols == p.charsBetweenSymbols == 0))
  {
    if !IsLetter(chr) && p.charsBetweenSymbols < symbols && p.lettersBetweenSymbols == 0 then
      p.(charsBetweenSymbols := p.charsBetweenSymbols + 1, status := InProgress)
    else if p.lettersBetweenSymbols < letters && p.charsBetweenSymbols == 0 then
      p.(lettersBetweenSymbols := p.lettersBetweenSymbols + 1, status := InProgress)
    else
      ResetState(p).(status := Failed)
  }

  /**
   * `compareChar`: one input rune. Every rune pulled by the matcher is
   * added to `skipCheckIteration`; `OutOfRange` is a pull the source would
   * answer by reading past the end of its input.
   */
  function Step(p: ProcState, word: seq<char>, table: CharsMap, letters: int, symbols: int,
                chr: char, pull: nat -> Option<char>): (r: Outcome<ProcState>)
    requires p.skipCheckIteration == 0 ==> p.lastActiveChar < |word|
    requires WordEntriesNonEmpty(table, word)
    ensures r.Ok? ==> r.value.startSymbol == p.startSymbol
    ensures r.Ok? && p.skipCheckIteration == 0 ==>
      r.value.lastActiveChar <= |word| && (r.value.status == Success <==> r.value.lastActiveChar == |word|)
  {
    var p1 := p.(symbolCounter := p.symbolCounter + 1);
    if p1.skipCheckIteration > 0 then
      Ok(p1.(skipCheckIteration := p1.skipCheckIteration - 1))
    else match Compare(table, word[p1.lastActiveChar], chr, pull)
      case Overrun => OutOfRange
      case Compared(true, k) =>
        var p2 := p1.(skipCheckIteration := p1.skipCheckIteration + k,
                      lettersBetweenSymbols := 0, charsBetweenSymbols := 0,
                      lastActiveChar := p1.lastActiveChar + 1);
        Ok(p2.(status := if p2.lastActiveChar == |word| then Success else InProgress))
      case Compared(false, k) =>
        AfterMismatch(p1.(skipCheckIteration := p1.skipCheckIteration + k), word, table, letters, symbols, chr, pull)
  }

  /**
   * The part of `compareChar` after the expected letter was missed: a
   * repeated letter, then the tolerance rules; the first rune of an attempt fails outright.
   * `skipCheckIteration` holds the runes the first comparison pulled (it was
   * zero before the step), and the second comparison's pulls go through the
   * same callback, so they continue after those.
   */
  function AfterMismatch(p: ProcState, word: seq<char>, table: CharsMap, letters: int, symbols: int,
                         chr: char, pull: nat -> Option<char>): (r: Outcome<ProcState>)
    requires p.lastActiveChar < |word|
    requires WordEntriesNonEmpty(table, word)
    ensures r.Ok? ==> r.value.lastActiveChar <= p.lastActiveChar && r.value.status != Success
    ensures r.Ok? ==> r.value.startSymbol == p.startSymbol
  {
    if p.symbolCounter <= 1 then Ok(ResetState(p).(status := Failed))
    else if p.lastActiveChar == 0 then Ok(Tolerate(p, chr, letters, symbols))
    else match Compare(table, word[p.lastActiveChar - 1], chr, Shifted(pull, p.skipCheckIteration))
      case Overrun => OutOfRange
      case Compared(repeated, k) =>
        var p1 := p.(skipCheckIteration := p.skipCheckIteration + k);
        if repeated then Ok(p1.(status := InProgress))
        else Ok(Tolerate(p1, chr, letters, symbols))
  }

  // ---------------------------------------------------------------------------
  // Properties of one step
  // ---------------------------------------------------------------------------

  /** While runes pulled earlier are pending, a step only counts and skips, keeping the status. */
  lemma StepSkipsPulledRunes(p: ProcState, word: seq<char>, table: CharsMap, letters: int, symbols: int,
                             chr: char, pull: nat -> Option<char>)
    requires p.lastActiveChar < |word| && WordEntriesNonEmpty(table, word)
    requires p.skipCheckIteration > 0
    ensures Step(p, word, table, letters, symbols, chr, pull)
         == Ok(p.(symbolCounter := p.symbolCounter + 1, skipCheckIteration := p.skipCheckIteration - 1))
  {
  }

  /**
   * A step adds one to `symbolCounter`, except when it fails, which restores
   * the fresh state (keeping `startSymbol`) with status `Failed`.
   */
  lemma StepCountsRunes(p: ProcState, word: seq<char>, table: CharsMap, letters: int, symbols: int,
                        chr: char, pull: nat -> Option<char>)
    requires p.lastActiveChar < |word| && WordEntriesNonEmpty(table, word)
    requires p.skipCheckIteration > 0 ==> p.status != Failed
    ensures var r := Step(p, word, table, letters, symbols, chr, pull);
      r.Ok? ==>
        (r.value.status != Failed ==> r.value.symbolCounter == p.symbolCounter + 1) &&
        (r.value.status == Failed ==> r.value == Initial.(startSymbol := p.startSymbol, status := Failed))
  {
  }

  /**
   * A rune that spells the expected letter advances the progress by one,
   * clears both tolerance counters, and succeeds exactly when the word is complete.
   */
  lemma StepOnMatch(p: ProcState, word: seq<char>, table: CharsMap, letters: int, symbols: int,
                    chr: char, pull: nat -> Option<char>, k: nat)
    requires p.lastActiveChar < |word| && WordEntriesNonEmpty(table, word)
    requires p.skipCheckIteration == 0
    requires Compare(table, word[p.lastActiveChar], chr, pull) == Compared(true, k)
    ensures var r := Step(p, word, table, letters, symbols, chr, pull);
      r.Ok? && r.value.lastActiveChar == p.lastActiveChar + 1 &&
      r.value.symbolCounter == p.symbolCounter + 1 &&
      r.value.lettersBetweenSymbols == 0 && r.value.charsBetweenSymbols == 0 &&
      r.value.skipCheckIteration == k &&
      (r.value.status == Success <==> p.lastActiveChar + 1 == |word|) &&
      (r.value.status != Success ==> r.value.status == InProgress)
  {
  }

  /** No tolerance applies to the first rune of an attempt: a mismatch there fails. */
  lemma StepFirstRuneMismatchFails(p: ProcState, word: seq<char>, table: CharsMap, letters: int, symbols: int,
                                   chr: char, pull: nat -> Option<char>, k: nat)
    requires p.lastActiveChar < |word| && WordEntriesNonEmpty(table, word)
    requires p.skipCheckIteration == 0 && p.symbolCounter == 0
    requires Compare(table, word[p.lastActiveChar], chr, pull) == Compared(false, k)
    ensures Step(p, word, table, letters, symbols, chr, pull) == Ok(Initial.(startSymbol := p.startSymbol, status := Failed))
  {
  }

  /**
   * A rune that misses the expected letter but spells the previous one is a
   * repeated letter: the attempt goes on and neither tolerance counter moves.
   */
  lemma StepRepeatedLetter(p: ProcState, word: seq<char>, table: CharsMap, letters: int, symbols: int,
                           chr: char, pull: nat -> Option<char>, k: nat, k2: nat)
    requires p.lastActiveChar < |word| && WordEntriesNonEmpty(table, word)
    requires p.skipCheckIteration == 0 && p.symbolCounter >= 1 && p.lastActiveChar > 0
    requires Compare(table, word[p.lastActiveChar], chr, pull) == Compared(false, k)
    requires Compare(table, word[p.lastActiveChar - 1], chr, Shifted(pull, k)) == Compared(true, k2)
    ensures Step(p, word, table, letters, symbols, chr, pull)
         == Ok(p.(symbolCounter := p.symbolCounter + 1, skipCheckIteration := k + k2, status := InProgress))
  {
  }

  /**
   * With single-rune variants, a step of an automaton with no pending pulls
   * pulls nothing: it fails back to the fresh state or counts the rune, and
   * succeeds exactly when the word is complete. On the first rune of an
   * attempt it goes on only when the rune spells the word's first letter.
   */
  lemma StepSingleRune(p: ProcState, word: seq<char>, table: CharsMap, letters: int, symbols: int,
                       chr: char, pull: nat -> Option<char>)
    requires SingleRuneVariants(table) && WordEntriesNonEmpty(table, word)
    requires p.skipCheckIteration == 0 && p.lastActiveChar < |word|
    requires p.symbolCounter == 0 ==> p.lastActiveChar == 0
    ensures var r := Step(p, word, table, letters, symbols, chr, pull);
      r.Ok? && r.value.skipCheckIteration == 0 && r.value.startSymbol == p.startSymbol &&
      r.value.lastActiveChar <= |word| && (r.value.status == Success <==> r.value.lastActiveChar == |word|) &&
      (r.value.status == Failed ==> r.value.symbolCounter == 0 && r.value.lastActiveChar == 0) &&
      (r.value.status != Failed ==> r.value.symbolCounter == p.symbolCounter + 1) &&
      (p.symbolCounter == 0 && r.value.status != Failed ==> r.value.lastActiveChar == 1 && SpellsRune(table, word[0], chr))
  {
    SingleRuneCompare(table, word[p.lastActiveChar], chr, pull);
    if p.lastActiveChar > 0 {
      SingleRuneCompare(table, word[p.lastActiveChar - 1], chr, Shifted(pull, 0));
    }
  }

  /**
   * The repeated-letter comparison pulls through the same callback as the
   * first one: in "ab", with `b` also spelled "|3" and `a` also spelled "|x",
   * the rune '|' followed by pulls 'x' then '3' spells neither letter, so it
   * is tolerated as an inserted non-letter; a second comparison that
   * restarted at the first pull would have read "|x" as a repeated `a`.
   */
  lemma SecondComparisonContinuesPulls()
    ensures var table: CharsMap := map['b' := ["b", "|3"], 'a' := ["a", "|x"]];
      var pull: nat -> Option<char> := k => if k == 0 then Some('x') else Some('3');
      Step(ProcState(1, 0, 1, 0, 0, 0, InProgress), "ab", table, 1, 3, '|', pull)
        == Ok(ProcState(1, 2, 2, 0, 1, 0, InProgress))
  {
    var pull: nat -> Option<char> := k => if k == 0 then Some('x') else Some('3');
    BarStep(pull);
  }

  /** The step of the example above, for any callback that pulls 'x' then '3'. */
  lemma BarStep(pull: nat -> Option<char>)
    requires pull(0) == Some('x') && pull(1) == Some('3')
    ensures Step(ProcState(1, 0, 1, 0, 0, 0, InProgress), "ab", map['b' := ["b", "|3"], 'a' := ["a", "|x"]], 1, 3, '|', pull)
         == Ok(ProcState(1, 2, 2, 0, 1, 0, InProgress))
  {
    BarPulls(pull);
  }

  /** The two comparisons of the example above: '|' then 'x' is not "|3", and '|' then '3' is not "|x". */
  lemma BarPulls(pull: nat -> Option<char>)
    requires pull(0) == Some('x') && pull(1) == Some('3')
    ensures CompareFrom(["b", "|3"], ['|'], pull) == Compared(false, 1)
    ensures CompareFrom(["a", "|x"], ['|'], Shifted(pull, 1)) == Compared(false, 1)
  {
    assert ['|'] + ['x'] == ['|', 'x'];
    assert Pad(['|'], 2, pull) == Some(['|', 'x']);
    assert Shifted(pull, 1)(0) == Some('3') && ['|'] + ['3'] == ['|', '3'];
    assert Pad(['|'], 2, Shifted(pull, 1)) == Some(['|', '3']);
  }

  /**
   * The tolerance counters stay within their budgets and are never both in
   * use; pending pulled runes never accompany a failed status.
   */
  predicate Tolerances(p: ProcState, letters: int, symbols: int) {
    Budgets(p, letters, symbols) && (p.skipCheckIteration > 0 ==> p.status != Failed)
  }

  predicate Budgets(p: ProcState, letters: int, symbols: int) {
    (p.charsBetweenSymbols == 0 || p.charsBetweenSymbols <= symbols) &&
    (p.lettersBetweenSymbols == 0 || p.lettersBetweenSymbols <= letters) &&
    (p.charsBetweenSymbols == 0 || p.lettersBetweenSymbols == 0)
  }

  lemma {:induction false} TolerateKeepsBudgets(p: ProcState, chr: char, letters: int, symbols: int)
    requires Budgets(p, letters, symbols)
    ensures Tolerances(Tolerate(p, chr, letters, symbols), letters, symbols)
    ensures Tolerate(p, chr, letters, symbols).status != Success
  {
  }

  /** Every step keeps the tolerance counters within their budgets. */
  lemma {:induction false} StepKeepsBudgets(p: ProcState, word: seq<char>, table: CharsMap, letters: int, symbols: int,
                                           chr: char, pull: nat -> Option<char>)
    requires p.lastActiveChar < |word| && WordEntriesNonEmpty(table, word)
    requires Tolerances(p, letters, symbols)
    ensures var r := Step(p, word, table, letters, symbols, chr, pull);
      r.Ok? ==> Tolerances(r.value, letters, symbols)
  {
    var p1 := p.(symbolCounter := p.symbolCounter + 1);
    if p1.skipCheckIteration == 0 {
      match Compare(table, word[p1.lastActiveChar], chr, pull)
      case Overrun =>
      case Compared(m, k) =>
        if !m {
          MismatchKeepsBudgets(p1.(skipCheckIteration := k), word, table, letters, symbols, chr, pull);
        }
    }
  }

  /** The mismatch branch of a step keeps the tolerance counters within their budgets. */
  lemma {:induction false} MismatchKeepsBudgets(p: ProcState, word: seq<char>, table: CharsMap, letters: int, symbols: int,
                                               chr: char, pull: nat -> Option<char>)
    requires p.lastActiveChar < |word| && WordEntriesNonEmpty(table, word)
    requires Budgets(p, letters, symbols)
    ensures var r := AfterMismatch(p, word, table, letters, symbols, chr, pull);
      r.Ok? ==> Tolerances(r.value, letters, symbols)
  {
    if p.symbolCounter > 1 {
      TolerateKeepsBudgets(p, chr, letters, symbols);
      if p.lastActiveChar > 0 {
        match Compare(table, word[p.lastActiveChar - 1], chr, Shifted(pull, p.skipCheckIteration))
        case Overrun =>
        case Compared(_, k) =>
          TolerateKeepsBudgets(p.(skipCheckIteration := p.skipCheckIteration + k), chr, letters, symbols);
      }
    }
  }

  // ---------------------------------------------------------------------------
  // compareWithExcludePrev
  // ---------------------------------------------------------------------------

  /**
   * The first loop of `compareWithExcludePrev`: the length of `str` less the
   * length of the first context that fits in it, or of the last context when none fits.
   */
  function TailStart(excl: seq<seq<char>>, n: nat): (r: int)
    requires |excl| > 0
    ensures r <= n
    ensures (forall j :: 0 <= j < |excl| ==> |excl[j]| > n) ==> r < 0
  {
    if n - |excl[0]| >= 0 || |excl| == 1 then n - |excl[0]| else TailStart(excl[1..], n)
  }

  /** The outcome of one pass of the inner loop. */
  datatype Pass = Found | Continue(skip: seq<bool>) | Fault

  /**
   * The inner loop at position `i` of the compared tail, from context `j` on:
   * `skip` marks contexts already ruled out; a context shorter than `strLen`
   * ends the pass; a full alignment at the last position is a hit.
   */
  function InnerPass(excl: seq<seq<char>>, tail: seq<char>, i: nat, strLen: int, j: nat, skip: seq<bool>): Pass
    requires |skip| == |excl| && j <= |excl| && i < |tail|
    decreases |excl| - j
  {
    if j == |excl| then Continue(skip)
    else if skip[j] then InnerPass(excl, tail, i, strLen, j + 1, skip)
    else if |excl[j]| < strLen then Continue(skip)
    else if i >= |excl[j]| then Fault
    else if excl[j][i] != tail[i] then InnerPass(excl, tail, i, strLen, j + 1, skip[j := true])
    else if strLen == 0 then Found
    else InnerPass(excl, tail, i, strLen, j + 1, skip)
  }

  /** The outer loop over the positions of the compared tail, from `i` on. */
  function OuterPass(excl: seq<seq<char>>, tail: seq<char>, i: nat, skip: seq<bool>): Outcome<bool>
    requires |skip| == |excl| && i <= |tail|
    decreases |tail| - i
  {
    if i == |tail| then Ok(false)
    else match InnerPass(excl, tail, i, |tail| - 1 - i, 0, skip)
      case Found => Ok(true)
      case Fault => OutOfRange
      case Continue(next) =>
        if |next| == |excl| then OuterPass(excl, tail, i + 1, next) else OutOfRange
  }

  /** `compareWithExcludePrev`: whether the text before a hit ends with an excluded context. */
  function ExcludedBefore(excl: seq<seq<char>>, str: seq<char>): (r: Outcome<bool>)
    ensures (forall j :: 0 <= j < |excl| ==> |excl[j]| > |str|) ==> r == Ok(false)
  {
    if |excl| < 1 then Ok(false)
    else
      var start := TailStart(excl, |str|);
      if start < 0 then Ok(false)
      else OuterPass(excl, str[start..], 0, seq(|excl|, _ => false))
  }

  lemma {:induction false} InnerPassKeepsLength(excl: seq<seq<char>>, tail: seq<char>, i: nat, strLen: int, j: nat, skip: seq<bool>)
    requires |skip| == |excl| && j <= |excl| && i < |tail|
    ensures InnerPass(excl, tail, i, strLen, j, skip).Continue? ==> |InnerPass(excl, tail, i, strLen, j, skip).skip| == |excl|
    decreases |excl| - j
  {
    if j < |excl| {
      if skip[j] || (|excl[j]| >= strLen && i < |excl[j]| && excl[j][i] == tail[i] && strLen != 0) {
        InnerPassKeepsLength(excl, tail, i, strLen, j + 1, skip);
      } else if |excl[j]| >= strLen && i < |excl[j]| && excl[j][i] != tail[i] {
        InnerPassKeepsLength(excl, tail, i, strLen, j + 1, skip[j := true]);
      }
    }
  }

  /** Without excluded contexts no hit is ever suppressed. */
  lemma NoContextsNeverExclude(str: seq<char>)
    ensures ExcludedBefore([], str) == Ok(false)
  {
  }

  /** All contexts have length `n`, which is positive. */
  predicate UniformLength(excl: seq<seq<char>>, n: nat) {
    n > 0 && forall j :: 0 <= j < |excl| ==> |excl[j]| == n
  }

  /** A pass before the last position only rules out the contexts that differ there. */
  lemma {:induction false} InnerPassUniform(excl: seq<seq<char>>, tail: seq<char>, n: nat, i: nat, j: nat, skip: seq<bool>)
    requires UniformLength(excl, n) && |tail| == n && i < n - 1
    requires |skip| == |excl| && j <= |excl|
    ensures InnerPass(excl, tail, i, n - 1 - i, j, skip)
         == Continue(seq(|excl|, k requires 0 <= k < |excl| => skip[k] || (k >= j && excl[k][i] != tail[i])))
    decreases |excl| - j
  {
    var expected := seq(|excl|, k requires 0 <= k < |excl| => skip[k] || (k >= j && excl[k][i] != tail[i]));
    if j == |excl| {
      assert expected == skip;
    } else if skip[j] || excl[j][i] == tail[i] {
      InnerPassUniform(excl, tail, n, i, j + 1, skip);
      assert seq(|excl|, k requires 0 <= k < |excl| => skip[k] || (k >= j + 1 && excl[k][i] != tail[i])) == expected;
    } else {
      InnerPassUniform(excl, tail, n, i, j + 1, skip[j := true]);
      assert seq(|excl|, k requires 0 <= k < |excl| => skip[j := true][k] || (k >= j + 1 && excl[k][i] != tail[i])) == expected;
    }
  }

  /** The pass at the last position hits exactly when a context not ruled out agrees there. */
  lemma {:induction false} InnerPassUniformLast(excl: seq<seq<char>>, tail: seq<char>, n: nat, j: nat, skip: seq<bool>)
    requires UniformLength(excl, n) && |tail| == n
    requires |skip| == |excl| && j <= |excl|
    ensures (InnerPass(excl, tail, n - 1, 0, j, skip) == Found)
        <==> exists k :: j <= k < |excl| && !skip[k] && excl[k][n - 1] == tail[n - 1]
    ensures InnerPass(excl, tail, n - 1, 0, j, skip).Found? || InnerPass(excl, tail, n - 1, 0, j, skip).Continue?
    decreases |excl| - j
  {
    if j < |excl| {
      if skip[j] {
        InnerPassUniformLast(excl, tail, n, j + 1, skip);
      } else if excl[j][n - 1] != tail[n - 1] {
        InnerPassUniformLast(excl, tail, n, j + 1, skip[j := true]);
      }
    }
  }

  /**
   * The outer loop with uniform lengths: `skip[k]` records that context `k`
   * already differs from the tail before position `i`; the result says
   * whether some context equals the whole tail.
   */
  lemma {:induction false} OuterPassUniform(excl: seq<seq<char>>, tail: seq<char>, n: nat, i: nat, skip: seq<bool>)
    requires UniformLength(excl, n) && |tail| == n && i < n
    requires |skip| == |excl|
    requires forall k :: 0 <= k < |excl| ==> (skip[k] <==> excl[k][..i] != tail[..i])
    ensures OuterPass(excl, tail, i, skip) == Ok(exists k :: 0 <= k < |excl| && excl[k] == tail)
    decreases n - i
  {
    if i == n - 1 {
      InnerPassUniformLast(excl, tail, n, 0, skip);
      forall k | 0 <= k < |excl|
        ensures (!skip[k] && excl[k][n - 1] == tail[n - 1]) <==> excl[k] == tail
      {
        assert excl[k] == excl[k][..n - 1] + [excl[k][n - 1]];
        assert tail == tail[..n - 1] + [tail[n - 1]];
      }
      if InnerPass(excl, tail, i, 0, 0, skip).Continue? {
        var next := InnerPass(excl, tail, i, 0, 0, skip).skip;
        InnerPassKeepsLength(excl, tail, i, 0, 0, skip);
        assert OuterPass(excl, tail, i + 1, next) == Ok(false);
      }
    } else {
      InnerPassUniform(excl, tail, n, i, 0, skip);
      var next := seq(|excl|, k requires 0 <= k < |excl| => skip[k] || (k >= 0 && excl[k][i] != tail[i]));
      forall k | 0 <= k < |excl| ensures next[k] <==> excl[k][..i + 1] != tail[..i + 1] {
        assert excl[k][..i + 1] == excl[k][..i] + [excl[k][i]];
        assert tail[..i + 1] == tail[..i] + [tail[i]];
      }
      OuterPassUniform(excl, tail, n, i + 1, next);
    }
  }

  /**
   * When every excluded context has the same positive length `n`, a hit is
   * suppressed exactly when the text before it ends with one of them.
   */
  lemma UniformContextsExcludeSuffix(excl: seq<seq<char>>, str: seq<char>, n: nat)
    requires UniformLength(excl, n) && |excl| > 0
    ensures ExcludedBefore(excl, str)
         == Ok(|str| >= n && exists k :: 0 <= k < |excl| && excl[k] == str[|str| - n..])
  {
    assert TailStart(excl, |str|) == |str| - n by { TailStartUniform(excl, |str|, n); }
    if |str| >= n {
      var tail := str[|str| - n..];
      var skip := seq(|excl|, _ => false);
      forall k | 0 <= k < |excl| ensures (skip[k] <==> excl[k][..0] != tail[..0]) { }
      OuterPassUniform(excl, tail, n, 0, skip);
    }
  }

  lemma {:induction false} TailStartUniform(excl: seq<seq<char>>, m: nat, n: nat)
    requires UniformLength(excl, n) && |excl| > 0
    ensures TailStart(excl, m) == m - n
  {
    if !(m - |excl[0]| >= 0 || |excl| == 1) {
      TailStartUniform(excl[1..], m, n);
    }
  }

  /** With one non-empty excluded context, a hit is suppressed exactly when the text before it ends with that context. */
  lemma SingleContextExcludesSuffix(e: seq<char>, str: seq<char>)
    requires |e| > 0
    ensures ExcludedBefore([e], str) == Ok(|str| >= |e| && str[|str| - |e|..] == e)
  {
    UniformContextsExcludeSuffix([e], str, |e|);
  }

  /**
   * With contexts of different lengths the tail is aligned on the first
   * context that fits, not on each context's own length: "xa" counts as
   * preceded by an excluded context although it ends with neither "abcd" nor "c".
   */
  lemma MisalignedContextsExclude()
    ensures ExcludedBefore(["abcd", "c"], "xa") == Ok(true)
  {
    assert TailStart(["abcd", "c"], 2) == 1 by {
      assert ["abcd", "c"][1..] == ["c"];
    }
    assert "xa"[1..] == "a";
  }

  /**
   * A shorter context that survives to a position past its own end is
   * indexed out of range: contexts "ab" and "x" before the text "xb".
   */
  lemma ShortContextIndexedPastEnd()
    ensures ExcludedBefore(["ab", "x"], "xb") == OutOfRange
  {
    var excl := ["ab", "x"];
    var skip0 := seq(2, _ => false);
    assert InnerPass(excl, "xb", 0, 1, 0, skip0) == Continue([true, false]) by {
      assert skip0[0 := true] == [true, false];
    }
    assert InnerPass(excl, "xb", 1, 0, 0, [true, false]) == Fault;
    assert "xb"[0..] == "xb";
  }

  // ---------------------------------------------------------------------------
  // The automaton object
  // ---------------------------------------------------------------------------

  /** The first loop of `compareWithExcludePrev`: where the compared tail of the text starts. */
  method FindTailStart(excl: seq<seq<char>>, strLen: nat) returns (strStartChr: int)
    requires |excl| > 0
    ensures strStartChr == TailStart(excl, strLen)
  {
    strStartChr := 0;
    var j := 0;
    while j < |excl|
      invariant 0 <= j <= |excl|
      invariant j > 0 ==> strStartChr == strLen - |excl[j - 1]| && strStartChr < 0
      invariant j < |excl| ==> TailStart(excl, strLen) == TailStart(excl[j..], strLen)
      invariant j == |excl| ==> TailStart(excl, strLen) == strStartChr
    {
      assert excl[j..][0] == excl[j];
      assert excl[j..][1..] == excl[j + 1..];
      strStartChr := strLen - |excl[j]|;
      if strStartChr >= 0 {
        break;
      }
      j := j + 1;
    }
  }

  /**
   * The inner loop of `compareWithExcludePrev` at position `i` of the
   * compared tail: marks in `skip` the contexts that disagree there.
   */
  method MarkMismatches(excl: seq<seq<char>>, tail: seq<char>, i: nat, strLen: int, skip: array<bool>) returns (r: Pass)
    requires skip.Length == |excl| && i < |tail|
    modifies skip
    ensures r == InnerPass(excl, tail, i, strLen, 0, old(skip[..]))
    ensures r.Continue? ==> r.skip == skip[..]
  {
    var k := 0;
    while k < |excl|
      invariant 0 <= k <= |excl|
      invariant InnerPass(excl, tail, i, strLen, k, skip[..]) == InnerPass(excl, tail, i, strLen, 0, old(skip[..]))
    {
      if skip[k] {
        k := k + 1;
        continue;
      }
      if |excl[k]| < strLen {
        return Continue(skip[..]);
      }
      if i >= |excl[k]| {
        return Fault;
      }
      if excl[k][i] != tail[i] {
        skip[k] := true;
        k := k + 1;
        continue;
      }
      if strLen == 0 {
        return Found;
      }
      k := k + 1;
    }
    return Continue(skip[..]);
  }

  class WordProcessor {
    const options: Options.Options
    const word: PreparedWord
    var lastActiveChar: nat
    var skipCheckIteration: nat
    var symbolCounter: nat
    var lettersBetweenSymbols: nat
    var charsBetweenSymbols: nat
    var startSymbol: int
    var status: Status

    /** The automaton's fields as a value. */
    function State(): ProcState
      reads this
    {
      ProcState(lastActiveChar, skipCheckIteration, symbolCounter,
                lettersBetweenSymbols, charsBetweenSymbols, startSymbol, status)
    }

    /** `wordProcessor{options: ..., preparedWord: ...}`: all other fields zero. */
    constructor (options: Options.Options, word: PreparedWord)
      ensures this.options == options && this.word == word
      ensures State() == Initial
    {
      this.options := options;
      this.word := word;
      lastActiveChar, skipCheckIteration, symbolCounter := 0, 0, 0;
      lettersBetweenSymbols, charsBetweenSymbols, startSymbol := 0, 0, 0;
      status := InProgress;
    }

    /** `reset`. */
    method Reset()
      modifies this
      ensures State() == ResetState(old(State()))
    {
      lastActiveChar := 0;
      skipCheckIteration := 0;
      symbolCounter := 0;
      status := InProgress;
      ResetBetweenWordLetters();
    }

    /** `resetBetweenWordLetters`: clears both tolerance counters. */
    method ResetBetweenWordLetters()
      modifies this
      ensures State() == old(State()).(lettersBetweenSymbols := 0, charsBetweenSymbols := 0)
    {
      lettersBetweenSymbols := 0;
      charsBetweenSymbols := 0;
    }

    /** `compareChar`: follows `Step` and returns the new status. */
    method CompareChar(chr: char, cc: CharsComparer, pull: nat -> Option<char>) returns (r: Outcome<Status>)
      requires skipCheckIteration == 0 ==> lastActiveChar < |word.searchedWord|
      requires WordEntriesNonEmpty(cc.charsMap, word.searchedWord)
      modifies this
      ensures var s := Step(old(State()), word.searchedWord, cc.charsMap,
                            options.lettersBetweenKeyLetters, options.symbolsBetweenKeyLetters, chr, pull);
        (r.OutOfRange? <==> s.OutOfRange?) && (s.Ok? ==> State() == s.value && r == Ok(status))
    {
      ghost var p1 := old(State()).(symbolCounter := old(symbolCounter) + 1);
      ghost var expected := Step(old(State()), word.searchedWord, cc.charsMap,
                                 options.lettersBetweenKeyLetters, options.symbolsBetweenKeyLetters, chr, pull);
      symbolCounter := symbolCounter + 1;
      if skipCheckIteration > 0 {
        skipCheckIteration := skipCheckIteration - 1;
        assert expected == Ok(State());
        return Ok(status);
      }
      var result := cc.CompareChars(word.searchedWord[lastActiveChar], chr, pull);
      assert result == Compare(cc.charsMap, word.searchedWord[p1.lastActiveChar], chr, pull);
      if result.Overrun? {
        assert expected == OutOfRange;
        return OutOfRange;
      }
      skipCheckIteration := skipCheckIteration + result.consumed;
      if !result.matched {
        assert State() == p1.(skipCheckIteration := p1.skipCheckIteration + result.consumed);
        assert expected == AfterMismatch(State(), word.searchedWord, cc.charsMap,
                                         options.lettersBetweenKeyLetters, options.symbolsBetweenKeyLetters, chr, pull);
        r := Mismatched(chr, cc, pull);
        return;
      }
      StepOnMatch(old(State()), word.searchedWord, cc.charsMap,
                  options.lettersBetweenKeyLetters, options.symbolsBetweenKeyLetters, chr, pull, result.consumed);
      r := Matched();
    }

    /** The match branch of `compareChar`: the next letter is expected and the tolerances clear. */
    method Matched() returns (r: Outcome<Status>)
      modifies this
      ensures State() == old(State()).(lettersBetweenSymbols := 0, charsBetweenSymbols := 0,
                                       lastActiveChar := old(lastActiveChar) + 1,
                                       status := if |word.searchedWord| == old(lastActiveChar) + 1 then Success else InProgress)
      ensures r == Ok(status)
    {
      lettersBetweenSymbols, charsBetweenSymbols := 0, 0;
      lastActiveChar := lastActiveChar + 1;
      status := if |word.searchedWord| == lastActiveChar then Success else InProgress;
      return Ok(status);
    }

    /** The mismatch branch of `compareChar`, following `AfterMismatch`. */
    method Mismatched(chr: char, cc: CharsComparer, pull: nat -> Option<char>) returns (r: Outcome<Status>)
      requires lastActiveChar < |word.searchedWord|
      requires WordEntriesNonEmpty(cc.charsMap, word.searchedWord)
      modifies this
      ensures var s := AfterMismatch(old(State()), word.searchedWord, cc.charsMap,
                                     options.lettersBetweenKeyLetters, options.symbolsBetweenKeyLetters, chr, pull);
        (r.OutOfRange? <==> s.OutOfRange?) && (s.Ok? ==> State() == s.value && r == Ok(status))
    {
      if symbolCounter > 1 {
        if lastActiveChar > 0 {
          var previous := cc.CompareChars(word.searchedWord[lastActiveChar - 1], chr, Shifted(pull, skipCheckIteration));
          if previous.Overrun? {
            return OutOfRange;
          }
          skipCheckIteration := skipCheckIteration + previous.consumed;
          if previous.matched {
            status := InProgress;
            return Ok(status);
          }
        }
        r := ApplyTolerances(chr);
        return;
      }
      Reset();
      status := Failed;
      return Ok(status);
    }

    /** The tolerance rules of `compareChar`, tried once a mismatch is not a repeated letter. */
    method ApplyTolerances(chr: char) returns (r: Outcome<Status>)
      modifies this
      ensures State() == Tolerate(old(State()), chr, options.lettersBetweenKeyLetters, options.symbolsBetweenKeyLetters)
      ensures r == Ok(status)
    {
      if !IsLetter(chr) && charsBetweenSymbols < options.symbolsBetweenKeyLetters && lettersBetweenSymbols == 0 {
        charsBetweenSymbols := charsBetweenSymbols + 1;
        status := InProgress;
        return Ok(status);
      }
      if lettersBetweenSymbols < options.lettersBetweenKeyLetters && charsBetweenSymbols == 0 {
        lettersBetweenSymbols := lettersBetweenSymbols + 1;
        status := InProgress;
        return Ok(status);
      }
      Reset();
      status := Failed;
      return Ok(status);
    }

    /** `compareWithExcludePrev`, with its flag array. */
    method CompareWithExcludePrev(str: seq<char>) returns (r: Outcome<bool>)
      ensures r == ExcludedBefore(word.excludePrev, str)
    {
      var excl := word.excludePrev;
      if |excl| < 1 {
        return Ok(false);
      }
      var strStartChr := FindTailStart(excl, |str|);
      if strStartChr < 0 {
        return Ok(false);
      }
      var skipExcludePrev := new bool[|excl|](_ => false);
      assert skipExcludePrev[..] == seq(|excl|, _ => false);
      var tail := str[strStartChr..];
      var strLen := |tail|;
      var i := 0;
      while i < |tail|
        invariant 0 <= i <= |tail| && strLen == |tail| - i
        invariant skipExcludePrev.Length == |excl|
        invariant OuterPass(excl, tail, i, skipExcludePrev[..]) == ExcludedBefore(excl, str)
      {
        strLen := strLen - 1;
        var pass := MarkMismatches(excl, tail, i, strLen, skipExcludePrev);
        if pass.Found? {
          return Ok(true);
        } else if pass.Fault? {
          return OutOfRange;
        }
        i := i + 1;
      }
      return Ok(false);
    }
  }

  /** `resetAllWords`: resets every automaton of the pool. */
  method ResetAllWords(words: seq<WordProcessor>)
    requires forall a, b :: 0 <= a < b < |words| ==> words[a] != words[b]
    modifies set k | 0 <= k < |words| :: words[k]
    ensures forall k :: 0 <= k < |words| ==> words[k].State() == ResetState(old(words[k].State()))
  {
    var i := 0;
    while i < |words|
      invariant 0 <= i <= |words|
      invariant forall k :: 0 <= k < i ==> words[k].State() == ResetState(old(words[k].State()))
      invariant forall k :: i <= k < |words| ==> words[k].State() == old(words[k].State())
    {
      words[i].Reset();
      i := i + 1;
    }
  }
}
