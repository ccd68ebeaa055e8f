/**
 * The tolerance budgets of the per-word matching automaton (options.go).
 * `lettersBetweenKeyLetters` bounds the letters, `symbolsBetweenKeyLetters`
 * the non-letters that may be inserted between two matched key letters.
 */
module Options {

  const DefaultLettersBetweenKeyLetters: int := 1
  const DefaultSymbolsBetweenKeyLetters: int := 3

  /**
   * The closures returned by `WithLettersBetweenKeyLetters` and
   * `WithSymbolsBetweenKeyLetters`, as data: each writes one field.
   */
  datatype OptionFunc = LettersBetweenKeyLetters(n: int) | SymbolsBetweenKeyLetters(n: int)

  /** The value of `lettersBetweenKeyLetters` after applying `fs` in order, starting from `init`. */
  function LettersAfter(fs: seq<OptionFunc>, init: int): (r: int)
    ensures r == init || exists k :: 0 <= k < |fs| && fs[k].LettersBetweenKeyLetters? && r == fs[k].n
  {
    if fs == [] then init
    else
      assert forall k :: 0 <= k < |fs| - 1 ==> fs[1..][k] == fs[k + 1];
      LettersAfter(fs[1..], if fs[0].LettersBetweenKeyLetters? then fs[0].n else init)
  }

  /** The value of `symbolsBetweenKeyLetters` after applying `fs` in order, starting from `init`. */
  function SymbolsAfter(fs: seq<OptionFunc>, init: int): (r: int)
    ensures r == init || exists k :: 0 <= k < |fs| && fs[k].SymbolsBetweenKeyLetters? && r == fs[k].n
  {
    if fs == [] then init
    else
      assert forall k :: 0 <= k < |fs| - 1 ==> fs[1..][k] == fs[k + 1];
      SymbolsAfter(fs[1..], if fs[0].SymbolsBetweenKeyLetters? then fs[0].n else init)
  }

  /** `fs[k]` sets the letters budget and no later option function does. */
  predicate LastSetsLetters(fs: seq<OptionFunc>, k: int) {
    0 <= k < |fs| && fs[k].LettersBetweenKeyLetters? &&
    forall j :: k < j < |fs| ==> !fs[j].LettersBetweenKeyLetters?
  }

  /** `fs[k]` sets the non-letters budget and no later option function does. */
  predicate LastSetsSymbols(fs: seq<OptionFunc>, k: int) {
    0 <= k < |fs| && fs[k].SymbolsBetweenKeyLetters? &&
    forall j :: k < j < |fs| ==> !fs[j].SymbolsBetweenKeyLetters?
  }

  /**
   * The last option function that sets a field decides it, whatever follows
   * it that sets the other field; without one the initial value stays.
   */
  lemma LastOptionWins(fs: seq<OptionFunc>, init: int)
    ensures (forall k :: 0 <= k < |fs| ==> !fs[k].LettersBetweenKeyLetters?) ==> LettersAfter(fs, init) == init
    ensures forall k :: LastSetsLetters(fs, k) ==> LettersAfter(fs, init) == fs[k].n
    ensures (forall k :: 0 <= k < |fs| ==> !fs[k].SymbolsBetweenKeyLetters?) ==> SymbolsAfter(fs, init) == init
    ensures forall k :: LastSetsSymbols(fs, k) ==> SymbolsAfter(fs, init) == fs[k].n
  {
    if forall k :: 0 <= k < |fs| ==> !fs[k].LettersBetweenKeyLetters? {
      NoLettersSetterKeeps(fs, init);
    }
    if forall k :: 0 <= k < |fs| ==> !fs[k].SymbolsBetweenKeyLetters? {
      NoSymbolsSetterKeeps(fs, init);
    }
    forall k | LastSetsLetters(fs, k) ensures LettersAfter(fs, init) == fs[k].n {
      LastLettersSetterWins(fs, init, k);
    }
    forall k | LastSetsSymbols(fs, k) ensures SymbolsAfter(fs, init) == fs[k].n {
      LastSymbolsSetterWins(fs, init, k);
    }
  }

  lemma {:induction false} NoLettersSetterKeeps(fs: seq<OptionFunc>, init: int)
    requires forall k :: 0 <= k < |fs| ==> !fs[k].LettersBetweenKeyLetters?
    ensures LettersAfter(fs, init) == init
  {
    if fs != [] {
      assert forall k :: 0 <= k < |fs| - 1 ==> fs[1..][k] == fs[k + 1];
      NoLettersSetterKeeps(fs[1..], init);
    }
  }

  lemma {:induction false} NoSymbolsSetterKeeps(fs: seq<OptionFunc>, init: int)
    requires forall k :: 0 <= k < |fs| ==> !fs[k].SymbolsBetweenKeyLetters?
    ensures SymbolsAfter(fs, init) == init
  {
    if fs != [] {
      assert forall k :: 0 <= k < |fs| - 1 ==> fs[1..][k] == fs[k + 1];
      NoSymbolsSetterKeeps(fs[1..], init);
    }
  }

  lemma {:induction false} LastLettersSetterWins(fs: seq<OptionFunc>, init: int, k: int)
    requires LastSetsLetters(fs, k)
    ensures LettersAfter(fs, init) == fs[k].n
  {
    var next := if fs[0].LettersBetweenKeyLetters? then fs[0].n else init;
    assert forall j :: 0 <= j < |fs| - 1 ==> fs[1..][j] == fs[j + 1];
    if k == 0 {
      NoLettersSetterKeeps(fs[1..], next);
    } else {
      LastLettersSetterWins(fs[1..], next, k - 1);
    }
  }

  lemma {:induction false} LastSymbolsSetterWins(fs: seq<OptionFunc>, init: int, k: int)
    requires LastSetsSymbols(fs, k)
    ensures SymbolsAfter(fs, init) == fs[k].n
  {
    var next := if fs[0].SymbolsBetweenKeyLetters? then fs[0].n else init;
    assert forall j :: 0 <= j < |fs| - 1 ==> fs[1..][j] == fs[j + 1];
    if k == 0 {
      NoSymbolsSetterKeeps(fs[1..], next);
    } else {
      LastSymbolsSetterWins(fs[1..], next, k - 1);
    }
  }

  class Options {
    var lettersBetweenKeyLetters: int
    var symbolsBetweenKeyLetters: int

    /** `getDefaultOptions`: one inserted letter and three inserted non-letters. */
    constructor GetDefaultOptions()
      ensures lettersBetweenKeyLetters == 1
      ensures symbolsBetweenKeyLetters == 3
    {
      lettersBetweenKeyLetters := DefaultLettersBetweenKeyLetters;
      symbolsBetweenKeyLetters := DefaultSymbolsBetweenKeyLetters;
    }

    /** The closure of `WithLettersBetweenKeyLetters(n)` applied to this record. */
    method WithLettersBetweenKeyLetters(n: int)
      modifies this
      ensures lettersBetweenKeyLetters == n
      ensures symbolsBetweenKeyLetters == old(symbolsBetweenKeyLetters)
    {
      lettersBetweenKeyLetters := n;
    }

    /** The closure of `WithSymbolsBetweenKeyLetters(n)` applied to this record. */
    method WithSymbolsBetweenKeyLetters(n: int)
      modifies this
      ensures symbolsBetweenKeyLetters == n
      ensures lettersBetweenKeyLetters == old(lettersBetweenKeyLetters)
    {
      symbolsBetweenKeyLetters := n;
    }

    /** Applies the option functions in order, as `NewWordFilter` does. */
    method ApplyAll(fs: seq<OptionFunc>)
      modifies this
      ensures lettersBetweenKeyLetters == LettersAfter(fs, old(lettersBetweenKeyLetters))
      ensures symbolsBetweenKeyLetters == SymbolsAfter(fs, old(symbolsBetweenKeyLetters))
    {
      var k := 0;
      while k < |fs|
        invariant 0 <= k <= |fs|
        invariant LettersAfter(fs[k..], lettersBetweenKeyLetters) == LettersAfter(fs, old(lettersBetweenKeyLetters))
        invariant SymbolsAfter(fs[k..], symbolsBetweenKeyLetters) == SymbolsAfter(fs, old(symbolsBetweenKeyLetters))
      {
        assert fs[k..][1..] == fs[k + 1..];
        match fs[k] {
          case LettersBetweenKeyLetters(n) => WithLettersBetweenKeyLetters(n);
          case SymbolsBetweenKeyLetters(n) => WithSymbolsBetweenKeyLetters(n);
        }
        k := k + 1;
      }
    }
  }
}
