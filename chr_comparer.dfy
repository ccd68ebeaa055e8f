/**
 * The equivalence table and the character matcher (chr_comparer.go).
 *
 * The table maps a canonical rune to its variant spellings, each a
 * sequence of runes, sorted ascending by length. `CompareChars` decides
 * whether an observed rune, followed by runes pulled on demand from a
 * lookahead source, spells one of the variants of a sample rune.
 *
 * The source's `getNextChar` callback is the function `pull`: its k-th call
 * (k = 0, 1, ...) returns `pull(k)`, and `None` stands for a call the
 * source would answer by indexing past the end of its input.
 */
module ChrComparer {
  import opened Runes
  import LengthSort

  type CharsMap = map<char, seq<seq<char>>>

  /** The result of one comparison: whether it matched and how many runes it pulled. */
  datatype Comparison = Compared(matched: bool, consumed: nat) | Overrun

  // ---------------------------------------------------------------------------
  // Building the table
  // ---------------------------------------------------------------------------

  /** The caller's table can be converted: no empty key, no two keys with the same first rune. */
  predicate ConvertibleMap(m: map<string, seq<string>>) {
    (forall k :: k in m ==> |k| > 0) &&
    (forall k1, k2 :: k1 in m && k2 in m && k1 != k2 ==> k1[0] != k2[0])
  }

  /**
   * `convertCompareChars`: each key is replaced by its first rune and each
   * variant list is stable-sorted ascending by length.
   */
  function ConvertCompareChars(m: map<string, seq<string>>): (r: CharsMap)
    requires ConvertibleMap(m)
    ensures forall c :: c in r <==> exists k :: k in m && k[0] == c
  {
    map k | k in m :: k[0] := LengthSort.SortStable(m[k], false)
  }

  /**
   * Every converted entry is the key's variants, sorted ascending by length,
   * as a permutation that keeps equal-length variants in their given order.
   */
  lemma ConvertedEntries(m: map<string, seq<string>>, k: string, n: nat)
    requires ConvertibleMap(m) && k in m
    ensures k[0] in ConvertCompareChars(m)
    ensures LengthSort.Sorted(ConvertCompareChars(m)[k[0]], false)
    ensures multiset(ConvertCompareChars(m)[k[0]]) == multiset(m[k])
    ensures LengthSort.WithLength(ConvertCompareChars(m)[k[0]], n) == LengthSort.WithLength(m[k], n)
  {
    var r := ConvertCompareChars(m);
    assert r[k[0]] == LengthSort.SortStable(m[k], false);
    LengthSort.SortSorted(m[k], false);
    LengthSort.SortIsStable(m[k], false, n);
  }

  /** Every variant of every entry is sorted ascending by length. */
  predicate SortedTable(table: CharsMap) {
    forall c :: c in table ==> LengthSort.Sorted(table[c], false)
  }

  // ---------------------------------------------------------------------------
  // The character matcher
  // ---------------------------------------------------------------------------

  /** The variants of the entry the matcher consults for `sample` are all non-empty. */
  predicate EntryNonEmpty(table: CharsMap, sample: char) {
    ToLower(sample) in table ==> forall v :: v in table[ToLower(sample)] ==> |v| > 0
  }

  /**
   * Grows `buf` to `n` runes by pulling; a buffer holding its first rune and
   * `k` pulled runes makes the next pull the `k`-th. `None` when a pull fails.
   */
  function Pad(buf: seq<char>, n: nat, pull: nat -> Option<char>): (r: Option<seq<char>>)
    requires |buf| >= 1
    ensures r.Some? ==> |r.value| == if |buf| >= n then |buf| else n
    ensures r.Some? ==> r.value[..|buf|] == buf
    decreases n - |buf|
  {
    if |buf| >= n then Some(buf)
    else match pull(|buf| - 1)
      case None => None
      case Some(c) => Pad(buf + [c], n, pull)
  }

  /**
   * The lookahead source as seen by a comparison that starts after `d` runes
   * were already pulled through the same callback: its `k`-th pull is the
   * callback's `d + k`-th.
   */
  function Shifted(pull: nat -> Option<char>, d: nat): nat -> Option<char> {
    (k: nat) => pull(d + k)
  }

  /**
   * The loop over the variants: a variant whose first rune differs from the
   * buffer's is skipped; otherwise the buffer is padded to its length and
   * compared with it. `consumed` is the number of runes pulled in all.
   */
  function CompareFrom(variants: seq<seq<char>>, buf: seq<char>, pull: nat -> Option<char>): (r: Comparison)
    requires |buf| >= 1
    requires forall v :: v in variants ==> |v| > 0
    ensures r.Overrun? ==> exists v :: v in variants && |v| > |buf|
    ensures r.Compared? && r.matched ==> exists v :: v in variants && v[0] == buf[0] && |v| == r.consumed + 1
    ensures r.Compared? ==> r.consumed >= |buf| - 1
  {
    if variants == [] then Compared(false, |buf| - 1)
    else
      var v := variants[0];
      if v[0] != buf[0] then CompareFrom(variants[1..], buf, pull)
      else match Pad(buf, |v|, pull)
        case None => Overrun
        case Some(b) =>
          if b == v then Compared(true, |b| - 1)
          else CompareFrom(variants[1..], b, pull)
  }

  /**
   * `compareChars`: the sample and the observed rune are lowercased; a sample
   * with no table entry matches by equality, otherwise by its variants.
   */
  function Compare(table: CharsMap, sample: char, compareTo: char, pull: nat -> Option<char>): (r: Comparison)
    requires EntryNonEmpty(table, sample)
    ensures r.Overrun? ==> ToLower(sample) in table && exists v :: v in table[ToLower(sample)] && |v| > 1
    ensures r.Compared? && r.matched && ToLower(sample) in table ==>
      exists v :: v in table[ToLower(sample)] && v[0] == ToLower(compareTo) && |v| == r.consumed + 1
    ensures ToLower(sample) !in table ==> r.Compared? && r.consumed == 0
  {
    var c := ToLower(compareTo);
    var s := ToLower(sample);
    if s !in table then Compared(s == c, 0)
    else CompareFrom(table[s], [c], pull)
  }

  // ---------------------------------------------------------------------------
  // Properties of the matcher
  // ---------------------------------------------------------------------------

  /**
   * Without a table entry the comparison is case-insensitive equality and
   * pulls nothing, whatever the lookahead source holds.
   */
  lemma NoEntryIsEquality(table: CharsMap, sample: char, compareTo: char, pull: nat -> Option<char>, other: nat -> Option<char>)
    requires ToLower(sample) !in table
    ensures Compare(table, sample, compareTo, pull) == Compared(ToLower(sample) == ToLower(compareTo), 0)
    ensures Compare(table, sample, compareTo, pull) == Compare(table, sample, compareTo, other)
  {
  }

  /** Padding in two steps is padding once; a pad that fails cannot succeed further on. */
  lemma {:induction false} PadTwice(buf: seq<char>, m: nat, n: nat, pull: nat -> Option<char>)
    requires |buf| >= 1 && m <= n
    ensures Pad(buf, m, pull).Some? ==> Pad(buf, n, pull) == Pad(Pad(buf, m, pull).value, n, pull)
    ensures Pad(buf, m, pull).None? ==> Pad(buf, n, pull).None?
    decreases n - |buf|
  {
    if |buf| < m {
      match pull(|buf| - 1)
      case None =>
      case Some(c) => PadTwice(buf + [c], m, n, pull);
    }
  }

  /** The variants whose first rune is `c`, in order. */
  function StartingWith(variants: seq<seq<char>>, c: char): (r: seq<seq<char>>)
    requires forall v :: v in variants ==> |v| > 0
    ensures forall v :: v in r ==> v in variants && v[0] == c
  {
    if variants == [] then []
    else (if variants[0][0] == c then [variants[0]] else []) + StartingWith(variants[1..], c)
  }

  /** Variants with another first rune are skipped: they change neither the verdict nor the pulls. */
  lemma {:induction false} OtherFirstRunesSkipped(variants: seq<seq<char>>, buf: seq<char>, pull: nat -> Option<char>)
    requires |buf| >= 1
    requires forall v :: v in variants ==> |v| > 0
    ensures CompareFrom(variants, buf, pull) == CompareFrom(StartingWith(variants, buf[0]), buf, pull)
  {
    if variants != [] {
      var v := variants[0];
      var rest := StartingWith(variants[1..], buf[0]);
      if v[0] != buf[0] {
        assert StartingWith(variants, buf[0]) == rest;
        OtherFirstRunesSkipped(variants[1..], buf, pull);
      } else {
        assert StartingWith(variants, buf[0]) == [v] + rest;
        assert ([v] + rest)[1..] == rest;
        match Pad(buf, |v|, pull)
        case None =>
        case Some(b) =>
          assert b[..|buf|] == buf;
          assert b[0] == buf[0];
          OtherFirstRunesSkipped(variants[1..], b, pull);
      }
    }
  }

  /** The length of the longest variant starting with `c`, or 0 when there is none. */
  function Longest(variants: seq<seq<char>>, c: char): (n: nat)
    requires forall v :: v in variants ==> |v| > 0
    ensures forall v :: v in variants && v[0] == c ==> |v| <= n
    ensures n > 0 ==> exists v :: v in variants && v[0] == c && |v| == n
  {
    if variants == [] then 0
    else
      var rest := Longest(variants[1..], c);
      assert forall v :: v in variants[1..] ==> v in variants;
      assert forall v :: v in variants ==> v == variants[0] || v in variants[1..];
      if variants[0][0] == c && |variants[0]| > rest then |variants[0]| else rest
  }

  /**
   * The buffer is reused across variants: the number of runes pulled never
   * exceeds the longest variant with the observed first rune, less one, and
   * is zero when no variant starts with that rune.
   */
  lemma {:induction false} PullsBounded(variants: seq<seq<char>>, buf: seq<char>, pull: nat -> Option<char>)
    requires |buf| >= 1
    requires forall v :: v in variants ==> |v| > 0
    ensures CompareFrom(variants, buf, pull).Compared? ==>
      CompareFrom(variants, buf, pull).consumed + 1 <= if |buf| >= Longest(variants, buf[0]) then |buf| else Longest(variants, buf[0])
  {
    if variants != [] {
      var v := variants[0];
      assert forall w :: w in variants[1..] ==> w in variants;
      if v[0] != buf[0] {
        PullsBounded(variants[1..], buf, pull);
      } else {
        match Pad(buf, |v|, pull)
        case None =>
        case Some(b) =>
          assert b[0] == buf[0] by { assert b[..|buf|] == buf; }
          PullsBounded(variants[1..], b, pull);
      }
    }
  }

  /** `compareChars` pulls at most the longest matching variant's length less one. */
  lemma PullsAtMostLongestMinusOne(table: CharsMap, sample: char, compareTo: char, pull: nat -> Option<char>)
    requires EntryNonEmpty(table, sample)
    ensures Compare(table, sample, compareTo, pull).Compared? && ToLower(sample) in table ==>
      Compare(table, sample, compareTo, pull).consumed + 1 <= if Longest(table[ToLower(sample)], ToLower(compareTo)) == 0 then 1 else Longest(table[ToLower(sample)], ToLower(compareTo))
    ensures Compare(table, sample, compareTo, pull).Compared? && ToLower(sample) !in table ==>
      Compare(table, sample, compareTo, pull).consumed == 0
  {
    if ToLower(sample) in table {
      PullsBounded(table[ToLower(sample)], [ToLower(compareTo)], pull);
    }
  }

  /** The observed rune followed by the first `n - 1` pulls, when all succeed. */
  function Spelled(c: char, n: nat, pull: nat -> Option<char>): Option<seq<char>> {
    Pad([c], n, pull)
  }

  /**
   * With variants sorted ascending by length, a comparison that does not
   * overrun matches exactly when some variant starting with the observed
   * rune equals the observed rune followed by the pulled runes.
   */
  lemma {:induction false} MatchesIffSomeVariantSpelled(variants: seq<seq<char>>, buf: seq<char>, pull: nat -> Option<char>)
    requires |buf| >= 1
    requires forall v :: v in variants ==> |v| > 0
    requires LengthSort.Sorted(variants, false)
    requires forall i :: 0 <= i < |variants| ==> |buf| <= |variants[i]|
    requires Spelled(buf[0], |buf|, pull) == Some(buf)
    ensures CompareFrom(variants, buf, pull).Compared? ==>
      (CompareFrom(variants, buf, pull).matched <==>
        exists i :: 0 <= i < |variants| && variants[i][0] == buf[0] && Spelled(buf[0], |variants[i]|, pull) == Some(variants[i]))
  {
    if variants != [] {
      var v, c := variants[0], buf[0];
      var tail := variants[1..];
      LengthSort.SortedTail(variants, false);
      assert forall i :: 0 <= i < |tail| ==> tail[i] == variants[i + 1];
      assert forall w :: w in tail ==> w in variants;
      if v[0] != c {
        MatchesIffSomeVariantSpelled(tail, buf, pull);
        SpelledInTail(variants, c, pull);
      } else {
        PadTwice([c], |buf|, |v|, pull);
        match Pad(buf, |v|, pull)
        case None =>
        case Some(b) =>
          assert b[0] == c by { assert b[..|buf|] == buf; }
          if b != v {
            FirstShortest(variants);
            MatchesIffSomeVariantSpelled(tail, b, pull);
            SpelledInTail(variants, c, pull);
          }
      }
    }
  }

  /** A variant other than the first that `c` and the pulls spell is one of the tail. */
  lemma SpelledInTail(variants: seq<seq<char>>, c: char, pull: nat -> Option<char>)
    requires |variants| > 0 && forall v :: v in variants ==> |v| > 0
    requires variants[0][0] != c || Spelled(c, |variants[0]|, pull) != Some(variants[0])
    ensures (exists i :: 0 <= i < |variants| && variants[i][0] == c && Spelled(c, |variants[i]|, pull) == Some(variants[i]))
        <==> (exists i :: 0 <= i < |variants| - 1 && variants[1..][i][0] == c && Spelled(c, |variants[1..][i]|, pull) == Some(variants[1..][i]))
  {
    var tail := variants[1..];
    if exists i :: 0 <= i < |variants| && variants[i][0] == c && Spelled(c, |variants[i]|, pull) == Some(variants[i]) {
      var i :| 0 <= i < |variants| && variants[i][0] == c && Spelled(c, |variants[i]|, pull) == Some(variants[i]);
      assert i != 0;
      assert tail[i - 1] == variants[i];
    }
    if exists i :: 0 <= i < |tail| && tail[i][0] == c && Spelled(c, |tail[i]|, pull) == Some(tail[i]) {
      var i :| 0 <= i < |tail| && tail[i][0] == c && Spelled(c, |tail[i]|, pull) == Some(tail[i]);
      assert variants[i + 1] == tail[i];
    }
  }

  /** In a list sorted ascending by length, the first element is no longer than any later one. */
  lemma FirstShortest(variants: seq<seq<char>>)
    requires |variants| > 0 && LengthSort.Sorted(variants, false)
    ensures forall i :: 0 <= i < |variants| - 1 ==> |variants[0]| <= |variants[1..][i]|
  {
    forall i | 0 <= i < |variants| - 1 ensures |variants[0]| <= |variants[1..][i]| {
      assert LengthSort.Key(variants[0], false) <= LengthSort.Key(variants[i + 1], false);
    }
  }

  /**
   * `compareChars` against a sorted entry: unless a pull fails, the observed
   * rune matches exactly when some variant starting with its lower case is
   * spelled by it and the pulled runes.
   */
  lemma CompareMatchesIffVariantSpelled(table: CharsMap, sample: char, compareTo: char, pull: nat -> Option<char>)
    requires EntryNonEmpty(table, sample) && SortedTable(table)
    requires ToLower(sample) in table
    ensures Compare(table, sample, compareTo, pull).Compared? ==>
      (Compare(table, sample, compareTo, pull).matched <==>
        exists v :: v in table[ToLower(sample)] && v[0] == ToLower(compareTo) && Spelled(ToLower(compareTo), |v|, pull) == Some(v))
  {
    var variants := table[ToLower(sample)];
    var c := ToLower(compareTo);
    assert Spelled(c, 1, pull) == Some([c]);
    MatchesIffSomeVariantSpelled(variants, [c], pull);
    if exists v :: v in variants && v[0] == c && Spelled(c, |v|, pull) == Some(v) {
      var v :| v in variants && v[0] == c && Spelled(c, |v|, pull) == Some(v);
      var i :| 0 <= i < |variants| && variants[i] == v;
    }
  }

  // ---------------------------------------------------------------------------
  // The test table of chr_comparer_test.go
  // ---------------------------------------------------------------------------

  /**
   * A table holding the variants the test cases rely on. The default table
   * the test builds is not part of this model.
   */
  const SampleTable: CharsMap := map['х' := ["х", "x", "}{"], 'д' := ["д", "d"], 'ы' := ["ы", "b|"]]

  /** The test's lookahead: every call returns the second rune of the observed text. */
  function TestPull(compareTo: seq<char>): nat -> Option<char> {
    k => if |compareTo| > 1 then Some(compareTo[1]) else None
  }

  /** Multi-rune spellings: "}{" for "х" and "b|" for "ы" match after one pull. */
  lemma TestTableMultiRune()
    ensures Compare(SampleTable, 'х', '}', TestPull("}{")) == Compared(true, 1)
    ensures Compare(SampleTable, 'ы', 'b', TestPull("b|")) == Compared(true, 1)
  {
    SpellsAfterOnePull('}', '{');
    SpellsAfterOnePull('b', '|');
    var x, y := SampleTable['х'], SampleTable['ы'];
    assert CompareFrom(x, ['}'], TestPull("}{")) == CompareFrom(x[2..], ['}'], TestPull("}{"));
    assert CompareFrom(y, ['b'], TestPull("b|")) == CompareFrom(y[1..], ['b'], TestPull("b|"));
  }

  lemma SpellsAfterOnePull(a: char, b: char)
    ensures Pad([a], 2, TestPull([a, b])) == Some([a, b])
  {
    assert TestPull([a, b])(0) == Some(b);
    assert [a] + [b] == [a, b];
  }

  /** Single-rune cases: a variant, the letter itself in either case, an entry-less sample, and two rejections. */
  lemma TestTableSingleRune()
    ensures Compare(SampleTable, 'д', 'd', TestPull("d")) == Compared(true, 0)
    ensures Compare(SampleTable, 'д', 'д', TestPull("д")) == Compared(true, 0)
    ensures Compare(SampleTable, 'д', 'Д', TestPull("Д")) == Compared(true, 0)
    ensures Compare(SampleTable, 'd', 'd', TestPull("d")) == Compared(true, 0)
    ensures Compare(SampleTable, 'l', 'd', TestPull("d")) == Compared(false, 0)
    ensures Compare(SampleTable, 'д', 'b', TestPull("b")) == Compared(false, 0)
  {
  }

  // ---------------------------------------------------------------------------
  // The comparer object
  // ---------------------------------------------------------------------------

  /** The set of first runes of the non-empty variants of `letter`'s entry. */
  function PossibleFirstRunes(table: CharsMap, letter: char): (r: set<char>)
    ensures forall c :: c in r <==> letter in table && exists v :: v in table[letter] && |v| > 0 && v[0] == c
  {
    if letter in table then set v | v in table[letter] && |v| > 0 :: v[0] else {}
  }

  /**
   * On a table built from the caller's map, the possible first runes of
   * `letter` are the first runes of the non-empty variants given under the
   * key that starts with `letter`: sorting the variants loses none and adds none.
   */
  lemma ConvertedFirstRunes(m: map<string, seq<string>>, letter: char)
    requires ConvertibleMap(m)
    ensures forall c :: c in PossibleFirstRunes(ConvertCompareChars(m), letter) <==>
      exists key, v :: key in m && key[0] == letter && v in m[key] && |v| > 0 && v[0] == c
  {
    var r := ConvertCompareChars(m);
    forall c | c in PossibleFirstRunes(r, letter)
      ensures exists key, v :: key in m && key[0] == letter && v in m[key] && |v| > 0 && v[0] == c
    {
      var v :| v in r[letter] && |v| > 0 && v[0] == c;
      var key :| key in m && key[0] == letter;
      ConvertedEntries(m, key, 0);
      assert v in multiset(r[letter]);
    }
    forall c | exists key, v :: key in m && key[0] == letter && v in m[key] && |v| > 0 && v[0] == c
      ensures c in PossibleFirstRunes(r, letter)
    {
      var key, v :| key in m && key[0] == letter && v in m[key] && |v| > 0 && v[0] == c;
      ConvertedEntries(m, key, 0);
      assert v in multiset(m[key]);
    }
  }

  /** Every variant in the table is a single rune. */
  predicate SingleRuneVariants(table: CharsMap) {
    forall c, v :: c in table && v in table[c] ==> |v| == 1
  }

  /** `compareTo` spells `sample` as one rune: it is one of the entry's variants, or equal to `sample` when it has no entry, both lowercased. */
  predicate SpellsRune(table: CharsMap, sample: char, compareTo: char) {
    var s := ToLower(sample);
    if s in table then [ToLower(compareTo)] in table[s] else s == ToLower(compareTo)
  }

  /**
   * With single-rune variants the matcher never pulls: it matches exactly
   * when the observed rune spells the sample.
   */
  lemma SingleRuneCompare(table: CharsMap, sample: char, compareTo: char, pull: nat -> Option<char>)
    requires SingleRuneVariants(table)
    ensures Compare(table, sample, compareTo, pull) == Compared(SpellsRune(table, sample, compareTo), 0)
  {
    var s := ToLower(sample);
    if s in table {
      SingleRuneCompareFrom(table[s], ToLower(compareTo), pull);
    }
  }

  lemma {:induction false} SingleRuneCompareFrom(variants: seq<seq<char>>, c: char, pull: nat -> Option<char>)
    requires forall v :: v in variants ==> |v| == 1
    ensures CompareFrom(variants, [c], pull) == Compared([c] in variants, 0)
  {
    if variants != [] {
      var v := variants[0];
      assert v == [v[0]];
      assert [c] in variants <==> v == [c] || [c] in variants[1..] by {
        assert variants == [v] + variants[1..];
      }
      SingleRuneCompareFrom(variants[1..], c, pull);
    }
  }

  /** The possible first runes of the first letter of every non-empty word. */
  function WordsPossibleFirstRunes(table: CharsMap, words: seq<seq<char>>): (r: set<char>)
    ensures forall c :: c in r <==> exists k :: 0 <= k < |words| && |words[k]| > 0 && c in PossibleFirstRunes(table, words[k][0])
  {
    if words == [] then {}
    else
      var init, last := words[..|words| - 1], words[|words| - 1];
      var rest := WordsPossibleFirstRunes(table, init);
      assert forall k :: 0 <= k < |init| ==> init[k] == words[k];
      rest + (if |last| > 0 then PossibleFirstRunes(table, last[0]) else {})
  }

  class CharsComparer {
    var charsMap: CharsMap

    /** `NewCharsComparer`: an empty table extended by the caller's map. */
    constructor (m: map<string, seq<string>>)
      requires ConvertibleMap(m)
      ensures charsMap == ConvertCompareChars(m)
    {
      charsMap := map[];
      new;
      AddCharsMap(m);
      assert charsMap.Keys == ConvertCompareChars(m).Keys;
    }

    /** `AddCharsMap`: overwrites the entries of the converted keys and keeps every other entry. */
    method AddCharsMap(m: map<string, seq<string>>)
      requires ConvertibleMap(m)
      modifies this
      ensures charsMap.Keys == old(charsMap).Keys + ConvertCompareChars(m).Keys
      ensures forall c :: c in ConvertCompareChars(m) ==> charsMap[c] == ConvertCompareChars(m)[c]
      ensures forall c :: c in old(charsMap) && c !in ConvertCompareChars(m) ==> charsMap[c] == old(charsMap)[c]
    {
      var converted := ConvertCompareChars(m);
      var todo := converted.Keys;
      while todo != {}
        invariant todo <= converted.Keys
        invariant charsMap.Keys == old(charsMap).Keys + (converted.Keys - todo)
        invariant forall c :: c in converted && c !in todo ==> charsMap[c] == converted[c]
        invariant forall c :: c in old(charsMap) && (c !in converted || c in todo) ==> charsMap[c] == old(charsMap)[c]
        decreases todo
      {
        var key :| key in todo;
        charsMap := charsMap[key := converted[key]];
        todo := todo - {key};
      }
    }

    /** `SetCharsMap`: discards every previous entry. */
    method SetCharsMap(m: map<string, seq<string>>)
      requires ConvertibleMap(m)
      modifies this
      ensures charsMap == ConvertCompareChars(m)
    {
      charsMap := ConvertCompareChars(m);
    }

    /**
     * `compareChars`, with the growing local buffer. The result is the
     * matcher's verdict together with the number of runes pulled.
     */
    method CompareChars(sample: char, compareTo: char, pull: nat -> Option<char>) returns (r: Comparison)
      requires EntryNonEmpty(charsMap, sample)
      ensures r == Compare(charsMap, sample, compareTo, pull)
    {
      var c := ToLower(compareTo);
      var s := ToLower(sample);
      if s !in charsMap {
        return Compared(s == c, 0);
      }
      var variants := charsMap[s];
      var buf := [c];
      var j := 0;
      while j < |variants|
        invariant 0 <= j <= |variants|
        invariant |buf| >= 1
        invariant CompareFrom(variants[j..], buf, pull) == Compare(charsMap, sample, compareTo, pull)
      {
        var v := variants[j];
        assert v in variants;
        assert variants[j..][1..] == variants[j + 1..];
        if v[0] == buf[0] {
          ghost var start := buf;
          var lenDif := |v| - |buf|;
          var i := 0;
          while i < lenDif
            invariant 0 <= i && (lenDif >= 0 ==> i <= lenDif)
            invariant |buf| == |start| + i
            invariant Pad(buf, |v|, pull) == Pad(start, |v|, pull)
          {
            var next := pull(|buf| - 1);
            if next.None? {
              return Overrun;
            }
            buf := buf + [next.value];
            i := i + 1;
          }
          assert Pad(start, |v|, pull) == Some(buf);
          i := 0;
          while i < |v|
            invariant 0 <= i <= |v| <= |buf|
            invariant buf[..i] == v[..i]
            invariant i > 0 ==> |buf| != i
          {
            if buf[i] != v[i] {
              break;
            }
            assert buf[..i + 1] == buf[..i] + [buf[i]] && v[..i + 1] == v[..i] + [v[i]];
            if |buf| == i + 1 {
              assert buf == buf[..i + 1] && v == v[..i + 1];
              return Compared(true, |buf| - 1);
            }
            i := i + 1;
          }
        }
        j := j + 1;
      }
      return Compared(false, |buf| - 1);
    }

    /** `fillLetterPossibleChars`: adds the first rune of each non-empty variant of `letter`. */
    method FillLetterPossibleChars(letter: char, resultSet: set<char>) returns (r: set<char>)
      ensures resultSet <= r
      ensures forall c :: c in r <==> c in resultSet || (letter in charsMap && exists v :: v in charsMap[letter] && |v| > 0 && v[0] == c)
    {
      r := resultSet;
      if letter !in charsMap {
        return;
      }
      var letterChrs := charsMap[letter];
      var k := 0;
      while k < |letterChrs|
        invariant 0 <= k <= |letterChrs|
        invariant forall c :: c in r <==> c in resultSet || exists v :: v in letterChrs[..k] && |v| > 0 && v[0] == c
      {
        assert letterChrs[..k + 1] == letterChrs[..k] + [letterChrs[k]];
        if |letterChrs[k]| >= 1 {
          r := r + {letterChrs[k][0]};
        }
        k := k + 1;
      }
      assert letterChrs[..k] == letterChrs;
    }

    /** `fillLettersPossibleChars`: skips empty words, adds the possible first runes of each word's first letter. */
    method FillLettersPossibleChars(words: seq<seq<char>>, resultSet: set<char>) returns (r: set<char>)
      ensures r == resultSet + WordsPossibleFirstRunes(charsMap, words)
    {
      r := resultSet;
      var k := 0;
      while k < |words|
        invariant 0 <= k <= |words|
        invariant r == resultSet + WordsPossibleFirstRunes(charsMap, words[..k])
      {
        if |words[k]| >= 1 {
          r := FillLetterPossibleChars(words[k][0], r);
        }
        assert words[..k + 1][..k] == words[..k];
        k := k + 1;
      }
      assert words[..|words|] == words;
    }
  }
}
