/**
 * The word filter (`WordFilter` in filters.go): a pool of per-word automata
 * run over the input, rune by rune, replacing each detected word by what
 * the caller's callback returns for it.
 *
 * `Filter` is the outcome of `FilterWords` as a function of the filter's
 * configuration, the input and the callback; the class `WordFilter` keeps
 * the configuration in fields and its `FilterWords` is proved to compute
 * `Filter`. The callback is a function parameter; the text it returns is
 * spliced into the output and every `DetectedWord` handed to it is logged.
 */
module Filters {
  import opened Runes
  import opened ChrComparer
  import opened WordProcessing
  import Options
  import LengthSort

  /** `DetectedWord`: the word as configured, the runes that preceded the hit, the hit and the runes after it. */
  datatype DetectedWord = DetectedWord(originalWord: seq<char>, beginning: seq<char>, word: seq<char>, ending: seq<char>)

  /** `UserWord` without its excluded-past list, which the filter never consults. */
  datatype UserWord = UserWord(word: seq<char>, excludedPrev: seq<seq<char>>)

  /** What `FilterWords` reads from the filter: the words, the matcher's table, the budgets and the first runes. */
  datatype Config = Config(words: seq<PreparedWord>, table: CharsMap, letters: int, symbols: int, firstRunes: set<char>)

  /** The local variables of `FilterWords` other than the automata. */
  datatype Locals = Locals(
    chrBuf: seq<char>,
    result: seq<char>,
    wordStartSymb: int,
    detectWord: bool,
    detected: DetectedWord,
    ending: seq<char>,
    calls: seq<DetectedWord>)

  /** The automata's states and the locals. */
  datatype Scan = Scan(procs: seq<ProcState>, locals: Locals)

  /** The state after the pass over the automata, with the `wordsNotInProgress` flag. */
  datatype Round = Round(scan: Scan, notInProgress: bool)

  /** The locals and the `wordsNotInProgress` flag after the pass over the automata. */
  datatype Progress = Progress(locals: Locals, notInProgress: bool)

  /** The filtered text and the detections handed to the callback, in order. */
  datatype Filtered = Filtered(text: seq<char>, calls: seq<DetectedWord>)

  /** `d` was detected for one of the configured words. */
  predicate NamesAWord(cfg: Config, d: DetectedWord) {
    exists k :: 0 <= k < |cfg.words| && d.originalWord == cfg.words[k].searchedWord
  }

  /** The matcher's table holds no empty variant. */
  predicate VariantsNonEmpty(table: CharsMap) {
    forall c, v :: c in table && v in table[c] ==> |v| > 0
  }

  lemma EntriesOfWord(table: CharsMap, word: seq<char>)
    requires VariantsNonEmpty(table)
    ensures WordEntriesNonEmpty(table, word)
  {
  }

  /** Every configured word has at least one letter. */
  predicate WordsNonEmpty(cfg: Config) {
    forall k :: 0 <= k < |cfg.words| ==> |cfg.words[k].searchedWord| > 0
  }

  /** Every automaton still expects a letter of its word: `compareChar` never indexes past the word's end. */
  predicate InRange(cfg: Config, ps: seq<ProcState>) {
    |ps| == |cfg.words| && forall k :: 0 <= k < |ps| ==> ps[k].lastActiveChar < |cfg.words[k].searchedWord|
  }

  /** The `getNextChar` of `FilterWords`: every call yields the rune after position `i`, if any. */
  function Lookahead(s: seq<char>, i: nat): (r: nat -> Option<char>)
    ensures forall d: nat, k: nat :: Shifted(r, d)(k) == r(k)
    ensures forall k: nat :: r(k).Some? <==> i + 1 < |s|
  {
    _ => if i + 1 < |s| then Some(s[i + 1]) else None
  }

  function ResetAll(ps: seq<ProcState>): (r: seq<ProcState>)
    ensures |r| == |ps| && forall j :: 0 <= j < |ps| ==> r[j] == ResetState(ps[j])
    ensures forall j :: 0 <= j < |ps| ==> r[j] == Initial.(startSymbol := ps[j].startSymbol)
    ensures forall j :: 0 <= j < |r| ==> ResetState(r[j]) == r[j]
  {
    seq(|ps|, j requires 0 <= j < |ps| => ResetState(ps[j]))
  }

  /** Completes the pending detection with its ending and hands it to the callback. */
  function Emit(l: Locals, replace: DetectedWord -> seq<char>): (r: Locals)
    ensures !r.detectWord && |r.calls| == |l.calls| + 1 && r.calls[..|l.calls|] == l.calls
    ensures r.calls[|l.calls|] == l.detected.(ending := l.ending)
    ensures r.result == l.result + replace(r.calls[|l.calls|])
    ensures r.chrBuf == l.chrBuf && r.wordStartSymb == l.wordStartSymb
  {
    var d := l.detected.(ending := l.ending);
    l.(detected := d, result := l.result + replace(d), calls := l.calls + [d], detectWord := false)
  }

  /**
   * Automaton `k` has just succeeded: unless the text before the hit ends
   * with an excluded context, the hit and the runes since the word start
   * leave `chrBuf` and become the pending detection; every automaton is reset.
   */
  function Detect(cfg: Config, i: nat, st: Scan, k: nat, notInProgress: bool): (r: Outcome<Round>)
    requires k < |cfg.words| == |st.procs|
    ensures r.Ok? ==> |r.value.scan.procs| == |cfg.words|
  {
    var q := st.procs[k];
    var buf := st.locals.chrBuf;
    var n := q.symbolCounter;
    if n > |buf| then OutOfRange
    else match ExcludedBefore(cfg.words[k].excludePrev, buf[..|buf| - n])
      case OutOfRange => OutOfRange
      case Ok(true) => Ok(Round(st.(procs := ResetAll(st.procs)), notInProgress))
      case Ok(false) =>
        var wordLen := i - q.startSymbol + 1;
        if !(0 <= |buf| - wordLen <= |buf| - n) then OutOfRange
        else
          var d := st.locals.detected.(beginning := buf[|buf| - wordLen..|buf| - n],
                                       word := buf[|buf| - n..],
                                       originalWord := cfg.words[k].searchedWord);
          Ok(Round(Scan(ResetAll(st.procs),
                        st.locals.(detected := d, chrBuf := buf[..|buf| - wordLen], ending := [], detectWord := true)),
                   true))
  }

  /**
   * `compareChar` of automaton `k` on the rune at `i`; an empty word is
   * indexed out of range.
   */
  function StepAt(cfg: Config, s: seq<char>, i: nat, p: ProcState, k: nat): (r: Outcome<ProcState>)
    requires i < |s| && k < |cfg.words| && VariantsNonEmpty(cfg.table)
    ensures |cfg.words[k].searchedWord| == 0 && p.skipCheckIteration == 0 ==> r == OutOfRange
    ensures r.Ok? ==> r.value.startSymbol == p.startSymbol
    ensures r.Ok? && p.lastActiveChar < |cfg.words[k].searchedWord| ==>
      r.value.lastActiveChar < |cfg.words[k].searchedWord| || r.value.status == Success
  {
    var w := cfg.words[k].searchedWord;
    if p.skipCheckIteration == 0 && p.lastActiveChar >= |w| then OutOfRange
    else
      EntriesOfWord(cfg.table, w);
      Step(p, w, cfg.table, cfg.letters, cfg.symbols, s[i], Lookahead(s, i))
  }

  /**
   * The pass over the automata from `k` on for the rune at `i`: each one
   * steps; the first success ends the pass; an automaton that starts an
   * attempt records the current word start.
   */
  function Candidates(cfg: Config, s: seq<char>, i: nat, st: Scan, k: nat, notInProgress: bool): (r: Outcome<Round>)
    requires i < |s| && k <= |cfg.words| == |st.procs|
    requires VariantsNonEmpty(cfg.table)
    ensures r.Ok? ==> |r.value.scan.procs| == |cfg.words|
    decreases |cfg.words| - k
  {
    if k == |cfg.words| then Ok(Round(st, notInProgress))
    else
      match StepAt(cfg, s, i, st.procs[k], k)
      case OutOfRange => OutOfRange
      case Ok(q) =>
        if q.status == Success then Detect(cfg, i, st.(procs := st.procs[k := q]), k, notInProgress)
        else if q.status == InProgress then
          var q1 := if q.symbolCounter == 1 then q.(startSymbol := st.locals.wordStartSymb) else q;
          Candidates(cfg, s, i, st.(procs := st.procs[k := q1]), k + 1, false)
        else Candidates(cfg, s, i, st.(procs := st.procs[k := q]), k + 1, notInProgress)
  }

  /** Past the last automaton the pass is over, with the state it reached. */
  lemma CandidatesAtEnd(cfg: Config, s: seq<char>, i: nat, st: Scan, nip: bool)
    requires i < |s| && |cfg.words| == |st.procs| && VariantsNonEmpty(cfg.table)
    ensures Candidates(cfg, s, i, st, |st.procs|, nip) == Ok(Round(st, nip))
  {
  }

  /**
   * The pass over the automata leaves the output and the detections made
   * so far alone; it changes the other locals only to record a hit on a
   * configured word.
   */
  lemma {:induction false} CandidatesKeepOutput(cfg: Config, s: seq<char>, i: nat, st: Scan, k: nat, nip: bool)
    requires i < |s| && k <= |cfg.words| == |st.procs| && VariantsNonEmpty(cfg.table)
    ensures var r := Candidates(cfg, s, i, st, k, nip);
      r.Ok? ==>
        r.value.scan.locals.calls == st.locals.calls && r.value.scan.locals.result == st.locals.result &&
        (r.value.scan.locals == st.locals || (r.value.scan.locals.detectWord && NamesAWord(cfg, r.value.scan.locals.detected)))
    decreases |cfg.words| - k
  {
    if k < |cfg.words| {
      match StepAt(cfg, s, i, st.procs[k], k)
      case OutOfRange =>
      case Ok(q) =>
        if q.status == InProgress {
          var q1 := if q.symbolCounter == 1 then q.(startSymbol := st.locals.wordStartSymb) else q;
          CandidatesKeepOutput(cfg, s, i, st.(procs := st.procs[k := q1]), k + 1, false);
        } else if q.status == Failed {
          CandidatesKeepOutput(cfg, s, i, st.(procs := st.procs[k := q]), k + 1, nip);
        }
    }
  }

  /**
   * After a success every automaton restarts, keeping only its start.
   * Unless the hit is excluded by its context, which changes nothing else, it
   * becomes the pending detection: the word's runes are cut from the end of
   * `chrBuf`, the runes since the word start that are not part of the hit
   * form its beginning, and the output is left alone until it is emitted.
   */
  lemma DetectCutsHit(cfg: Config, i: nat, st: Scan, k: nat, nip: bool)
    requires k < |cfg.words| == |st.procs|
    ensures var r := Detect(cfg, i, st, k, nip);
      r.Ok? ==>
        (forall j :: 0 <= j < |cfg.words| ==> r.value.scan.procs[j] == Initial.(startSymbol := st.procs[j].startSymbol)) &&
        ((r.value.scan.locals == st.locals && r.value.notInProgress == nip) ||
         (var l := r.value.scan.locals;
          l.detectWord && r.value.notInProgress && l.ending == [] &&
          l.detected.originalWord == cfg.words[k].searchedWord && |l.detected.word| == st.procs[k].symbolCounter &&
          l.chrBuf + l.detected.beginning + l.detected.word == st.locals.chrBuf &&
          l.result == st.locals.result && l.calls == st.locals.calls && l.wordStartSymb == st.locals.wordStartSymb))
  {
    var buf, n, q := st.locals.chrBuf, st.procs[k].symbolCounter, st.procs[k];
    var wordLen := i - q.startSymbol + 1;
    if n <= |buf| && 0 <= |buf| - wordLen <= |buf| - n {
      assert buf[..|buf| - wordLen] + buf[|buf| - wordLen..|buf| - n] + buf[|buf| - n..] == buf;
    }
  }

  /**
   * The pass keeps every automaton expecting a letter of its word: a step
   * that completes the word ends the pass with every automaton reset.
   */
  lemma {:induction false} CandidatesInRange(cfg: Config, s: seq<char>, i: nat, st: Scan, k: nat, nip: bool)
    requires i < |s| && k <= |cfg.words| == |st.procs| && VariantsNonEmpty(cfg.table)
    ensures var r := Candidates(cfg, s, i, st, k, nip);
      r.Ok? && WordsNonEmpty(cfg) && InRange(cfg, st.procs) ==> InRange(cfg, r.value.scan.procs)
    decreases |cfg.words| - k
  {
    if k < |cfg.words| && WordsNonEmpty(cfg) && InRange(cfg, st.procs) {
      match StepAt(cfg, s, i, st.procs[k], k)
      case OutOfRange =>
      case Ok(q) =>
        if q.status == InProgress {
          var q1 := if q.symbolCounter == 1 then q.(startSymbol := st.locals.wordStartSymb) else q;
          CandidatesInRange(cfg, s, i, st.(procs := st.procs[k := q1]), k + 1, false);
        } else if q.status == Failed {
          CandidatesInRange(cfg, s, i, st.(procs := st.procs[k := q]), k + 1, nip);
        }
    }
  }

  /** One rune keeps every automaton expecting a letter of its word. */
  lemma ScanRuneInRange(cfg: Config, s: seq<char>, i: nat, st: Scan, replace: DetectedWord -> seq<char>)
    requires i < |s| && |st.procs| == |cfg.words| && VariantsNonEmpty(cfg.table)
    requires WordsNonEmpty(cfg) && InRange(cfg, st.procs)
    ensures var r := ScanRune(cfg, s, i, st, replace);
      r.Ok? ==> InRange(cfg, r.value.procs)
  {
    var chr := s[i];
    var between := chr !in cfg.firstRunes && !IsLetter(chr);
    var l := st.locals;
    var l1 := if !between then l
              else if l.detectWord then Emit(l, replace).(wordStartSymb := i + 1)
              else l.(wordStartSymb := i + 1);
    CandidatesInRange(cfg, s, i, Scan(st.procs, l1.(chrBuf := l1.chrBuf + [chr])), 0, true);
  }

  /**
   * With every word non-empty, after any prefix of the input every automaton
   * still expects a letter of its word, so the guard of `StepAt` never
   * fires: the word is never indexed past its end.
   */
  lemma {:induction false} ScanPrefixInRange(cfg: Config, s: seq<char>, n: nat, replace: DetectedWord -> seq<char>)
    requires n <= |s| && VariantsNonEmpty(cfg.table) && WordsNonEmpty(cfg)
    ensures var r := ScanPrefix(cfg, s, n, replace);
      r.Ok? ==> InRange(cfg, r.value.procs)
  {
    if n > 0 {
      ScanPrefixInRange(cfg, s, n - 1, replace);
      match ScanPrefix(cfg, s, n - 1, replace)
      case OutOfRange =>
      case Ok(st) => ScanRuneInRange(cfg, s, n - 1, st, replace);
    }
  }

  /** One automaton's part of the pass, by the status its step returns. */
  lemma CandidatesUnfold(cfg: Config, s: seq<char>, i: nat, ps: seq<ProcState>, loc: Locals, k: nat, nip: bool, q: ProcState)
    requires i < |s| && k < |cfg.words| == |ps| && VariantsNonEmpty(cfg.table)
    requires StepAt(cfg, s, i, ps[k], k) == Ok(q)
    ensures q.status == Success ==>
      Candidates(cfg, s, i, Scan(ps, loc), k, nip) == Detect(cfg, i, Scan(ps[k := q], loc), k, nip)
    ensures q.status == InProgress && q.symbolCounter == 1 ==>
      Candidates(cfg, s, i, Scan(ps, loc), k, nip)
      == Candidates(cfg, s, i, Scan(ps[k := q.(startSymbol := loc.wordStartSymb)], loc), k + 1, false)
    ensures q.status == InProgress && q.symbolCounter != 1 ==>
      Candidates(cfg, s, i, Scan(ps, loc), k, nip) == Candidates(cfg, s, i, Scan(ps[k := q], loc), k + 1, false)
    ensures q.status == Failed ==>
      Candidates(cfg, s, i, Scan(ps, loc), k, nip) == Candidates(cfg, s, i, Scan(ps[k := q], loc), k + 1, nip)
  {
  }

  /**
   * One rune of `FilterWords`. A rune that is not a letter and cannot start
   * a word is a position between words: it emits the pending detection and
   * the next word starts after it. While a detection is pending, runes
   * collect as its ending; otherwise they go to `chrBuf` and the automata
   * step, and `chrBuf` is flushed at a position between words when no
   * automaton is in progress.
   */
  function ScanRune(cfg: Config, s: seq<char>, i: nat, st: Scan, replace: DetectedWord -> seq<char>): (r: Outcome<Scan>)
    requires i < |s| && |st.procs| == |cfg.words|
    requires VariantsNonEmpty(cfg.table)
    ensures r.Ok? ==> |r.value.procs| == |cfg.words|
  {
    var chr := s[i];
    var between := chr !in cfg.firstRunes && !IsLetter(chr);
    var l := st.locals;
    var l1 := if !between then l
              else if l.detectWord then Emit(l, replace).(wordStartSymb := i + 1)
              else l.(wordStartSymb := i + 1);
    if l1.detectWord then Ok(Scan(st.procs, l1.(ending := l1.ending + [chr])))
    else match Candidates(cfg, s, i, Scan(st.procs, l1.(chrBuf := l1.chrBuf + [chr])), 0, true)
      case OutOfRange => OutOfRange
      case Ok(round) =>
        var l2 := round.scan.locals;
        if round.notInProgress && between then Ok(round.scan.(locals := l2.(result := l2.result + l2.chrBuf, chrBuf := [])))
        else Ok(round.scan)
  }

  /** The automata and locals as `FilterWords` sets them up. */
  function InitialScan(cfg: Config): Scan {
    Scan(seq(|cfg.words|, _ => Initial), Locals([], [], 0, false, DetectedWord([], [], [], []), [], []))
  }

  /** The state after the first `n` runes. */
  function ScanPrefix(cfg: Config, s: seq<char>, n: nat, replace: DetectedWord -> seq<char>): (r: Outcome<Scan>)
    requires n <= |s| && VariantsNonEmpty(cfg.table)
    ensures r.Ok? ==> |r.value.procs| == |cfg.words|
  {
    if n == 0 then Ok(InitialScan(cfg))
    else match ScanPrefix(cfg, s, n - 1, replace)
      case OutOfRange => OutOfRange
      case Ok(st) => ScanRune(cfg, s, n - 1, st, replace)
  }

  /** After the last rune: flush `chrBuf`, then emit a pending detection. */
  function Finish(l: Locals, replace: DetectedWord -> seq<char>): (r: Filtered)
    ensures |r.calls| == |l.calls| + (if l.detectWord then 1 else 0) && r.calls[..|l.calls|] == l.calls
    ensures |r.text| >= |l.result| + |l.chrBuf| && r.text[..|l.result| + |l.chrBuf|] == l.result + l.chrBuf
    ensures !l.detectWord ==> r.text == l.result + l.chrBuf
  {
    var l1 := l.(result := l.result + l.chrBuf);
    var l2 := if l1.detectWord then Emit(l1, replace) else l1;
    Filtered(l2.result, l2.calls)
  }

  /** `FilterWords`: without words the input comes back as it is. */
  function Filter(cfg: Config, s: seq<char>, replace: DetectedWord -> seq<char>): Outcome<Filtered>
    requires VariantsNonEmpty(cfg.table)
  {
    if |cfg.words| == 0 then Ok(Filtered(s, []))
    else match ScanPrefix(cfg, s, |s|, replace)
      case OutOfRange => OutOfRange
      case Ok(st) => Ok(Finish(st.locals, replace))
  }

  // ---------------------------------------------------------------------------
  // Properties of the scan
  // ---------------------------------------------------------------------------

  /** A filter without words returns its input and never calls back. */
  lemma NoWordsKeepsText(cfg: Config, s: seq<char>, replace: DetectedWord -> seq<char>)
    requires VariantsNonEmpty(cfg.table) && cfg.words == []
    ensures Filter(cfg, s, replace) == Ok(Filtered(s, []))
  {
  }

  /** Once the scan has read past the end of its input, it has for every longer prefix too. */
  lemma {:induction false} OutOfRangePersists(cfg: Config, s: seq<char>, n: nat, m: nat, replace: DetectedWord -> seq<char>)
    requires n <= m <= |s| && VariantsNonEmpty(cfg.table)
    requires ScanPrefix(cfg, s, n, replace) == OutOfRange
    ensures ScanPrefix(cfg, s, m, replace) == OutOfRange
    decreases m - n
  {
    if n < m {
      OutOfRangePersists(cfg, s, n + 1, m, replace);
    }
  }

  /** The scan keeps what it has put out; detections are only ever added. */
  predicate Keeps(before: Locals, after: Locals) {
    |before.calls| <= |after.calls| && after.calls[..|before.calls|] == before.calls
  }

  /**
   * The invariant of one rune: while nothing was detected, `result` and
   * `chrBuf` together hold the runes read so far; every detection names a
   * configured word.
   */
  lemma {:induction false} ScanRuneInvariant(cfg: Config, s: seq<char>, i: nat, st: Scan, replace: DetectedWord -> seq<char>)
    requires i < |s| && |st.procs| == |cfg.words| && VariantsNonEmpty(cfg.table)
    requires st.locals.detectWord ==> NamesAWord(cfg, st.locals.detected)
    ensures var r := ScanRune(cfg, s, i, st, replace);
      r.Ok? ==>
        Keeps(st.locals, r.value.locals) &&
        (r.value.locals.detectWord ==> NamesAWord(cfg, r.value.locals.detected)) &&
        (forall j :: |st.locals.calls| <= j < |r.value.locals.calls| ==> NamesAWord(cfg, r.value.locals.calls[j])) &&
        (r.value.locals.calls == [] && !r.value.locals.detectWord ==>
           !st.locals.detectWord &&
           r.value.locals.result + r.value.locals.chrBuf == st.locals.result + st.locals.chrBuf + [s[i]])
  {
    var chr := s[i];
    var between := chr !in cfg.firstRunes && !IsLetter(chr);
    var l := st.locals;
    var l1 := if !between then l
              else if l.detectWord then Emit(l, replace).(wordStartSymb := i + 1)
              else l.(wordStartSymb := i + 1);
    assert l.detectWord && between ==> l1.calls == l.calls + [l.detected.(ending := l.ending)];
    if !l1.detectWord {
      RoundKeeps(cfg, s, i, st.procs, l1);
    }
  }

  /** The pass at a rune read while nothing is detected keeps the calls and, without a hit, the locals. */
  lemma RoundKeeps(cfg: Config, s: seq<char>, i: nat, procs: seq<ProcState>, l: Locals)
    requires i < |s| && |procs| == |cfg.words| && VariantsNonEmpty(cfg.table) && !l.detectWord
    ensures var r := Candidates(cfg, s, i, Scan(procs, l.(chrBuf := l.chrBuf + [s[i]])), 0, true);
      r.Ok? ==>
        r.value.scan.locals.calls == l.calls &&
        (r.value.scan.locals.detectWord ==> NamesAWord(cfg, r.value.scan.locals.detected)) &&
        (!r.value.scan.locals.detectWord ==> r.value.scan.locals == l.(chrBuf := l.chrBuf + [s[i]]))
  {
    CandidatesKeepOutput(cfg, s, i, Scan(procs, l.(chrBuf := l.chrBuf + [s[i]])), 0, true);
  }

  /** Calls kept from before and calls added since, each naming a configured word. */
  lemma KeptCallsNameWords(cfg: Config, before: seq<DetectedWord>, after: seq<DetectedWord>)
    requires |before| <= |after| && after[..|before|] == before
    requires forall j :: 0 <= j < |before| ==> NamesAWord(cfg, before[j])
    requires forall j :: |before| <= j < |after| ==> NamesAWord(cfg, after[j])
    ensures forall j :: 0 <= j < |after| ==> NamesAWord(cfg, after[j])
  {
    forall j | 0 <= j < |before| ensures NamesAWord(cfg, after[j]) {
      assert after[j] == after[..|before|][j];
    }
  }

  /** The invariant over a prefix of the input. */
  lemma {:induction false} ScanPrefixInvariant(cfg: Config, s: seq<char>, n: nat, replace: DetectedWord -> seq<char>)
    requires n <= |s| && VariantsNonEmpty(cfg.table)
    ensures var r := ScanPrefix(cfg, s, n, replace);
      r.Ok? ==>
        (r.value.locals.detectWord ==> NamesAWord(cfg, r.value.locals.detected)) &&
        (forall j :: 0 <= j < |r.value.locals.calls| ==> NamesAWord(cfg, r.value.locals.calls[j])) &&
        (r.value.locals.calls == [] && !r.value.locals.detectWord ==> r.value.locals.result + r.value.locals.chrBuf == s[..n])
  {
    if n > 0 {
      ScanPrefixInvariant(cfg, s, n - 1, replace);
      var prev := ScanPrefix(cfg, s, n - 1, replace);
      if prev.Ok? {
        var st := prev.value;
        ScanRuneInvariant(cfg, s, n - 1, st, replace);
        var r := ScanRune(cfg, s, n - 1, st, replace);
        assert ScanPrefix(cfg, s, n, replace) == r;
        if r.Ok? {
          var st2 := r.value;
          KeptCallsNameWords(cfg, st.locals.calls, st2.locals.calls);
          if st2.locals.calls == [] && !st2.locals.detectWord {
            assert s[..n] == s[..n - 1] + [s[n - 1]];
          }
        }
      }
    }
  }

  /** When the callback is never called, the output is the input. */
  lemma NothingDetectedKeepsText(cfg: Config, s: seq<char>, replace: DetectedWord -> seq<char>)
    requires VariantsNonEmpty(cfg.table)
    requires Filter(cfg, s, replace).Ok? && Filter(cfg, s, replace).value.calls == []
    ensures Filter(cfg, s, replace).value.text == s
  {
    if |cfg.words| > 0 {
      ScanPrefixInvariant(cfg, s, |s|, replace);
      assert s[..|s|] == s;
    }
  }

  /** Every `DetectedWord` handed to the callback carries one of the configured words as its `OriginalWord`. */
  lemma DetectionsNameConfiguredWords(cfg: Config, s: seq<char>, replace: DetectedWord -> seq<char>)
    requires VariantsNonEmpty(cfg.table) && Filter(cfg, s, replace).Ok?
    ensures forall j :: 0 <= j < |Filter(cfg, s, replace).value.calls| ==> NamesAWord(cfg, Filter(cfg, s, replace).value.calls[j])
  {
    if |cfg.words| > 0 {
      ScanPrefixInvariant(cfg, s, |s|, replace);
    }
  }

  // ---------------------------------------------------------------------------
  // Worked examples
  // ---------------------------------------------------------------------------

  /** The callback that masks every detection. */
  function Mask(d: DetectedWord): seq<char> {
    "***"
  }

  /** No detection yet: the zero `DetectedWord`. */
  const NoDetection: DetectedWord := DetectedWord([], [], [], [])

  /** One rune of a single-word configuration whose automaton does not succeed on it. */
  lemma SoleRune(cfg: Config, s: seq<char>, i: nat, st: Scan, q: ProcState)
    requires i < |s| && |cfg.words| == 1 == |st.procs| && VariantsNonEmpty(cfg.table)
    requires !st.locals.detectWord
    requires st.procs[0].skipCheckIteration == 0 ==> st.procs[0].lastActiveChar < |cfg.words[0].searchedWord|
    requires Step(st.procs[0], cfg.words[0].searchedWord, cfg.table, cfg.letters, cfg.symbols, s[i], Lookahead(s, i)) == Ok(q)
    requires q.status != Success
    ensures var between := s[i] !in cfg.firstRunes && !IsLetter(s[i]);
      var l := st.locals.(chrBuf := st.locals.chrBuf + [s[i]], wordStartSymb := if between then i + 1 else st.locals.wordStartSymb);
      var q1 := if q.status == InProgress && q.symbolCounter == 1 then q.(startSymbol := l.wordStartSymb) else q;
      ScanRune(cfg, s, i, st, Mask)
      == Ok(Scan([q1], if between && q.status == Failed then l.(result := l.result + l.chrBuf, chrBuf := []) else l))
  {
    var between := s[i] !in cfg.firstRunes && !IsLetter(s[i]);
    var l := st.locals.(chrBuf := st.locals.chrBuf + [s[i]], wordStartSymb := if between then i + 1 else st.locals.wordStartSymb);
    var q1 := if q.status == InProgress && q.symbolCounter == 1 then q.(startSymbol := l.wordStartSymb) else q;
    assert StepAt(cfg, s, i, st.procs[0], 0) == Ok(q);
    assert st.procs[0 := q1] == [q1];
    assert Candidates(cfg, s, i, Scan(st.procs, l), 0, true) == Ok(Round(Scan([q1], l), q.status == Failed));
  }

  /** The configuration of the scenario below: the one word "abc", no contexts, the default budgets. */
  const Example := Config([PreparedWord([], "abc")], map[], 1, 3, {})

  /** Before the word: "x" starts nothing, and the space flushes "x ". */
  lemma ScansBeforeWord(cfg: Config, s: seq<char>)
    requires cfg == Example && s == "x abc."
    ensures ScanPrefix(cfg, s, 2, Mask) == Ok(Scan([Initial.(status := Failed)], Locals([], "x ", 2, false, NoDetection, [], [])))
  {
    var w := "abc";
    var failed := Initial.(status := Failed);
    var l0 := Locals([], [], 0, false, NoDetection, [], []);
    assert InitialScan(cfg) == Scan([Initial], l0);
    StepFirstRuneMismatchFails(Initial, w, map[], 1, 3, 'x', Lookahead(s, 0), 0);
    SoleRune(cfg, s, 0, Scan([Initial], l0), failed);
    assert [] + ['x'] == "x";
    assert ScanPrefix(cfg, s, 1, Mask) == Ok(Scan([failed], l0.(chrBuf := "x")));
    StepFirstRuneMismatchFails(failed, w, map[], 1, 3, ' ', Lookahead(s, 1), 0);
    SoleRune(cfg, s, 1, Scan([failed], l0.(chrBuf := "x")), failed);
    assert [] + ("x" + [' ']) == "x ";
  }

  /** "a" starts an attempt at 2. */
  lemma ScansFirstLetter(cfg: Config, s: seq<char>)
    requires cfg == Example && s == "x abc."
    ensures ScanPrefix(cfg, s, 3, Mask)
         == Ok(Scan([ProcState(1, 0, 1, 0, 0, 2, InProgress)], Locals("a", "x ", 2, false, NoDetection, [], [])))
  {
    var l2 := Locals([], "x ", 2, false, NoDetection, [], []);
    ScansBeforeWord(cfg, s);
    StepOnMatch(Initial.(status := Failed), "abc", map[], 1, 3, 'a', Lookahead(s, 2), 0);
    SoleRune(cfg, s, 2, Scan([Initial.(status := Failed)], l2), ProcState(1, 0, 1, 0, 0, 0, InProgress));
    assert [] + ['a'] == "a";
  }

  /** "b" advances the attempt. */
  lemma ScansUpToWord(cfg: Config, s: seq<char>)
    requires cfg == Example && s == "x abc."
    ensures ScanPrefix(cfg, s, 4, Mask)
         == Ok(Scan([ProcState(2, 0, 2, 0, 0, 2, InProgress)], Locals("ab", "x ", 2, false, NoDetection, [], [])))
  {
    var p3 := ProcState(1, 0, 1, 0, 0, 2, InProgress);
    ScansFirstLetter(cfg, s);
    StepOnMatch(p3, "abc", map[], 1, 3, 'b', Lookahead(s, 3), 0);
    SoleRune(cfg, s, 3, Scan([p3], Locals("a", "x ", 2, false, NoDetection, [], [])), ProcState(2, 0, 2, 0, 0, 2, InProgress));
    assert "a" + ['b'] == "ab";
  }

  /** "c" completes the word: "abc" leaves `chrBuf` and becomes the pending detection. */
  lemma ScansWord(cfg: Config, s: seq<char>)
    requires cfg == Example && s == "x abc."
    ensures ScanPrefix(cfg, s, 5, Mask)
         == Ok(Scan([Initial.(startSymbol := 2)], Locals([], "x ", 2, true, DetectedWord("abc", "", "abc", []), [], [])))
  {
    var l2 := Locals([], "x ", 2, false, NoDetection, [], []);
    var p4 := ProcState(2, 0, 2, 0, 0, 2, InProgress);
    var p5 := ProcState(3, 0, 3, 0, 0, 2, Success);
    ScansUpToWord(cfg, s);
    StepOnMatch(p4, "abc", map[], 1, 3, 'c', Lookahead(s, 4), 0);
    assert StepAt(cfg, s, 4, p4, 0) == Ok(p5);
    assert "ab" + ['c'] == "abc" && [p4][0 := p5] == [p5];
    assert Candidates(cfg, s, 4, Scan([p4], l2.(chrBuf := "abc")), 0, true)
        == Detect(cfg, 4, Scan([p5], l2.(chrBuf := "abc")), 0, true);
    assert ExcludedBefore([], "") == Ok(false);
    assert "abc"[..0] == "" && "abc"[0..0] == "" && "abc"[0..] == "abc";
    assert ResetAll([p5]) == [Initial.(startSymbol := 2)];
  }

  /** At the punctuation mark the single automaton, reset after the hit, fails. */
  lemma FailsAtPunctuation(cfg: Config, s: seq<char>, l: Locals)
    requires cfg == Example && s == "x abc."
    ensures Candidates(cfg, s, 5, Scan([Initial.(startSymbol := 2)], l), 0, true)
         == Ok(Round(Scan([Initial.(startSymbol := 2, status := Failed)], l), true))
  {
    var reset := Initial.(startSymbol := 2);
    var failed := reset.(status := Failed);
    StepFirstRuneMismatchFails(reset, "abc", map[], 1, 3, '.', Lookahead(s, 5), 0);
    assert StepAt(cfg, s, 5, reset, 0) == Ok(failed);
    assert [reset][0 := failed] == [failed];
  }

  /** The punctuation mark emits the detection, then fails the automaton and is flushed. */
  lemma ScansPunctuation(cfg: Config, s: seq<char>)
    requires cfg == Example && s == "x abc."
    ensures ScanPrefix(cfg, s, 6, Mask)
         == Ok(Scan([Initial.(startSymbol := 2, status := Failed)],
                    Locals([], "x ***.", 6, false, DetectedWord("abc", "", "abc", []), [], [DetectedWord("abc", "", "abc", [])])))
  {
    var d := DetectedWord("abc", "", "abc", []);
    var l6 := Locals(".", "x ***", 6, false, d, [], [d]);
    ScansWord(cfg, s);
    EmitsAtPunctuation();
    FailsAtPunctuation(cfg, s, l6);
    assert [] + ['.'] == "." && "x ***" + "." == "x ***.";
  }

  lemma EmitsAtPunctuation()
    ensures var d := DetectedWord("abc", "", "abc", []);
      Emit(Locals([], "x ", 2, true, d, [], []), Mask) == Locals([], "x ***", 2, false, d, [], [d])
  {
    var d := DetectedWord("abc", "", "abc", []);
    assert "x " + "***" == "x ***" && [] + [d] == [d];
  }

  /**
   * A word followed by a punctuation mark is replaced; the mark emits the
   * detection, whose beginning and ending are empty, and is then flushed.
   */
  lemma MasksWordBeforePunctuation(cfg: Config, s: seq<char>)
    requires cfg == Example && s == "x abc."
    ensures Filter(cfg, s, Mask) == Ok(Filtered("x ***.", [DetectedWord("abc", "", "abc", "")]))
  {
    ScansPunctuation(cfg, s);
    assert "x ***." + [] == "x ***.";
  }

  /** An empty word is indexed at its first letter by the first rune that reaches the automata. */
  lemma EmptyWordPanics(cfg: Config, s: seq<char>)
    requires cfg == Config([PreparedWord([], "")], map[], 1, 3, {}) && s == "a"
    ensures Filter(cfg, s, Mask) == OutOfRange
  {
    var l0 := Locals([], [], 0, false, NoDetection, [], []);
    assert InitialScan(cfg) == Scan([Initial], l0);
    assert StepAt(cfg, s, 0, Initial, 0) == OutOfRange;
    assert Candidates(cfg, s, 0, Scan([Initial], l0.(chrBuf := "a")), 0, true) == OutOfRange;
    assert ScanRune(cfg, s, 0, InitialScan(cfg), Mask) == OutOfRange;
  }

  /** Before the one-letter word: "x" starts nothing, and the space flushes "x ". */
  lemma ScansBeforeLetter(cfg: Config, s: seq<char>)
    requires cfg == Config([PreparedWord([], "a")], map[], 1, 3, {}) && s == "x a"
    ensures ScanPrefix(cfg, s, 2, Mask) == Ok(Scan([Initial.(status := Failed)], Locals([], "x ", 2, false, NoDetection, [], [])))
  {
    var failed := Initial.(status := Failed);
    var l0 := Locals([], [], 0, false, NoDetection, [], []);
    assert InitialScan(cfg) == Scan([Initial], l0);
    StepFirstRuneMismatchFails(Initial, "a", map[], 1, 3, 'x', Lookahead(s, 0), 0);
    SoleRune(cfg, s, 0, Scan([Initial], l0), failed);
    assert [] + ['x'] == "x";
    assert ScanPrefix(cfg, s, 1, Mask) == Ok(Scan([failed], l0.(chrBuf := "x")));
    StepFirstRuneMismatchFails(failed, "a", map[], 1, 3, ' ', Lookahead(s, 1), 0);
    SoleRune(cfg, s, 1, Scan([failed], l0.(chrBuf := "x")), failed);
    assert [] + ("x" + [' ']) == "x ";
  }

  /**
   * A one-letter word succeeds without ever being in progress, so its
   * `startSymbol` is never set: after a flush the hit's beginning is
   * sliced from before the start of `chrBuf`.
   */
  lemma OneLetterWordPanics(cfg: Config, s: seq<char>)
    requires cfg == Config([PreparedWord([], "a")], map[], 1, 3, {}) && s == "x a"
    ensures Filter(cfg, s, Mask) == OutOfRange
  {
    ScansBeforeLetter(cfg, s);
    OneLetterHitPanics(cfg, s);
  }

  /** The pass at the letter of the example above: the hit is sliced from before `chrBuf`. */
  lemma OneLetterHitPanics(cfg: Config, s: seq<char>)
    requires cfg == Config([PreparedWord([], "a")], map[], 1, 3, {}) && s == "x a"
    ensures Candidates(cfg, s, 2, Scan([Initial.(status := Failed)], Locals("a", "x ", 2, false, NoDetection, [], [])), 0, true)
         == OutOfRange
  {
    var failed := Initial.(status := Failed);
    var hit := ProcState(1, 0, 1, 0, 0, 0, Success);
    StepOnMatch(failed, "a", map[], 1, 3, 'a', Lookahead(s, 2), 0);
    assert StepAt(cfg, s, 2, failed, 0) == Ok(hit);
    assert [failed][0 := hit] == [hit];
    assert ExcludedBefore([], "") == Ok(false);
  }

  /**
   * A word that starts with a rune that is not a letter and has no entry
   * in the table: that rune is a position between words, so the word
   * starts after it and the hit is longer than the runes since the start.
   */
  lemma NonLetterStartPanics(cfg: Config, s: seq<char>)
    requires cfg == Config([PreparedWord([], "-b")], map[], 1, 3, {}) && s == "-b"
    ensures Filter(cfg, s, Mask) == OutOfRange
  {
    var l0 := Locals([], [], 0, false, NoDetection, [], []);
    assert InitialScan(cfg) == Scan([Initial], l0);
    var started := ProcState(1, 0, 1, 0, 0, 0, InProgress);
    StepOnMatch(Initial, "-b", map[], 1, 3, '-', Lookahead(s, 0), 0);
    SoleRune(cfg, s, 0, Scan([Initial], l0), started);
    assert [] + ['-'] == "-";
    var l1 := Locals("-", [], 1, false, NoDetection, [], []);
    var p1 := started.(startSymbol := 1);
    assert ScanPrefix(cfg, s, 1, Mask) == Ok(Scan([p1], l1));
    var hit := ProcState(2, 0, 2, 0, 0, 1, Success);
    StepOnMatch(p1, "-b", map[], 1, 3, 'b', Lookahead(s, 1), 0);
    assert StepAt(cfg, s, 1, p1, 0) == Ok(hit);
    assert "-" + ['b'] == "-b" && [p1][0 := hit] == [hit];
    assert ExcludedBefore([], "") == Ok(false);
    assert Candidates(cfg, s, 1, Scan([p1], l1.(chrBuf := "-b")), 0, true) == OutOfRange;
  }

  // ---------------------------------------------------------------------------
  // The filter object
  // ---------------------------------------------------------------------------

  /** `preparedWord` built from a `UserWord` by `AddWords`: the contexts are kept in the given order. */
  function Prepare(u: UserWord): PreparedWord {
    PreparedWord(u.excludedPrev, u.word)
  }

  /** The searched words of a list of prepared words. */
  function SearchedWords(ws: seq<PreparedWord>): (r: seq<seq<char>>)
    ensures |r| == |ws| && forall k :: 0 <= k < |ws| ==> r[k] == ws[k].searchedWord
  {
    seq(|ws|, k requires 0 <= k < |ws| => ws[k].searchedWord)
  }

  class WordFilter {
    const options: Options.Options
    var words: seq<PreparedWord>
    const charsComparer: CharsComparer
    var wordsFirstChrsMap: set<char>
    /** `wordsFirstChrsMap` is the nil map left by `ResetWords`, which reads as empty and panics when written. */
    var firstChrsMapIsNil: bool

    /** What `FilterWords` reads. */
    function Configuration(): Config
      reads this, options, charsComparer
    {
      Config(words, charsComparer.charsMap, options.lettersBetweenKeyLetters,
             options.symbolsBetweenKeyLetters, wordsFirstChrsMap)
    }

    /** `NewWordFilter`: default options updated by `optionFuncs` in order, a matcher built from `charsMap`, no words. */
    constructor NewWordFilter(charsMap: map<string, seq<string>>, optionFuncs: seq<Options.OptionFunc>)
      requires ConvertibleMap(charsMap)
      ensures fresh(options) && fresh(charsComparer)
      ensures options.lettersBetweenKeyLetters == Options.LettersAfter(optionFuncs, Options.DefaultLettersBetweenKeyLetters)
      ensures options.symbolsBetweenKeyLetters == Options.SymbolsAfter(optionFuncs, Options.DefaultSymbolsBetweenKeyLetters)
      ensures charsComparer.charsMap == ConvertCompareChars(charsMap)
      ensures words == [] && wordsFirstChrsMap == {} && !firstChrsMapIsNil
    {
      var opts := new Options.Options.GetDefaultOptions();
      opts.ApplyAll(optionFuncs);
      var cc := new CharsComparer(charsMap);
      options := opts;
      charsComparer := cc;
      words := [];
      wordsFirstChrsMap := {};
      firstChrsMapIsNil := false;
    }

    /** `ResetWords`: forgets every word; the first-rune map becomes nil. */
    method ResetWords()
      modifies this
      ensures words == [] && wordsFirstChrsMap == {} && firstChrsMapIsNil
    {
      words := [];
      wordsFirstChrsMap := {};
      firstChrsMapIsNil := true;
    }

    /**
     * `AddWords`: appends the words with their contexts unsorted and adds the
     * runes that may start them. Writing into the nil map left by
     * `ResetWords` panics, so after a reset only words that add no rune are accepted.
     */
    method AddWords(userWords: seq<UserWord>)
      requires !firstChrsMapIsNil ||
               WordsPossibleFirstRunes(charsComparer.charsMap, SearchedWords(seq(|userWords|, k requires 0 <= k < |userWords| => Prepare(userWords[k])))) == {}
      modifies this
      ensures words == old(words) + seq(|userWords|, k requires 0 <= k < |userWords| => Prepare(userWords[k]))
      ensures wordsFirstChrsMap == old(wordsFirstChrsMap) + WordsPossibleFirstRunes(charsComparer.charsMap, SearchedWords(words[|old(words)|..]))
      ensures firstChrsMapIsNil == old(firstChrsMapIsNil)
    {
      var wordsSlice: seq<PreparedWord> := [];
      var i := 0;
      while i < |userWords|
        invariant 0 <= i <= |userWords|
        invariant wordsSlice == seq(i, k requires 0 <= k < i => Prepare(userWords[k]))
      {
        wordsSlice := wordsSlice + [PreparedWord(userWords[i].excludedPrev, userWords[i].word)];
        i := i + 1;
      }
      words := words + wordsSlice;
      assert words[|old(words)|..] == wordsSlice;
      wordsFirstChrsMap := charsComparer.FillLettersPossibleChars(SearchedWords(wordsSlice), wordsFirstChrsMap);
    }

    /** `AddWord`: the word and its contexts, handed to `addWord`. */
    method AddWord(word: seq<char>, excludedPrev: seq<seq<char>>)
      requires |word| > 0
      requires !firstChrsMapIsNil || PossibleFirstRunes(charsComparer.charsMap, word[0]) == {}
      modifies this
      ensures words == old(words) + [PreparedWord(LengthSort.SortStable(excludedPrev, true), word)]
      ensures wordsFirstChrsMap == old(wordsFirstChrsMap) + PossibleFirstRunes(charsComparer.charsMap, word[0])
      ensures firstChrsMapIsNil == old(firstChrsMapIsNil)
    {
      AddPreparedWord(word, excludedPrev);
    }

    /**
     * `addWord`: sorts the contexts longest first, keeping the order of
     * contexts of equal length, and adds the runes that may start the word.
     */
    method AddPreparedWord(searchedWord: seq<char>, excludedPrev: seq<seq<char>>)
      requires |searchedWord| > 0
      requires !firstChrsMapIsNil || PossibleFirstRunes(charsComparer.charsMap, searchedWord[0]) == {}
      modifies this
      ensures words == old(words) + [PreparedWord(LengthSort.SortStable(excludedPrev, true), searchedWord)]
      ensures wordsFirstChrsMap == old(wordsFirstChrsMap) + PossibleFirstRunes(charsComparer.charsMap, searchedWord[0])
      ensures firstChrsMapIsNil == old(firstChrsMapIsNil)
    {
      var sorted := LengthSort.SortStable(excludedPrev, true);
      words := words + [PreparedWord(sorted, searchedWord)];
      wordsFirstChrsMap := charsComparer.FillLetterPossibleChars(searchedWord[0], wordsFirstChrsMap);
    }
  
    /** The automata of `FilterWords`: one distinct object per word, in order, with the given states. */
    predicate Pool(procs: seq<WordProcessor>, ps: seq<ProcState>)
      reads this, set j | 0 <= j < |procs| :: procs[j]
    {
      |procs| == |words| == |ps| &&
      (forall a, b :: 0 <= a < b < |procs| ==> procs[a] != procs[b]) &&
      forall j :: 0 <= j < |procs| ==>
        procs[j].State() == ps[j] && procs[j].word == words[j] && procs[j].options == options
    }

    /**
     * The success branch of the inner loop of `FilterWords` for automaton
     * `k`, following `Detect`.
     */
    method DetectHit(procs: seq<WordProcessor>, i: nat, k: nat, loc: Locals, nip: bool,
                     ghost cfg: Config, ghost ps: seq<ProcState>)
      returns (r: Outcome<Progress>, ghost after: seq<ProcState>)
      requires k < |procs| && Pool(procs, ps) && cfg == Configuration()
      modifies set j | 0 <= j < |procs| :: procs[j]
      ensures Pool(procs, after)
      ensures var expected := Detect(cfg, i, Scan(ps, loc), k, nip);
        (r.OutOfRange? <==> expected.OutOfRange?) &&
        (r.Ok? ==> expected == Ok(Round(Scan(after, r.value.locals), r.value.notInProgress)))
    {
      var p := procs[k];
      var buf := loc.chrBuf;
      var n := p.symbolCounter;
      if n > |buf| {
        return OutOfRange, ps;
      }
      var excluded := p.CompareWithExcludePrev(buf[..|buf| - n]);
      if excluded.OutOfRange? {
        return OutOfRange, ps;
      }
      var l, nip' := loc, nip;
      if !excluded.value {
        var wordLen := i - p.startSymbol + 1;
        if !(0 <= |buf| - wordLen <= |buf| - n) {
          return OutOfRange, ps;
        }
        var d := loc.detected.(beginning := buf[|buf| - wordLen..|buf| - n],
                               word := buf[|buf| - n..],
                               originalWord := p.word.searchedWord);
        l := loc.(detected := d, chrBuf := buf[..|buf| - wordLen], ending := [], detectWord := true);
        nip' := true;
      }
      ResetAllWords(procs);
      after := ResetAll(ps);
      return Ok(Progress(l, nip')), after;
    }

    /** `compareChar` of automaton `k`, following `StepAt`. */
    method CompareOne(procs: seq<WordProcessor>, s: seq<char>, i: nat, k: nat, ghost cfg: Config, ghost ps: seq<ProcState>)
      returns (r: Outcome<Status>, ghost after: seq<ProcState>)
      requires i < |s| && k < |procs| && VariantsNonEmpty(charsComparer.charsMap)
      requires Pool(procs, ps) && cfg == Configuration()
      modifies procs[k]
      ensures Pool(procs, after)
      ensures var expected := StepAt(cfg, s, i, ps[k], k);
        (r.OutOfRange? <==> expected.OutOfRange?) &&
        (r.Ok? ==> expected == Ok(after[k]) && after == ps[k := after[k]] && r.value == after[k].status)
    {
      var p := procs[k];
      if p.skipCheckIteration == 0 && p.lastActiveChar >= |p.word.searchedWord| {
        return OutOfRange, ps;
      }
      EntriesOfWord(charsComparer.charsMap, p.word.searchedWord);
      r := p.CompareChar(s[i], charsComparer, Lookahead(s, i));
      after := ps[k := p.State()];
      forall j | 0 <= j < |procs| && j != k ensures procs[j].State() == after[j] {
        assert procs[j] != p;
      }
    }

    /** Records the word start in automaton `k`, which has just begun an attempt. */
    method MarkStart(procs: seq<WordProcessor>, k: nat, start: int, ghost ps: seq<ProcState>)
      returns (ghost after: seq<ProcState>)
      requires k < |procs| && Pool(procs, ps)
      modifies procs[k]
      ensures Pool(procs, after) && after == ps[k := ps[k].(startSymbol := start)]
    {
      procs[k].startSymbol := start;
      after := ps[k := ps[k].(startSymbol := start)];
      forall j | 0 <= j < |procs| && j != k ensures procs[j].State() == after[j] {
        assert procs[j] != procs[k];
      }
    }

    /**
     * One iteration of the inner loop of `FilterWords`: automaton `k` steps
     * and, when it begins an attempt, records the word start.
     */
    method AdvanceOne(procs: seq<WordProcessor>, s: seq<char>, i: nat, k: nat, loc: Locals, nip: bool,
                      ghost cfg: Config, ghost ps: seq<ProcState>)
      returns (r: Outcome<Status>, nip': bool, ghost after: seq<ProcState>)
      requires i < |s| && k < |procs| && VariantsNonEmpty(charsComparer.charsMap)
      requires Pool(procs, ps) && cfg == Configuration()
      modifies procs[k]
      ensures Pool(procs, after)
      ensures var expected := Candidates(cfg, s, i, Scan(ps, loc), k, nip);
        (r.OutOfRange? ==> expected.OutOfRange?) &&
        (r == Ok(Success) ==> expected == Detect(cfg, i, Scan(after, loc), k, nip)) &&
        (r.Ok? && r.value != Success ==> expected == Candidates(cfg, s, i, Scan(after, loc), k + 1, nip'))
    {
      nip' := nip;
      r, after := CompareOne(procs, s, i, k, cfg, ps);
      if r.Ok? {
        CandidatesUnfold(cfg, s, i, ps, loc, k, nip, after[k]);
        if r.value == InProgress && procs[k].symbolCounter == 1 {
          ghost var q := after[k];
          after := MarkStart(procs, k, loc.wordStartSymb, after);
          assert after == ps[k := q.(startSymbol := loc.wordStartSymb)];
        }
        if r.value == InProgress {
          nip' := false;
        }
      }
    }

    /** The inner loop of `FilterWords` for the rune at `i`, following `Candidates`. */
    method CompareAll(procs: seq<WordProcessor>, s: seq<char>, i: nat, loc: Locals, ghost cfg: Config, ghost ps: seq<ProcState>)
      returns (r: Outcome<Progress>, ghost after: seq<ProcState>)
      requires i < |s| && VariantsNonEmpty(charsComparer.charsMap)
      requires Pool(procs, ps) && cfg == Configuration()
      modifies set j | 0 <= j < |procs| :: procs[j]
      ensures Pool(procs, after)
      ensures var expected := Candidates(cfg, s, i, Scan(ps, loc), 0, true);
        (r.OutOfRange? <==> expected.OutOfRange?) &&
        (r.Ok? ==> expected == Ok(Round(Scan(after, r.value.locals), r.value.notInProgress)))
    {
      var nip := true;
      after := ps;
      var k := 0;
      while k < |procs|
        invariant 0 <= k <= |procs|
        invariant Pool(procs, after)
        invariant cfg == Configuration()
        invariant Candidates(cfg, s, i, Scan(after, loc), k, nip) == Candidates(cfg, s, i, Scan(ps, loc), 0, true)
      {
        var status, nip';
        status, nip', after := AdvanceOne(procs, s, i, k, loc, nip, cfg, after);
        if status.OutOfRange? {
          return OutOfRange, after;
        } else if status.value == Success {
          r, after := DetectHit(procs, i, k, loc, nip, cfg, after);
          return;
        }
        nip := nip';
        k := k + 1;
      }
      CandidatesAtEnd(cfg, s, i, Scan(after, loc), nip);
      return Ok(Progress(loc, nip)), after;
    }

    /** The automata of `FilterWords`, one fresh object per word. */
    method NewPool() returns (procs: seq<WordProcessor>)
      ensures Pool(procs, seq(|words|, _ => Initial))
      ensures forall j :: 0 <= j < |procs| ==> fresh(procs[j])
    {
      procs := [];
      var k := 0;
      while k < |words|
        invariant 0 <= k <= |words| && |procs| == k
        invariant forall a, b :: 0 <= a < b < k ==> procs[a] != procs[b]
        invariant forall j :: 0 <= j < k ==>
          fresh(procs[j]) && procs[j].State() == Initial && procs[j].word == words[j] && procs[j].options == options
      {
        var w := new WordProcessor(options, words[k]);
        procs := procs + [w];
        k := k + 1;
      }
    }

    /** The body of the loop of `FilterWords` for the rune at `i`, following `ScanRune` after `ScanPrefix`. */
    method FilterRune(procs: seq<WordProcessor>, s: seq<char>, i: nat, loc: Locals, replace: DetectedWord -> seq<char>,
                      ghost cfg: Config, ghost ps: seq<ProcState>)
      returns (r: Outcome<Locals>, ghost after: seq<ProcState>)
      requires i < |s| && VariantsNonEmpty(charsComparer.charsMap)
      requires Pool(procs, ps) && cfg == Configuration()
      requires ScanPrefix(cfg, s, i, replace) == Ok(Scan(ps, loc))
      modifies set j | 0 <= j < |procs| :: procs[j]
      ensures Pool(procs, after) && cfg == Configuration()
      ensures ScanPrefix(cfg, s, i + 1, replace) == if r.Ok? then Ok(Scan(after, r.value)) else OutOfRange
    {
      assert ScanPrefix(cfg, s, i + 1, replace) == ScanRune(cfg, s, i, Scan(ps, loc), replace);
      var l := loc;
      var chr := s[i];
      var between := chr !in wordsFirstChrsMap && !IsLetter(chr);
      if between {
        if l.detectWord {
          l := Emit(l, replace);
        }
        l := l.(wordStartSymb := i + 1);
      }
      if l.detectWord {
        return Ok(l.(ending := l.ending + [chr])), ps;
      }
      l := l.(chrBuf := l.chrBuf + [chr]);
      var progress;
      progress, after := CompareAll(procs, s, i, l, cfg, ps);
      assert ScanRune(cfg, s, i, Scan(ps, loc), replace)
          == match Candidates(cfg, s, i, Scan(ps, l), 0, true)
             case OutOfRange => OutOfRange
             case Ok(round) =>
               var l2 := round.scan.locals;
               if round.notInProgress && between then Ok(round.scan.(locals := l2.(result := l2.result + l2.chrBuf, chrBuf := [])))
               else Ok(round.scan);
      if progress.OutOfRange? {
        return OutOfRange, after;
      }
      l := progress.value.locals;
      if progress.value.notInProgress && between {
        l := l.(result := l.result + l.chrBuf, chrBuf := []);
      }
      return Ok(l), after;
    }

    /** The loop of `FilterWords` over the runes of `s`, following `ScanPrefix`; `n` is where it stops. */
    method ScanAll(procs: seq<WordProcessor>, s: seq<char>, replace: DetectedWord -> seq<char>, ghost cfg: Config)
      returns (r: Outcome<Locals>, ghost n: nat, ghost ps: seq<ProcState>)
      requires VariantsNonEmpty(charsComparer.charsMap)
      requires Pool(procs, seq(|words|, _ => Initial)) && cfg == Configuration()
      modifies set j | 0 <= j < |procs| :: procs[j]
      ensures n <= |s| && cfg == Configuration()
      ensures ScanPrefix(cfg, s, n, replace) == if r.Ok? then Ok(Scan(ps, r.value)) else OutOfRange
      ensures r.Ok? ==> n == |s|
    {
      ps := seq(|words|, _ => Initial);
      var loc := Locals([], [], 0, false, DetectedWord([], [], [], []), [], []);
      assert Scan(ps, loc) == InitialScan(cfg);
      assert ScanPrefix(cfg, s, 0, replace) == Ok(Scan(ps, loc));
      var i := 0;
      while i < |s|
        invariant 0 <= i <= |s|
        invariant Pool(procs, ps) && cfg == Configuration()
        invariant ScanPrefix(cfg, s, i, replace) == Ok(Scan(ps, loc))
      {
        var next;
        next, ps := FilterRune(procs, s, i, loc, replace, cfg, ps);
        if next.OutOfRange? {
          return OutOfRange, i + 1, ps;
        }
        loc := next.value;
        i := i + 1;
      }
      return Ok(loc), i, ps;
    }

    /**
     * `FilterWords`: the input with every detected word replaced by what
     * `replace` returns for it.
     */
    method FilterWords(s: seq<char>, replace: DetectedWord -> seq<char>) returns (r: Outcome<Filtered>)
      requires VariantsNonEmpty(charsComparer.charsMap)
      ensures r == Filter(Configuration(), s, replace)
    {
      if |words| == 0 {
        return Ok(Filtered(s, []));
      }
      ghost var cfg := Configuration();
      var procs := NewPool();
      ghost var n, ps;
      var scanned;
      scanned, n, ps := ScanAll(procs, s, replace, cfg);
      if scanned.OutOfRange? {
        OutOfRangePersists(cfg, s, n, |s|, replace);
        return OutOfRange;
      }
      var loc := scanned.value;
      loc := loc.(result := loc.result + loc.chrBuf);
      if loc.detectWord {
        loc := Emit(loc, replace);
      }
      return Ok(Filtered(loc.result, loc.calls));
    }
  }
}
