/**
 * When `FilterWords` stays inside its slices.
 *
 * The scan of `Filters` indexes its word, its contexts and `chrBuf` without
 * checks. On a tame configuration none of those indexes can fail: every
 * word has at least two letters, every variant of the matcher's table is
 * one rune, each word's contexts share one length, and every rune that
 * spells the first letter of a word is a rune that can start a word. The
 * proof carries an invariant of the automata and of `wordStartSymb`
 * through every rune.
 */
module FilterBounds {
  import opened Runes
  import opened ChrComparer
  import opened WordProcessing
  import opened Filters

  /** A rune that is not a letter and starts no word: `positionBetweenWords`. */
  predicate Between(cfg: Config, chr: char) {
    chr !in cfg.firstRunes && !IsLetter(chr)
  }

  /** No contexts, or contexts of one positive length. */
  predicate ContextsOfOneLength(excl: seq<seq<char>>) {
    |excl| == 0 || UniformLength(excl, |excl[0]|)
  }

  /** The configurations on which the scan never indexes out of range. */
  predicate Tame(cfg: Config) {
    SingleRuneVariants(cfg.table) &&
    (forall k :: 0 <= k < |cfg.words| ==>
       |cfg.words[k].searchedWord| >= 2 && ContextsOfOneLength(cfg.words[k].excludePrev)) &&
    (forall k, c ::
       0 <= k < |cfg.words| && |cfg.words[k].searchedWord| > 0 && SpellsRune(cfg.table, cfg.words[k].searchedWord[0], c)
       ==> !Between(cfg, c))
  }

  /**
   * Automaton `p` for word `w` after `n` runes with `b` runes in `chrBuf`:
   * nothing left to skip, a letter of the word still expected, and an
   * attempt in progress started at most `b` runes back, with its runes
   * read since.
   */
  predicate Healthy(p: ProcState, w: seq<char>, n: int, b: int) {
    p.skipCheckIteration == 0 && p.lastActiveChar < |w| &&
    (p.symbolCounter == 0 ==> p.lastActiveChar == 0) &&
    (p.symbolCounter > 0 ==> p.startSymbol + p.symbolCounter <= n && n - p.startSymbol <= b)
  }

  /**
   * The invariant of the scan after `n` runes: healthy automata, all idle
   * while a detection is pending, and otherwise the runes since the word
   * start all in `chrBuf`.
   */
  predicate Sound(cfg: Config, n: int, st: Scan) {
    |st.procs| == |cfg.words| &&
    (forall k :: 0 <= k < |st.procs| ==> Healthy(st.procs[k], cfg.words[k].searchedWord, n, |st.locals.chrBuf|)) &&
    (st.locals.detectWord ==> forall k :: 0 <= k < |st.procs| ==> st.procs[k].symbolCounter == 0) &&
    (!st.locals.detectWord ==> n - st.locals.wordStartSymb <= |st.locals.chrBuf|) &&
    st.locals.wordStartSymb <= n
  }

  /**
   * What the pass over the automata for the rune at `i` leaves: healthy
   * automata after `i + 1` runes, all idle when none is in progress or a
   * hit is pending, the word start kept, and `chrBuf` kept unless a hit
   * was cut from it.
   */
  predicate PassDone(cfg: Config, i: int, loc: Locals, round: Round) {
    var st := round.scan;
    |st.procs| == |cfg.words| &&
    (forall k :: 0 <= k < |st.procs| ==> Healthy(st.procs[k], cfg.words[k].searchedWord, i + 1, |st.locals.chrBuf|)) &&
    (round.notInProgress || st.locals.detectWord ==> forall k :: 0 <= k < |st.procs| ==> st.procs[k].symbolCounter == 0) &&
    st.locals.wordStartSymb == loc.wordStartSymb &&
    (!st.locals.detectWord ==> st.locals.chrBuf == loc.chrBuf)
  }

  /**
   * A success of a healthy attempt on a tame configuration: the contexts
   * are compared against a prefix of `chrBuf` and the hit and its
   * beginning are slices of `chrBuf`, all within bounds.
   */
  lemma DetectOk(cfg: Config, i: nat, st: Scan, k: nat, nip: bool)
    requires Tame(cfg) && k < |cfg.words| == |st.procs|
    requires var q := st.procs[k];
      q.symbolCounter > 0 && q.startSymbol + q.symbolCounter <= i + 1 && i + 1 - q.startSymbol <= |st.locals.chrBuf|
    ensures Detect(cfg, i, st, k, nip).Ok?
  {
    var excl := cfg.words[k].excludePrev;
    var buf := st.locals.chrBuf;
    var str := buf[..|buf| - st.procs[k].symbolCounter];
    if |excl| == 0 {
      NoContextsNeverExclude(str);
    } else {
      UniformContextsExcludeSuffix(excl, str, |excl[0]|);
    }
  }

  /**
   * One healthy automaton's step on a tame configuration stays in range; a
   * success completes an attempt that lies within `chrBuf`, an attempt in
   * progress stays healthy once it records the word start, and a failure
   * leaves the automaton idle.
   */
  lemma StepAtOk(cfg: Config, s: seq<char>, i: nat, p: ProcState, k: nat, loc: Locals)
    requires Tame(cfg) && VariantsNonEmpty(cfg.table)
    requires i < |s| && k < |cfg.words|
    requires loc.wordStartSymb <= i + 1 && i + 1 - loc.wordStartSymb <= |loc.chrBuf|
    requires Between(cfg, s[i]) || loc.wordStartSymb <= i
    requires Healthy(p, cfg.words[k].searchedWord, i, |loc.chrBuf| - 1)
    ensures var r := StepAt(cfg, s, i, p, k);
      r.Ok? &&
      (r.value.status == Success ==>
         r.value.symbolCounter > 0 && r.value.startSymbol + r.value.symbolCounter <= i + 1 &&
         i + 1 - r.value.startSymbol <= |loc.chrBuf|) &&
      (r.value.status == InProgress ==>
         Healthy(if r.value.symbolCounter == 1 then r.value.(startSymbol := loc.wordStartSymb) else r.value,
                 cfg.words[k].searchedWord, i + 1, |loc.chrBuf|)) &&
      (r.value.status == Failed ==>
         r.value.symbolCounter == 0 && Healthy(r.value, cfg.words[k].searchedWord, i + 1, |loc.chrBuf|))
  {
    var w := cfg.words[k].searchedWord;
    EntriesOfWord(cfg.table, w);
    StepSingleRune(p, w, cfg.table, cfg.letters, cfg.symbols, s[i], Lookahead(s, i));
  }

  /** A success that passes the context check ends the pass with every automaton reset. */
  lemma SuccessEndsPass(cfg: Config, i: nat, ps: seq<ProcState>, loc: Locals, k: nat, nip: bool)
    requires Tame(cfg) && k < |cfg.words| == |ps| && !loc.detectWord
    requires ps[k].symbolCounter > 0 && ps[k].startSymbol + ps[k].symbolCounter <= i + 1
    requires i + 1 - ps[k].startSymbol <= |loc.chrBuf|
    ensures var r := Detect(cfg, i, Scan(ps, loc), k, nip);
      r.Ok? && PassDone(cfg, i, loc, r.value)
  {
    DetectOk(cfg, i, Scan(ps, loc), k, nip);
    DetectCutsHit(cfg, i, Scan(ps, loc), k, nip);
  }

  /**
   * The pass from automaton `k` on stays in range and keeps the automata
   * healthy, given the automata before `k` already stepped and those from
   * `k` on not yet.
   */
  lemma {:induction false} CandidatesOk(cfg: Config, s: seq<char>, i: nat, ps: seq<ProcState>, loc: Locals, k: nat, nip: bool)
      returns (round: Round)
    requires Tame(cfg) && VariantsNonEmpty(cfg.table)
    requires i < |s| && k <= |cfg.words| == |ps|
    requires !loc.detectWord && loc.wordStartSymb <= i + 1 && i + 1 - loc.wordStartSymb <= |loc.chrBuf|
    requires Between(cfg, s[i]) || loc.wordStartSymb <= i
    requires forall j :: 0 <= j < k ==>
      Healthy(ps[j], cfg.words[j].searchedWord, i + 1, |loc.chrBuf|) && (nip ==> ps[j].symbolCounter == 0)
    requires forall j :: k <= j < |ps| ==> Healthy(ps[j], cfg.words[j].searchedWord, i, |loc.chrBuf| - 1)
    ensures Candidates(cfg, s, i, Scan(ps, loc), k, nip) == Ok(round) && PassDone(cfg, i, loc, round)
    decreases |cfg.words| - k
  {
    if k == |cfg.words| {
      round := Round(Scan(ps, loc), nip);
    } else {
      StepAtOk(cfg, s, i, ps[k], k, loc);
      var q := StepAt(cfg, s, i, ps[k], k).value;
      if q.status == Success {
        SuccessEndsPass(cfg, i, ps[k := q], loc, k, nip);
        round := Detect(cfg, i, Scan(ps[k := q], loc), k, nip).value;
      } else if q.status == InProgress {
        var q1 := if q.symbolCounter == 1 then q.(startSymbol := loc.wordStartSymb) else q;
        ExtendPass(cfg, i, ps, |loc.chrBuf|, k, false, q1);
        round := CandidatesOk(cfg, s, i, ps[k := q1], loc, k + 1, false);
      } else {
        ExtendPass(cfg, i, ps, |loc.chrBuf|, k, nip, q);
        round := CandidatesOk(cfg, s, i, ps[k := q], loc, k + 1, nip);
      }
    }
  }

  /** Automaton `k`, stepped to `q1`, joins the automata already stepped. */
  lemma ExtendPass(cfg: Config, i: nat, ps: seq<ProcState>, b: int, k: nat, nip: bool, q1: ProcState)
    requires k < |cfg.words| == |ps|
    requires forall j :: 0 <= j < k ==>
      Healthy(ps[j], cfg.words[j].searchedWord, i + 1, b) && (nip ==> ps[j].symbolCounter == 0)
    requires forall j :: k <= j < |ps| ==> Healthy(ps[j], cfg.words[j].searchedWord, i, b - 1)
    requires Healthy(q1, cfg.words[k].searchedWord, i + 1, b) && (nip ==> q1.symbolCounter == 0)
    ensures forall j :: 0 <= j < k + 1 ==>
      Healthy(ps[k := q1][j], cfg.words[j].searchedWord, i + 1, b) && (nip ==> ps[k := q1][j].symbolCounter == 0)
    ensures forall j :: k + 1 <= j < |ps| ==> Healthy(ps[k := q1][j], cfg.words[j].searchedWord, i, b - 1)
  {
  }

  /** One rune of a tame configuration stays in range and keeps the invariant. */
  lemma ScanRuneOk(cfg: Config, s: seq<char>, i: nat, st: Scan, replace: DetectedWord -> seq<char>)
    requires Tame(cfg) && VariantsNonEmpty(cfg.table)
    requires i < |s| && Sound(cfg, i, st)
    ensures var r := ScanRune(cfg, s, i, st, replace);
      r.Ok? && Sound(cfg, i + 1, r.value)
  {
    var chr := s[i];
    var between := chr !in cfg.firstRunes && !IsLetter(chr);
    var l := st.locals;
    var l1 := if !between then l
              else if l.detectWord then Emit(l, replace).(wordStartSymb := i + 1)
              else l.(wordStartSymb := i + 1);
    if !l1.detectWord {
      var loc := l1.(chrBuf := l1.chrBuf + [chr]);
      var round := CandidatesOk(cfg, s, i, st.procs, loc, 0, true);
    }
  }

  /** Every prefix of the input scans within range to a state that keeps the invariant. */
  lemma {:induction false} ScanPrefixOk(cfg: Config, s: seq<char>, n: nat, replace: DetectedWord -> seq<char>)
    requires Tame(cfg) && VariantsNonEmpty(cfg.table) && n <= |s|
    ensures var r := ScanPrefix(cfg, s, n, replace);
      r.Ok? && Sound(cfg, n, r.value)
  {
    if n > 0 {
      ScanPrefixOk(cfg, s, n - 1, replace);
      ScanRuneOk(cfg, s, n - 1, ScanPrefix(cfg, s, n - 1, replace).value, replace);
    }
  }

  /** `FilterWords` on a tame configuration never panics, whatever the input and the callback. */
  lemma FilterOk(cfg: Config, s: seq<char>, replace: DetectedWord -> seq<char>)
    requires Tame(cfg)
    ensures Filter(cfg, s, replace).Ok?
  {
    if |cfg.words| > 0 {
      ScanPrefixOk(cfg, s, |s|, replace);
    }
  }

  /**
   * Without a character table, words of two or more letters that start with
   * a letter never make `FilterWords` panic, whatever their contexts of one
   * length, the input and the callback.
   */
  lemma PlainWordsNeverPanic(cfg: Config, s: seq<char>, replace: DetectedWord -> seq<char>)
    requires cfg.table == map[]
    requires forall k :: 0 <= k < |cfg.words| ==>
      |cfg.words[k].searchedWord| >= 2 && IsLetter(cfg.words[k].searchedWord[0]) &&
      ContextsOfOneLength(cfg.words[k].excludePrev)
    ensures Filter(cfg, s, replace).Ok?
  {
    forall k, c | 0 <= k < |cfg.words| && |cfg.words[k].searchedWord| > 0 && SpellsRune(cfg.table, cfg.words[k].searchedWord[0], c)
      ensures !Between(cfg, c)
    {
      assert IsLetter(ToLower(cfg.words[k].searchedWord[0]));
    }
    FilterOk(cfg, s, replace);
  }
}
