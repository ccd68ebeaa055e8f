# text-filter: the word-matching core in Dafny

This project models the core of the Go package `filters` (text-filter) and proves properties of it. The core is the fuzzy multi-word matcher that finds configured words in a text, however they are disguised, and splices in text supplied by a callback.

- **Equivalence table** (`CharsComparer`, chr_comparer.go). Each canonical letter maps to its variant spellings. Each variant is a sequence of runes, so `х` may also be written `x` or `}{`. The variants of a letter are kept sorted by length.
- **Character matcher** (`compareChars`). It decides whether an observed rune spells one of the variants of the expected letter. To do so it pulls further runes on demand from a lookahead callback.
- **Per-word automaton** (`wordProcessor`, filters.go). It tracks one searched word through the text. It tolerates a repeated letter and a bounded number of inserted letters (`lettersBetweenKeyLetters`) and inserted non-letters (`symbolsBetweenKeyLetters`). It skips the runes the matcher pulled ahead, and it reports InProgress, Failed or Success.
- **Excluded-prefix test** (`compareWithExcludePrev`). It suppresses a hit that directly follows one of the word's configured preceding contexts.
- **Word filter** (`WordFilter`). It holds the options, the table, the words and the set of runes that can start a word. `FilterWords` runs one automaton per word over the text. It flushes text at word boundaries and replaces each detected word by the callback's answer.
- **Tolerance options** (`options`, options.go). Their defaults are 1 and 3, and they are set by option functions.
- **`FilterRepeatedCharsToOne`** (filters.go). It collapses every case-insensitive run of the same rune that is longer than `maxCount` to its first rune.

## Module layout

| file | module | content |
|---|---|---|
| `runes.dfy` | `Runes` | `Option`, `Outcome` (a value, or `OutOfRange` where the Go code would panic on an index) and the rune classes. |
| `options.dfy` | `Options` | The `Options` class and the option functions as data. |
| `length_sort.dfy` | `LengthSort` | The stable sort by length that the source gets from `sort.SliceStable`. |
| `chr_comparer.dfy` | `ChrComparer` | Builds the table and models `compareChars` as the function `Compare`. The `CharsComparer` class carries the table as a field. |
| `word_processor.dfy` | `WordProcessing` | One automaton step as the function `Step` and the excluded-prefix test as `ExcludedBefore`. The `WordProcessor` class updates its counters in place, and its methods are proved to compute those functions. |
| `word_filter.dfy` | `Filters` | `FilterWords` as the function `Filter`. The `WordFilter` class and its configuration methods. `WordFilter.FilterWords`, a loop over the runes and the automata, is proved to compute `Filter`. |
| `filter_bounds.dfy` | `FilterBounds` | The configurations on which `FilterWords` never panics, and the invariant of the scan that proves it. |
| `repeated_chars.dfy` | `RepeatedChars` | The reference function `Collapse`, its properties, and `FilterRepeatedCharsToOne` as a loop proved to compute it. |

### Behaviour at the edges

- **Table keys are kept as written.** `convertCompareChars` stores the first rune of each key unchanged, while `compareChars` lower-cases the sample before the lookup, so an entry under an upper-case key is never found. Only the sample and the first observed rune are lower-cased; pulled runes and variants are compared exactly.
- **Empty keys, variants and words.** `convertCompareChars` indexes `[]rune(key)[0]`, `compareChars` indexes `variant[0]` and `addWord` indexes `searchedWord[0]`; the model makes a non-empty key, variant and `AddWord` word preconditions. `AddWords` accepts an empty word (`fillLettersPossibleChars` skips it), and `FilterWords` then indexes it at its first letter as soon as a rune reaches the automata: `Filters.EmptyWordPanics`.
- **The lookahead reads past the end.** The closure in `FilterWords` indexes `runeStr[strChrNumb+1]` without a bound check, so a comparison that pulls at the last rune panics; the model returns `OutOfRange` there.
- **The lookahead never advances.** Every call of the closure in `FilterWords` returns `runeStr[strChrNumb+1]`, the rune right after the current one. `Filters.Lookahead` yields that rune on every pull.
- **`AddWords` keeps the caller's order of excluded contexts.** Only `addWord` sorts them, longest first.
- **A one-letter word panics once text has been flushed before it.** It succeeds on its first rune without ever being InProgress, so its `startSymbol` is never set and stays 0; the hit's beginning is then sliced from before the start of `chrBuf`. `Filters.OneLetterWordPanics` shows the word `a` in `x a`.
- **A word that starts with a non-letter without a table entry panics when found.** That rune is a position between words, so the word start moves past it and the hit is longer than the runes since the word start. `Filters.NonLetterStartPanics` shows the word `-b` in `-b`.
- **When the scan stays in range.** On a tame configuration (`FilterBounds.Tame`), one whose words have two or more letters, whose table variants are single runes, whose contexts of each word share one length, and where every rune spelling the first letter of a word can start a word, `FilterWords` never panics (`FilterBounds.FilterOk`). In particular it never panics without a table when every word has two or more letters, starts with a letter and has contexts of one length (`FilterBounds.PlainWordsNeverPanic`).

### Behaviour of the code that the model keeps

- **`compareWithExcludePrev` mis-aligns mixed-length contexts.** It aligns the input's tail by the first context that fits, then compares every context against that tail. With contexts of different lengths, a shorter context can "match" text it does not end. `WordProcessing.MisalignedContextsExclude` shows `["abcd", "c"]` excluding after `"xa"`. The function can also index past the end of a short context: `WordProcessing.ShortContextIndexedPastEnd` shows `["ab", "x"]` with `"xb"`. With contexts of one length, it is exactly a suffix test (`WordProcessing.UniformContextsExcludeSuffix`).
- **Detection can reorder text.** A hit cuts the word out of `chrBuf` but leaves the runes before it there. The replacement is appended to `result` at the next boundary, before the rest of `chrBuf` is flushed. For example, with the words "ab" and "xyz" and the input "x ab.", the buffered "x " is flushed after the replacement.
- **A stale start survives `reset`.** `reset` does not clear `startSymbol`, and a word that resumes InProgress with `symbolCounter != 1` keeps the stale start.
- **Success resets every automaton**, excluded or not.

## Model

| member | source | states |
|---|---|---|
| Runes.ToLower | chr_comparer.go:47-48 | An upper-case letter maps to its lower-case form; every other rune is unchanged; letters stay letters. |
| Options.Options.GetDefaultOptions | options.go:8-13 | A fresh options record allows 1 inserted letter and 3 inserted non-letters. |
| Options.Options.WithLettersBetweenKeyLetters | options.go:18-22 | Sets the letter budget and leaves the symbol budget unchanged. |
| Options.Options.WithSymbolsBetweenKeyLetters | options.go:25-29 | Sets the symbol budget and leaves the letter budget unchanged. |
| Options.Options.ApplyAll | filters.go:237-241 | Applying the option functions in order leaves each budget at the value given by the sequence of functions. |
| Options.LettersAfter | filters.go:239-241 | The letter budget after the option functions is the initial value or the value given by one of the functions that set it. |
| Options.SymbolsAfter | filters.go:239-241 | The symbol budget after the option functions is the initial value or the value given by one of the functions that set it. |
| Options.LastOptionWins | filters.go:239-241 | For each budget: with no function setting it, it keeps its initial value; otherwise the last function that sets it decides it, whatever functions setting the other budget follow. |
| LengthSort.SortSorted | chr_comparer.go:38-40 | The stable sort yields a sequence sorted by length that is a permutation of its input. |
| LengthSort.SortIsStable | chr_comparer.go:38-40 | For every length, the elements of that length keep their input order. |
| LengthSort.SortSortedIsIdentity | filters.go:293-295 | An already sorted list is returned unchanged. |
| ChrComparer.ConvertCompareChars | chr_comparer.go:31-44 | The converted table has exactly the first runes of the caller's keys as keys. |
| ChrComparer.ConvertedEntries | chr_comparer.go:31-44 | Each entry is the key's variants sorted ascending by length, as a permutation that keeps equal-length variants in order. |
| ChrComparer.CharsComparer.constructor | chr_comparer.go:12-18 | A new comparer holds the converted table. |
| ChrComparer.CharsComparer.AddCharsMap | chr_comparer.go:20-25 | The keys become the old keys plus the new ones. New entries overwrite, and other old entries are kept. |
| ChrComparer.CharsComparer.SetCharsMap | chr_comparer.go:27-29 | The table becomes the converted map; the old table is discarded. |
| ChrComparer.CompareFrom | chr_comparer.go:52-69 | Over a list of variants: an overrun needs a variant longer than the runes at hand; a match names a variant that starts with the observed rune and is as long as the runes consumed plus one; the runes already pulled always count as consumed. |
| ChrComparer.Compare | chr_comparer.go:46-70 | A sample without an entry compares without pulling; an overrun needs a multi-rune variant of the lowered sample; a match names a variant of the lowered sample that starts with the lowered observed rune and is as long as the runes consumed plus one. |
| ChrComparer.SingleRuneCompare | chr_comparer.go:46-70 | With single-rune variants the matcher never pulls, and it matches exactly when the observed rune spells the sample. |
| ChrComparer.CharsComparer.CompareChars | chr_comparer.go:46-70 | The loop over the variants returns what `Compare` specifies: match or not, runes pulled, or overrun. |
| ChrComparer.Pad | chr_comparer.go:55-57 | Padding reaches the variant's length (never shrinks), and the buffer's runes stay as its prefix. |
| ChrComparer.NoEntryIsEquality | chr_comparer.go:47-51 | A sample without a table entry matches exactly the runes equal to it ignoring case, pulls nothing, and does not depend on the lookahead. |
| ChrComparer.OtherFirstRunesSkipped | chr_comparer.go:53-54 | Variants whose first rune differs from the observed rune are skipped without effect. |
| ChrComparer.PadTwice | chr_comparer.go:52-57 | Runes pulled for a shorter variant are reused for a longer one; a failed pull stays failed. |
| ChrComparer.PullsBounded | chr_comparer.go:52-69 | The runes consumed never exceed the longest variant starting with the observed rune, less one. |
| ChrComparer.PullsAtMostLongestMinusOne | chr_comparer.go:46-69 | At the level of `compareChars`: at most the longest matching variant's length less one is pulled, and nothing without an entry. |
| ChrComparer.MatchesIffSomeVariantSpelled | chr_comparer.go:53-69 | Over a length-sorted list, the matcher matches if and only if some variant with the observed first rune is spelled by that rune followed by the pulled runes. |
| ChrComparer.CompareMatchesIffVariantSpelled | chr_comparer.go:46-69 | `compareChars` with a sorted entry matches if and only if some variant of the sample is spelled by the lowered observed rune and the lookahead. |
| ChrComparer.TestTableMultiRune | chr_comparer_test.go:17-31 | `х` matches its two-rune variant `}{`, and `ы` matches its two-rune variant (`b` then a vertical bar), each pulling one rune. |
| ChrComparer.TestTableSingleRune | chr_comparer_test.go:17-31 | Single-rune cases: `д` matches `d`, `д` and `Д`; `d` matches `d` without an entry; `l`/`d` and `д`/`b` do not match. |
| ChrComparer.ConvertedFirstRunes | chr_comparer.go:83-93 | On a table built from the caller's map, a rune can start a letter if and only if some key whose first rune is that letter has a non-empty variant starting with it. |
| ChrComparer.WordsPossibleFirstRunes | chr_comparer.go:72-81 | The union of the possible first runes over the non-empty words. |
| ChrComparer.CharsComparer.FillLetterPossibleChars | chr_comparer.go:83-93 | The result is the given set plus exactly the first runes of the letter's non-empty variants. |
| ChrComparer.CharsComparer.FillLettersPossibleChars | chr_comparer.go:72-81 | The result is the given set plus the possible first runes of every non-empty word. |
| WordProcessing.ResetState | filters.go:106-117 | `reset` yields the initial state with the old start index. |
| WordProcessing.ResetIsInitialExceptStart | filters.go:106-117 | `reset` restores the initial state except the start index, and is idempotent. |
| WordProcessing.WordProcessor.constructor | filters.go:315-321 | A new automaton for a word starts in the initial state. |
| WordProcessing.WordProcessor.Reset | filters.go:106-112 | The state after `reset` is the reset of the old state. |
| WordProcessing.WordProcessor.ResetBetweenWordLetters | filters.go:114-117 | Clears both tolerance counters and nothing else. |
| WordProcessing.ResetAllWords | filters.go:119-123 | Every automaton of the pool is reset. |
| WordProcessing.Step | filters.go:139-183 | One step keeps the start index. When not skipping, the matched count stays within the word, and Success holds exactly when the whole word is matched. |
| WordProcessing.AfterMismatch | filters.go:157-179 | After a miss the matched count never grows, success is impossible, and the start is kept. |
| WordProcessing.StepSkipsPulledRunes | filters.go:140-144 | A rune the matcher already pulled only counts and is skipped, keeping the status. |
| WordProcessing.StepCountsRunes | filters.go:139-183 | A step that does not fail counts one more rune; a failed step leaves the initial state except the start, with status Failed. |
| WordProcessing.StepOnMatch | filters.go:146-156 | On a match the next letter is expected, the tolerances are cleared, the pulled runes are to be skipped, and Success holds exactly when it was the last letter. |
| WordProcessing.StepFirstRuneMismatchFails | filters.go:157-179 | A miss on the first rune of an attempt fails at once, without tolerances. |
| WordProcessing.StepRepeatedLetter | filters.go:158-165 | A repetition of the previous letter keeps the attempt InProgress and skips the runes pulled by both comparisons. |
| WordProcessing.Tolerate | filters.go:166-179 | Never Success. A failure is the reset state with status Failed. A tolerated non-letter adds one to the symbol counter within its budget while no letter was tolerated; a tolerated letter adds one to the letter counter within its budget while no non-letter was tolerated; progress, count, skips and start are kept. |
| WordProcessing.TolerateKeepsBudgets | filters.go:166-179 | Tolerating a rune never exceeds the letter or symbol budget and never yields Success. |
| WordProcessing.StepSingleRune | filters.go:139-183 | With single-rune variants, a step of an automaton with nothing to skip stays in range and leaves nothing to skip; a failure leaves it idle, any other outcome counts one more rune, and the first rune of an attempt is accepted only when it spells the word's first letter. |
| WordProcessing.SecondComparisonContinuesPulls | filters.go:157-165 | The comparison against the previous letter continues the pull count of the first comparison: for `ab`, whose letters have two-rune variants that start with a vertical bar and end with `x` and `3`, a vertical bar pulls `x` and then `3`, leaving two runes to skip. |
| WordProcessing.StepKeepsBudgets | filters.go:139-183 | Every step keeps both tolerance counters within their budgets. |
| WordProcessing.WordProcessor.CompareChar | filters.go:139-183 | Updates the fields to the state `Step` specifies and returns its status. |
| WordProcessing.WordProcessor.Matched | filters.go:150-156 | On a match clears both tolerance counters, moves to the next letter and sets Success exactly when the word is complete, InProgress otherwise; no other field changes. |
| WordProcessing.WordProcessor.Mismatched | filters.go:157-179 | Updates the fields to the state `AfterMismatch` specifies. |
| WordProcessing.WordProcessor.ApplyTolerances | filters.go:166-179 | Updates the fields as the tolerance rules specify. |
| WordProcessing.WordProcessor.CompareWithExcludePrev | filters.go:185-223 | Returns `ExcludedBefore` of the word's contexts and the text, including its out-of-range case. |
| WordProcessing.FindTailStart | filters.go:190-196 | Returns `TailStart`: the start of the tail for the first context that fits in the text, or a negative start when none fits. |
| WordProcessing.MarkMismatches | filters.go:204-220 | Returns the outcome `InnerPass` specifies for one position of the tail and leaves the contexts ruled out so far marked in the flag array. |
| WordProcessing.TailStart | filters.go:190-199 | The tail starts no later than the end of the text, and before its start when every context is longer than the text. |
| WordProcessing.ExcludedBefore | filters.go:185-223 | When every context is longer than the text, and in particular when there are none, the hit is not excluded. |
| WordProcessing.NoContextsNeverExclude | filters.go:186-188 | A word without excluded contexts is never excluded. |
| WordProcessing.UniformContextsExcludeSuffix | filters.go:185-223 | With contexts of one length, a hit is excluded if and only if the text ends with one of them. |
| WordProcessing.SingleContextExcludesSuffix | filters.go:185-223 | With one context, a hit is excluded if and only if the text ends with it. |
| WordProcessing.MisalignedContextsExclude | filters.go:201-221 | Contexts `abcd` and `c` exclude after `xa`, which ends with neither. |
| WordProcessing.ShortContextIndexedPastEnd | filters.go:210-213 | Contexts `ab` and `x` with text `xb` index the short context past its end. |
| Filters.ResetAll | filters.go:119-123 | Every automaton of the pool goes back to the initial state with its own start index, and resetting again changes nothing. |
| Filters.Lookahead | filters.go:349-351 | Every pull yields the same result whatever was pulled before, and a rune exists exactly when the current one is not the last. |
| Filters.StepAt | filters.go:139-149 | An empty word is indexed out of range; a step keeps the start; an automaton expecting a letter still expects one unless it has just succeeded. |
| Filters.DetectCutsHit | filters.go:353-366 | After a success every automaton restarts. Either the hit is excluded and nothing else changes, or `chrBuf` splits into what stays, the beginning and the hit (as many runes as the automaton counted), and the detection of the configured word becomes pending with an empty ending. |
| Filters.CandidatesInRange | filters.go:346-376 | With non-empty words, the pass keeps every automaton expecting a letter of its word. |
| Filters.ScanRuneInRange | filters.go:330-381 | One rune keeps every automaton expecting a letter of its word. |
| Filters.ScanPrefixInRange | filters.go:330-381 | After any prefix every automaton still expects a letter of its word, so no word is indexed past its end. |
| Filters.Emit | filters.go:335-339 | One call is logged, the pending detection with its ending; the callback's answer is appended to the output; `chrBuf` and the word start are kept. |
| Filters.Finish | filters.go:383-387 | The output starts with `result` followed by `chrBuf` and is exactly that without a pending detection; a pending detection adds one call. |
| Filters.NoWordsKeepsText | filters.go:311-313 | Without words the text is returned unchanged and the callback is never called. |
| Filters.CandidatesKeepOutput | filters.go:346-376 | The pass over the automata never changes the output or the calls, and a detection it records names a configured word. |
| Filters.CandidatesUnfold | filters.go:352-375 | Success stops the pass at the detecting word. InProgress clears `wordsNotInProgress` and on the first rune sets the start. Failed goes on. |
| Filters.OutOfRangePersists | filters.go:349-351 | Once the lookahead runs past the end, the scan stays out of range. |
| Filters.ScanRuneInvariant | filters.go:330-381 | One rune keeps earlier calls and only logs detections of configured words. While nothing was detected, `result` followed by `chrBuf` grows by exactly that rune. |
| Filters.ScanPrefixInvariant | filters.go:330-381 | After any prefix, every detection names a configured word; without one, `result` followed by `chrBuf` is the prefix read. |
| Filters.NothingDetectedKeepsText | filters.go:310-390 | If the callback is never called, the output equals the input. |
| Filters.DetectionsNameConfiguredWords | filters.go:353-366 | Every value handed to the callback names one of the configured words. |
| Filters.ScansBeforeWord | filters.go:330-381 | For `x abc.` with word `abc`: after `x `, the word has failed and `x ` is flushed at the boundary. |
| Filters.ScansFirstLetter | filters.go:346-372 | The first letter `a` starts an attempt at index 2 and is buffered. |
| Filters.ScansUpToWord | filters.go:346-372 | The letter `b` advances the attempt. |
| Filters.ScansWord | filters.go:353-366 | The letter `c` completes the word: the hit is cut out of the buffer and the detection is recorded. |
| Filters.FailsAtPunctuation | filters.go:346-376 | The attempt restarted after the hit fails at the full stop. |
| Filters.ScansPunctuation | filters.go:330-381 | The full stop ends the detection: the callback's text is spliced in and the full stop is buffered. |
| Filters.EmitsAtPunctuation | filters.go:335-339 | The callback's answer for the detection is appended to the output. |
| Filters.MasksWordBeforePunctuation | filters.go:310-390 | With a masking callback, `x abc.` becomes `x ***.`, with one call for `abc`. |
| Filters.EmptyWordPanics | filters.go:139-146 | An empty word is indexed at its first letter by the first rune: `FilterWords` panics. |
| Filters.ScansBeforeLetter | filters.go:330-381 | For `x a` with the word `a`: after `x `, the word has failed and `x ` is flushed at the boundary. |
| Filters.OneLetterWordPanics | filters.go:353-357 | The one-letter word `a` after `x ` succeeds with its start never set, and the beginning slice starts before `chrBuf`: `FilterWords` panics. |
| Filters.NonLetterStartPanics | filters.go:330-357 | The word `-b` in `-b`: the `-` moves the word start past itself, and the hit is longer than the runes since the start: `FilterWords` panics. |
| FilterBounds.StepAtOk | filters.go:139-183 | On a tame configuration a healthy automaton's step stays in range; a success spans runes still in `chrBuf`, an attempt in progress stays healthy once it records the word start, and a failure leaves it idle. |
| FilterBounds.DetectOk | filters.go:353-366 | A success whose runes since its start lie within `chrBuf` passes the context test and both slices within range on a tame configuration. |
| FilterBounds.CandidatesOk | filters.go:346-376 | On a tame configuration the pass over the automata stays in range, keeps every automaton healthy, leaves all idle when none is in progress or a hit is pending, and keeps the word start and, without a hit, `chrBuf`. |
| FilterBounds.ScanRuneOk | filters.go:330-381 | On a tame configuration one rune stays in range and keeps the invariant of the scan. |
| FilterBounds.ScanPrefixOk | filters.go:330-381 | On a tame configuration every prefix of the input scans within range to a state that keeps the invariant. |
| FilterBounds.FilterOk | filters.go:310-390 | On a tame configuration `FilterWords` never panics, whatever the input and the callback. |
| FilterBounds.PlainWordsNeverPanic | filters.go:310-390 | Without a table, words of two or more letters that start with a letter and have contexts of one length never make `FilterWords` panic. |
| Filters.WordFilter.NewWordFilter | filters.go:236-248 | Default budgets updated by the option functions in order, the converted table, no words, an empty first-rune set. |
| Filters.WordFilter.ResetWords | filters.go:250-253 | No words, and the first-rune map becomes nil. |
| Filters.WordFilter.AddWords | filters.go:261-282 | Appends the prepared words in order (contexts unsorted) and adds their possible first runes. |
| Filters.WordFilter.AddWord | filters.go:284-290 | Appends the word with its contexts sorted longest first and adds its possible first runes. |
| Filters.WordFilter.AddPreparedWord | filters.go:292-301 | As `AddWord`, for a word given as runes. |
| Filters.WordFilter.NewPool | filters.go:315-321 | One fresh automaton per configured word, each in the initial state. |
| Filters.WordFilter.CompareOne | filters.go:349-351 | Steps one automaton over the current rune with the lookahead, as `StepAt` specifies. |
| Filters.WordFilter.DetectHit | filters.go:353-366 | Runs the exclusion test and on a hit records the detection and cuts the buffer, then resets every automaton, as `Detect` specifies. |
| Filters.WordFilter.MarkStart | filters.go:369-371 | Sets one automaton's start and leaves the pool otherwise unchanged. |
| Filters.WordFilter.AdvanceOne | filters.go:348-376 | One iteration of the pass over the automata, as `Candidates` specifies. |
| Filters.WordFilter.CompareAll | filters.go:346-376 | The whole pass over the automata, as `Candidates` specifies from the first word. |
| Filters.WordFilter.FilterRune | filters.go:330-381 | Processing one rune extends the scan of the prefix by that rune. |
| Filters.WordFilter.ScanAll | filters.go:330-381 | The loop over the runes computes the scan of the whole text or stops where it runs out of range. |
| Filters.WordFilter.FilterWords | filters.go:310-390 | Returns exactly `Filter` of the filter's configuration, the text and the callback. |
| RepeatedChars.FilterRepeatedCharsToOne | filters.go:30-62 | The loop computes `Collapse`: every maximal case-insensitive run is kept whole when its repeats are fewer than `maxCount`, otherwise cut to its first rune. |
| RepeatedChars.RunStartIsMaximal | filters.go:43-56 | The runs that the loop delimits are maximal runs of runes equal ignoring case. |
| RepeatedChars.CollapseAppend | filters.go:43-60 | A run following a rune it differs from contributes independently of the text before it. |
| RepeatedChars.CollapseEnds | filters.go:30-62 | The output is never longer than the input; it starts with the input's first rune and ends with a rune of the last run. |
| RepeatedChars.KeptRunEnds | filters.go:45-56 | What survives of a run is non-empty, no longer than the run, starts with its first rune and ends with its first or last rune. |
| RepeatedChars.HighBoundKeepsText | filters.go:45-50 | A text no longer than `maxCount` is returned unchanged. |
| RepeatedChars.LowBoundLeavesNoRepeats | filters.go:43-56 | With `maxCount` at most 1, no two adjacent output runes are equal ignoring case. |
| RepeatedChars.CollapseIdempotent | filters.go:30-62 | Filtering the output again changes nothing. |
| RepeatedChars.KeptRunBuffered | filters.go:44-50 | The buffer holds the run's repeats up to `maxCount - 1`; appending it when fewer than `maxCount` repeats were seen yields the kept run. |
| RepeatedChars.CloseRun | filters.go:48-59 | Closing a run appends its kept part to the output of the text before it. |
| RepeatedChars.ScanStart | filters.go:37-41 | The first rune is emitted and opens the first run. |
| RepeatedChars.ScanRepeat | filters.go:43-47 | A repeated rune extends the run and the buffer while the count is below `maxCount`. |
| RepeatedChars.ScanBreak | filters.go:48-56 | A different rune flushes the run's buffer if it is kept, emits the rune and opens a new run. |
| RepeatedChars.ScanEnd | filters.go:58-61 | The final flush yields `Collapse` of the whole text. |

## Left out

- The regular-expression filters are not part of this model: `FilterLinks`, `FilterEmails` and the other `regexp` replacements in filters.go. They are library calls on patterns.
- `excludedPast` (`UserWord.ExcludedPast`, `preparedWord.excludePast`) is never consulted by `FilterWords`. It is dropped from the model.
- `unicode.ToLower` and `unicode.IsLetter` are modelled for ASCII and basic Cyrillic (including Ё/ё) only. Every other rune counts as a non-letter and lowers to itself.
- UTF-8 decoding is not modelled: texts are sequences of runes (`seq<char>`). `FilterRepeatedCharsToOne` ranges over the runes of its text; the byte offset it tests is zero exactly at the first rune.
- The default character table (the package's built-in map) is not part of this model. The comparer lemmas use a small sample table taken from the test cases.
- Go's map iteration order is not modelled. Where the order could matter, the model requires that it cannot.
- The callback `replaceWord` is a function parameter, and the calls made to it are returned as a log. The lookahead callback is a function `pull` from the call number to a rune.
- Index panics that depend on the text become the `OutOfRange` outcome. These are the lookahead past the end, `compareWithExcludePrev` indexing a short context, the slices of `chrBuf` after a success (the context prefix, the beginning and the hit), and an empty word indexed by `compareChar`.
- Panics that depend only on the configuration become preconditions. These are an empty key, an empty variant, an empty word given to `AddWord`, a write into the nil map after `ResetWords`, and a negative capacity.
- ChrComparer.CharsComparer.constructor: requires that no two keys share a first rune (likewise `AddCharsMap`, `SetCharsMap` and `NewWordFilter`). Where two keys do share one, Go keeps whichever entry map iteration visits last.
- ChrComparer.CharsComparer.FillLettersPossibleChars: takes the searched words as rune sequences. The Go function takes its own `Word` type, while `AddWords` passes prepared words.
- Filters.WordFilter.FilterWords: requires every variant in the table to be non-empty, which is stronger than the source. The source panics only when it meets an empty variant during a comparison.
- RepeatedChars.FilterRepeatedCharsToOne: requires `maxCount >= 0`, because the source panics on a negative buffer capacity.
- Concurrency is not modelled: the filter is single-threaded and the model has no sharing between scans.
