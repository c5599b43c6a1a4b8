SubtitleFormatter in Dafny
==========================

This project models the text-processing core of SubtitleFormatter, a tool
that turns raw transcripts into subtitle text. It also models the plugin
platform's stateful bookkeeping. It proves properties of both.

The text cores are pure functions over `seq<char>`, each with lemmas:

- The rule-based sentence splitter plugin. It scans for candidates, applies
  the veto predicates and the degradation rounds, chooses the best candidate,
  cuts after the punctuation mark, and recurses up to `max_depth`.
- The older stand-alone smart splitter script.
- The two regex-based sentence segmenters.
- The text-cleaning plugin and the older text cleaner with its statistics.
- The filler remover.
- The greedy line breaker.
- The punctuation adder. Its neural model is a parameter.
- The transcript converter: timestamps, grouping, SRT/TXT writers and output
  names.
- The word-level diff: the LCS matrix, backtracking, difference records and
  counts, plus the normalizer and word extraction.

Where the source works by loops, the model has methods with loop invariants.
Each of these methods is proved to compute its specification function: the
candidate scans, the LCS matrix fill on an `array2`, the backtracking walk,
the wrapping loop, the list loops of every plugin, and so on.

The plugin platform's stateful objects are classes. Each method's `ensures`
gives the new value of every field it changes; the one exception is listed
under "## Left out":

- the configuration state machine;
- the dependency-injection container and the injector;
- the event system and the event bus;
- the three plugin configuration managers;
- the plugin base class;
- the lifecycle manager, over an abstract registry;
- the central and unified configuration managers;
- the logger;
- the chain canvas of the GUI.

The recursive dictionary merge, the schema checks, the TOML writer and the
reconciliation against defaults are functions over a `Value` datatype that
mirrors what Python holds after parsing TOML or JSON.

Python's `str` operations live in `PyText`, with these choices:

- Whitespace follows `str.isspace()`.
- Letters, digits and case are ASCII, plus the CJK ideographs as
  alphanumeric.
- Regular expressions are written out as left-to-right scanners with
  `re.sub`'s semantics, in module `Scan`.

The code is followed where its comments or docstrings say something else:

- `_is_valid_split_point` documents a fifth round that "removes all
  limits". The code applies round 4's test in round 5.
- `should_split_sentence` has an empty list of problematic patterns, so
  that check never fires.
- Both punctuation tables are modelled as Python evaluates them. The two
  entries with a straight double quote collapse into one identity entry.
  The entry written across two lines with triple quotes is one 35-character
  key.
- The fixed-phrase entry for "as well as" records the length 9, so it
  never protects a conjunction; `SentenceSplitter.Default` keeps that
  entry, and `SentenceSplitter.Corrected` has the length 10.
- `PluginConfigSchema.validate` adds no error when a validator returns
  False. `SchemaConfig.PluginConfigManager.ValidateConfig` keeps that; the
  check that counts a False is `ValidateConfigCorrected`.

Both, and the other places where the code as written evidently differs
from its intent, are listed under "## Findings".

## Model

| member | source | states |
|---|---|---|
| Candidates.SortByPosSpec | plugins/builtin/sentence_splitter/plugin.py:672 | sorting the candidates by position yields a sorted permutation of them |
| Candidates.Best | plugins/builtin/sentence_splitter/plugin.py:692 | `max(key=(priority, -pos))` returns a member that no other member beats: none has a higher priority, and none with the same priority lies further left |
| Candidates.FilterMembers | plugins/builtin/sentence_splitter/plugin.py:683-688 | the round's filter keeps exactly the candidates the test accepts |
| Candidates.Occurrences | plugins/builtin/sentence_splitter/plugin.py:617-669 | every position the `find` loop visits is an occurrence of the conjunction at or after the start |
| Candidates.ScanOccurrences | plugins/builtin/sentence_splitter/plugin.py:617-669 | the `find` loop collects the hits of each successive non-overlapping occurrence, in order |
| Candidates.ScanPositions | plugins/builtin/sentence_splitter/plugin.py:545-614 | the per-mark scan collects the hits of every position, in order |
| SentenceSplitter.CutAfterMarkKeepsMark | plugins/builtin/sentence_splitter/plugin.py:852-897 | a cut on , : ; . ! ? — – … keeps the mark and at most one following space on the left; a cut on a space after a mark moves one past it; any other cut stays put |
| SentenceSplitter.ValidOfMembers | plugins/builtin/sentence_splitter/plugin.py:683-688 | a round keeps exactly the candidates `_is_valid_split_point` accepts in that round |
| SentenceSplitter.RoundBestSpec | plugins/builtin/sentence_splitter/plugin.py:681-693 | a round finds nothing exactly when no candidate is valid; otherwise it finds a valid candidate that no valid candidate beats |
| SentenceSplitter.BestSplitRounds | plugins/builtin/sentence_splitter/plugin.py:675-764 | `find_best_split` returns the best candidate of the first round in 1..min(max_degradation_round, 5) that has one, and None only when no round has one |
| SentenceSplitter.BestSplitIsBest | plugins/builtin/sentence_splitter/plugin.py:690-693 | the chosen split is a valid candidate of its round with maximal priority; ties go to the smallest position |
| SentenceSplitter.CandidateShape | plugins/builtin/sentence_splitter/plugin.py:537-673 | every candidate lies inside the sentence. It is a punctuation mark (a comma only outside a number context), or a whole-word conjunction not at index 0 that no fixed phrase protects |
| SentenceSplitter.SplitPointsSorted | plugins/builtin/sentence_splitter/plugin.py:672 | `find_split_points` returns its candidates sorted by position, each exactly once |
| SentenceSplitter.CommaBoostOrderFree | plugins/builtin/sentence_splitter/plugin.py:572-584 | the comma boost does not depend on the set's iteration order: every conjunction that can follow the comma gives the same boost |
| SentenceSplitter.CutDecisionCases | plugins/builtin/sentence_splitter/plugin.py:831-907 | the sentence stays whole at the depth limit, below `min_recursive_length`, when it should not be split, or when no round finds a point. A cut leaves at least 10 stripped characters on each side (8 from round 4 on) |
| SentenceSplitter.SplitWithConcat | plugins/builtin/sentence_splitter/plugin.py:899-921 | for any cut decision that cuts inside the text, the fragments concatenate back to the input |
| SentenceSplitter.SplitWithCount | plugins/builtin/sentence_splitter/plugin.py:829-921 | there is at least one fragment and at most 2^(max_depth − depth) |
| SentenceSplitter.SplitWithNonEmpty | plugins/builtin/sentence_splitter/plugin.py:910-921 | a non-empty sentence splits into non-empty fragments only |
| SentenceSplitter.FragmentsProperties | plugins/builtin/sentence_splitter/plugin.py:829-921 | `split_sentence` loses and reorders nothing. It returns 1 to 2^(max_depth − depth) fragments, none of them empty |
| SentenceSplitter.AsWellAsLength | plugins/builtin/sentence_splitter/plugin.py:132 | with the recorded length 9, the "as well as" entry protects no conjunction at any position of any text |
| SentenceSplitter.AsWellAsSampleUnprotected | plugins/builtin/sentence_splitter/plugin.py:123-133 | as written, no entry of the table protects the "as" that opens "as well as" in "x as well as y" |
| SentenceSplitter.AsWellAsProtected | plugins/builtin/sentence_splitter/plugin.py:327-329 | with the length 10, the "as well as" entry protects the "as" that opens every occurrence of "as well as", in any text |
| SentenceSplitter.LongUnsplittableRaises | plugins/builtin/sentence_splitter/plugin.py:841-845 | a sentence over 100 characters that should be split but has no valid point makes the code as written raise, while the corrected model returns it whole |
| SentenceSplitter.UnsplittableWhole | plugins/builtin/sentence_splitter/plugin.py:841-847 | the corrected splitter returns a long sentence without a valid split point whole |
| SentenceSplitter.FragmentsAsWrittenAgrees | plugins/builtin/sentence_splitter/plugin.py:829-921 | wherever the code as written returns, it returns the corrected model's fragments |
| SentenceSplitter.ProcessedSentencesConcat | plugins/builtin/sentence_splitter/plugin.py:923-930 | `process_sentences` loses nothing but blank sentences and the whitespace around each sentence; no output is empty |
| SentenceSplitter.SentencePiecesConcat | plugins/builtin/sentence_splitter/plugin.py:925-929 | one sentence's fragments rebuild the stripped sentence |
| SentenceSplitter.SplitAtPosition | plugins/builtin/sentence_splitter/plugin.py:960-976 | the halves concatenate to the sentence, and the first has the position's length clamped to 0..len |
| SentenceSplitter.IsValidSplitIgnoresSpace | plugins/builtin/sentence_splitter/plugin.py:978-999 | whitespace around the halves does not change whether a split is valid |
| SentenceSplitter.FindMark | plugins/builtin/sentence_splitter/plugin.py:545-614 | the scan for one mark yields the mark's candidates as specified (no comma in a number context; comma boosts) |
| SentenceSplitter.FindConjunction | plugins/builtin/sentence_splitter/plugin.py:616-669 | the `find` loop for one conjunction yields its specified candidates |
| SentenceSplitter.FindSplitPoints | plugins/builtin/sentence_splitter/plugin.py:537-673 | the method computes the candidate list whose shape and order the lemmas above state |
| SentenceSplitter.FilterValid | plugins/builtin/sentence_splitter/plugin.py:683-688 | the loop keeps the valid candidates, in order |
| SentenceSplitter.TryRound | plugins/builtin/sentence_splitter/plugin.py:681-693 | one round returns the best valid candidate as `RoundBestSpec` characterises it |
| SentenceSplitter.FindBestSplit | plugins/builtin/sentence_splitter/plugin.py:675-764 | the method returns the split `BestSplitRounds` characterises |
| SentenceSplitter.HasFallbackComma | plugins/builtin/sentence_splitter/plugin.py:779-802 | the comma loop finds a comma with over 10 characters after it and at least 20 stripped characters on each side exactly when one exists |
| SentenceSplitter.ShouldSplitSentence | plugins/builtin/sentence_splitter/plugin.py:766-804 | a sentence is split when it is long enough and has a round-1 candidate or a fallback comma |
| SentenceSplitter.DecideCut | plugins/builtin/sentence_splitter/plugin.py:831-907 | the checks before the recursion compute the cut `CutDecisionCases` characterises |
| SentenceSplitter.SplitSentence | plugins/builtin/sentence_splitter/plugin.py:829-921 | the recursive method returns the fragments `FragmentsProperties` is about |
| SentenceSplitter.SplitPart | plugins/builtin/sentence_splitter/plugin.py:912-919 | a half is split again when it reaches `min_recursive_length`, kept when shorter and non-empty, and dropped when empty |
| SentenceSplitter.ProcessSentences | plugins/builtin/sentence_splitter/plugin.py:923-930 | the loop computes the list `ProcessedSentencesConcat` is about |
| SentenceSplitter.KeepLines | plugins/builtin/sentence_splitter/plugin.py:286-293 | each line is stripped and blank lines are dropped, in order |
| SentenceSplitter.ProcessSingleTextAsList | plugins/builtin/sentence_splitter/plugin.py:275-302 | None gives [None]; a non-string or blank text gives []; otherwise the processed sentences of its non-blank lines |
| SentenceSplitter.Process | plugins/builtin/sentence_splitter/plugin.py:224-245 | when disabled, a text comes back as [text] and a list unchanged; otherwise a list is processed item by item and concatenated |
| SmartSplitter.NumberPatternsNeedDigit | scripts/smart_sentence_splitter/main.py:56-60 | the thousands pattern matches exactly where a digit is; the decimal and currency patterns need a digit too |
| SmartSplitter.NumberContextIsDigitNearby | scripts/smart_sentence_splitter/main.py:68-78 | a comma is in a number context exactly when a digit lies within 20 characters on either side of it |
| SmartSplitter.SubordinateNeedsComma | scripts/smart_sentence_splitter/main.py:92-112 | a position counts as inside a subordinate clause only when a comma comes before it |
| SmartSplitter.CommaHitCases | scripts/smart_sentence_splitter/main.py:128-181 | a comma yields nothing, a candidate at a kept comma with priority 3 or 5, or a priority-5 candidate right after a kept comma |
| SmartSplitter.SplitPointsShape | scripts/smart_sentence_splitter/main.py:114-210 | the candidates come sorted by position; each is a punctuation candidate or a whole-word connective, not at the start, with more than 20 stripped characters on each side |
| SmartSplitter.SplitPointsInRange | scripts/smart_sentence_splitter/main.py:114-210 | every candidate position lies inside the sentence |
| SmartSplitter.CommaConnectiveCandidate | scripts/smart_sentence_splitter/main.py:137-149 | a kept comma followed by a connective, outside a subordinate clause, puts a priority-5 candidate right after the comma among the split points |
| SmartSplitter.AdjustCutKeepsComma | scripts/smart_sentence_splitter/main.py:251-259 | a cut at a comma, or at the space after one, moves past it so the first part ends with the comma or the comma and one space; any other cut stays put |
| SmartSplitter.SplitWithConcat | scripts/smart_sentence_splitter/main.py:234-321 | for any plan that cuts inside the text, the fragments concatenate back to the input |
| SmartSplitter.SplitWithCount | scripts/smart_sentence_splitter/main.py:234-321 | each level at most doubles the fragments: at least one and at most 2^(4 − depth) |
| SmartSplitter.FragmentsProperties | scripts/smart_sentence_splitter/main.py:234-321 | `split_sentence` loses and reorders nothing and returns 1 to 2^(4 − depth) fragments, at most 16 from depth 0 |
| SmartSplitter.KeptWhole | scripts/smart_sentence_splitter/main.py:212-238 | beyond depth 3, under 60 characters, or matching a problematic pattern, the sentence stays whole |
| SmartSplitter.ShortPartKeptWhole | scripts/smart_sentence_splitter/main.py:305-307 | when the second half does not start in lower case and either half is under 5 stripped characters, the sentence stays whole |
| SmartSplitter.LowerTailSplitOnce | scripts/smart_sentence_splitter/main.py:288-301 | a lower-case second half without an important starter and of 21 to 80 stripped characters is cut off once, without recursion |
| SmartSplitter.ProcessedSentencesConcat | scripts/smart_sentence_splitter/main.py:323-330 | processing loses nothing but blank sentences and the whitespace around each sentence |
| SmartSplitter.FindMark | scripts/smart_sentence_splitter/main.py:124-181 | the `re.finditer` scan of one mark collects that mark's hits at every position, in order |
| SmartSplitter.FindConnective | scripts/smart_sentence_splitter/main.py:184-206 | the `find` loop of one connective computes its specified scan over the lower-cased sentence |
| SmartSplitter.FindSplitPoints | scripts/smart_sentence_splitter/main.py:114-210 | the method computes the candidate list whose shape `SplitPointsShape` states |
| SmartSplitter.ShouldSplitSentence | scripts/smart_sentence_splitter/main.py:212-232 | the method decides exactly as the specification `ShouldSplit` does |
| SmartSplitter.DecidePlan | scripts/smart_sentence_splitter/main.py:234-307 | the checks before the recursion compute the plan that the splitter's specification follows |
| SmartSplitter.SplitSentence | scripts/smart_sentence_splitter/main.py:234-321 | the recursive method returns the fragments `FragmentsProperties` is about |
| SmartSplitter.SplitPart | scripts/smart_sentence_splitter/main.py:310-321 | a half is split again when longer than 15 characters, kept when non-empty, and dropped when empty |
| SmartSplitter.ProcessSentences | scripts/smart_sentence_splitter/main.py:323-330 | the loop computes the list `ProcessedSentencesConcat` is about |
| SmartSplitter.ProcessSentence | scripts/smart_sentence_splitter/main.py:325-329 | one sentence is stripped, skipped when blank, and split otherwise |
| SequenceAligner.LcsBounds | scripts/text_diff/sequence_aligner.py:100-105 | dropping the last word of either side lowers the LCS by at most one and never raises it |
| SequenceAligner.SideLengths | scripts/text_diff/sequence_aligner.py:155-210 | the old side has one word per equal, delete and replace step; the new side one per equal, insert and replace step |
| SequenceAligner.EqualStepsBound | scripts/text_diff/sequence_aligner.py:86-107 | no alignment of two word lists has more equal steps than their LCS |
| SequenceAligner.LastMove | scripts/text_diff/sequence_aligner.py:125-138 | the walk's move from a corner takes a match first, then a deletion when the cell above is at least the cell to the left, else an insertion; it consumes the last word of each side it uses and lowers the LCS by one exactly on a match |
| SequenceAligner.SidesSnoc | scripts/text_diff/sequence_aligner.py:125-140 | appending one step extends each side by that step's word, if it has one, and keeps equal steps pairing equal words |
| SequenceAligner.BacktrackSides | scripts/text_diff/sequence_aligner.py:123-140 | backtracking pairs equal words only, and its old and new sides spell the two word lists, in order |
| SequenceAligner.BacktrackCounts | scripts/text_diff/sequence_aligner.py:125-138 | backtracking emits no replace step, and its equal steps number exactly the LCS |
| SequenceAligner.BacktrackSpec | scripts/text_diff/sequence_aligner.py:109-140 | the alignment has only equal, delete and insert steps, spells both lists in order, has LCS equal steps and |a| + |b| − LCS steps in all |
| SequenceAligner.StepKinds | scripts/text_diff/sequence_aligner.py:159-210 | every step is one of the four kinds |
| SequenceAligner.BacktrackOptimal | scripts/text_diff/sequence_aligner.py:109-140 | no alignment of the two lists has more equal steps than the backtracked one |
| SequenceAligner.CountKindAppend | scripts/text_diff/sequence_aligner.py:227-229 | counting records of one kind adds up over concatenation |
| SequenceAligner.AnalyzeCounts | scripts/text_diff/sequence_aligner.py:155-212 | equal steps yield no record; each replace step yields one; each delete or insert step yields one when its position entry exists, so exactly one when the position lists cover both sides |
| SequenceAligner.DiffOfCounts | scripts/text_diff/sequence_aligner.py:160-210 | the records of one step, by kind |
| SequenceAligner.AnalyzeTags | scripts/text_diff/sequence_aligner.py:163-192 | every delete record names the old word at its running index with that word's line and column, every insert record likewise on the new side, and the other side's fields are −1 |
| SequenceAligner.AlignCounts | scripts/text_diff/sequence_aligner.py:214-240 | with a position entry for every word, the comparison counts |a| − LCS deletions, |b| − LCS insertions and no replacement, so the differences total |a| + |b| − 2·LCS, and the equal words are min(|a|, |b|) |
| SequenceAligner.LcsStep | scripts/text_diff/sequence_aligner.py:102-105 | the recurrence the matrix cells follow, on prefixes |
| SequenceAligner.BuildLcsMatrix | scripts/text_diff/sequence_aligner.py:86-107 | the fresh (m+1)×(n+1) matrix holds at [i, j] the LCS of the first i and the first j words |
| SequenceAligner.MovePrefix | scripts/text_diff/sequence_aligner.py:126-138 | the walk's move from corner (i, j), read on prefixes of the two lists |
| SequenceAligner.ReverseSnoc | scripts/text_diff/sequence_aligner.py:140 | moving a step from the walk's remainder to its reversed output |
| SequenceAligner.BacktrackAlignment | scripts/text_diff/sequence_aligner.py:109-140 | the loop walking back from the far corner, then reversing, computes `Backtrack` |
| SequenceAligner.AnalyzeAlignment | scripts/text_diff/sequence_aligner.py:142-212 | the loop computes `Analyze` |
| SequenceAligner.AlignSequences | scripts/text_diff/sequence_aligner.py:52-84 | the comparison result is `Align` of the word lists and their positions |
| TextNormalizer.PunctuationTableInert | scripts/text_diff/text_normalizer.py:16-158 | no value of the punctuation table contains a key outside printable ASCII, and the table has 139 entries |
| TextNormalizer.ApplyTableKeepsAbsent | scripts/text_diff/text_normalizer.py:208-212 | a table whose values lack a character creates none |
| TextNormalizer.ApplyTableRemovesKeys | scripts/text_diff/text_normalizer.py:208-212 | after the loop no single-character key outside printable ASCII remains |
| TextNormalizer.ApplyTableUnused | scripts/text_diff/text_normalizer.py:208-212 | a table without occurring keys changes nothing and counts nothing |
| TextNormalizer.FullWidthCountConcat | scripts/text_diff/text_normalizer.py:216-222 | the count of full-width digits adds up over concatenation |
| TextNormalizer.ReplaceKeepsFullWidth | scripts/text_diff/text_normalizer.py:208-212 | replacing a key by a value, both free of full-width digits, keeps the number of full-width digits |
| TextNormalizer.ReplaceDigit | scripts/text_diff/text_normalizer.py:217-221 | replacing one full-width digit by an ASCII character removes exactly its occurrences from the count |
| TextNormalizer.ApplyTableKeepsFullWidth | scripts/text_diff/text_normalizer.py:208-212 | the punctuation loop keeps every full-width digit |
| TextNormalizer.NumberTableAt | scripts/text_diff/text_normalizer.py:166-177 | entry k of the number table maps the full-width digit k to the ASCII digit k |
| TextNormalizer.NumberTableCounts | scripts/text_diff/text_normalizer.py:216-222 | the number loop counts every full-width digit and leaves none |
| TextNormalizer.SquashedNoPair | scripts/text_diff/text_normalizer.py:244 | after `[ \t]+` became one blank, no two blanks stand side by side |
| TextNormalizer.DropBlankBeforeBreak | scripts/text_diff/text_normalizer.py:245 | removing a blank before each line break leaves none there |
| TextNormalizer.DropBlankAfterBreak | scripts/text_diff/text_normalizer.py:246 | then removing a blank after each line break leaves no blank on either side of one |
| TextNormalizer.TrimShape | scripts/text_diff/text_normalizer.py:244-247 | the trimmed text is stripped and has no two adjacent blanks and no blank next to a line break |
| TextNormalizer.CleanupKeepsAbsent | scripts/text_diff/text_normalizer.py:229-247 | the clean-up creates only '.', ' ', line breaks, lower-case letters and characters it was given |
| TextNormalizer.CleanupShape | scripts/text_diff/text_normalizer.py:229-247 | the clean-up's output is stripped and holds no tab, no two adjacent blanks and no blank next to a line break |
| TextNormalizer.CleanupLower | scripts/text_diff/text_normalizer.py:238-240 | without `preserve_case` no upper-case ASCII letter is left |
| TextNormalizer.RunTable | scripts/text_diff/text_normalizer.py:207-213 | one table loop applies the table in order and counts the replaced occurrences |
| TextNormalizer.PunctuationStage | scripts/text_diff/text_normalizer.py:206-213 | the punctuation loop keeps the text free of '\r', keeps its full-width digits and removes its wide keys |
| TextNormalizer.NumberStage | scripts/text_diff/text_normalizer.py:215-222 | the number loop counts every full-width digit and creates no '\r' and no wide key |
| TextNormalizer.NormalizeStats | scripts/text_diff/text_normalizer.py:193-250 | the statistics hold the keys assigned, `bom_removed` only when a mark was removed and `case_normalized` only when the text was lower-cased |
| TextNormalizer.TablesStage | scripts/text_diff/text_normalizer.py:196-222 | steps 1 to 4 leave no '\r', no full-width digit and none of the wide keys, and the digit loop counts every full-width digit of the input |
| TextNormalizer.CleanupStage | scripts/text_diff/text_normalizer.py:224-247 | a normalized text has no '\r', no full-width digit, no wide key, no upper case unless kept, no blank or tab at the ends, no tab, no double blank and no blank next to a line break |
| TextNormalizer.Normalize | scripts/text_diff/text_normalizer.py:179-252 | `normalize` returns the normalized text and its statistics: the mark removed, the line endings, each table's replacements (every full-width digit), the ellipses, case, and the total change in length |
| TextNormalizer.WordSpans | scripts/text_diff/text_normalizer.py:265 | the spans found are whole words, in increasing order and not overlapping |
| TextNormalizer.WordSpansComplete | scripts/text_diff/text_normalizer.py:265 | every whole word at or after the start is found |
| TextNormalizer.ExtractWords | scripts/text_diff/text_normalizer.py:254-266 | `extract_words` returns the text of each found span, in order |
| TextNormalizer.ExtractWordsExact | scripts/text_diff/text_normalizer.py:265 | a word is extracted exactly when it is a maximal ASCII letter run with a word boundary on each side |
| TextNormalizer.PositionsFacts | scripts/text_diff/text_normalizer.py:279-294 | lines are numbered from 1, the column is the start plus one, and each entry's word is what its line holds between start and end |
| TextNormalizer.GetWordPositions | scripts/text_diff/text_normalizer.py:268-296 | the loop computes the positions of the text's lines split on line breaks |
| Scan.MapClass | plugins/builtin/text_cleaning/plugin.py:183 | a one-character class substitution replaces each class character and keeps the length |
| Scan.RunSubNoRun | plugins/builtin/text_cleaning/plugin.py:177-183 | when every run of at least `min` characters becomes fewer than `m` class characters, and `min <= m`, no run of `m` remains |
| Scan.RunSubKeepsPairs | plugins/builtin/text_cleaning/plugin.py:183-195 | a run substitution with a non-empty replacement free of another class keeps a text free of two adjacent characters of that class |
| Scan.RunSubRemoves | plugins/builtin/text_cleaning/plugin.py:183 | with runs of one or more replaced, a class character that the replacement lacks is gone |
| Scan.RunSubKeepsAbsent | plugins/builtin/text_cleaning/plugin.py:177-220 | a run substitution creates no character that neither the input nor a fixed replacement holds |
| Scan.SquashFixed | plugins/builtin/text_cleaning/plugin.py:218-220 | a text with no two adjacent blanks is left alone by squashing blank runs |
| Scan.EllipsesRemove | plugins/builtin/text_cleaning/plugin.py:174 | no horizontal ellipsis survives, and the output grows by at most two characters per match |
| Scan.MarksFacts | plugins/builtin/text_cleaning/plugin.py:174-178 | after the mark substitutions no '…' survives, no two '!' or '?' stand together and no run of dots is longer than three |
| Scan.MarksKeepsAbsent | plugins/builtin/text_cleaning/plugin.py:174-178 | the mark substitutions create no character but '.' |
| Scan.InsertGapsSeparates | plugins/builtin/text_cleaning/plugin.py:186-191 | after inserting a blank between the two classes no such pair is adjacent, nothing is lost and the first character stays |
| Scan.InsertGapsKeepsAbsent | plugins/builtin/text_cleaning/plugin.py:186-191 | the substitution adds only blanks |
| Scan.OpenParensTrims | plugins/builtin/text_cleaning/plugin.py:194 | no blank follows an opening parenthesis |
| Scan.OpenParensKeepsAbsent | plugins/builtin/text_cleaning/plugin.py:194 | the opening-parenthesis substitution only deletes blanks |
| Scan.CloseParensKeepsAbsent | plugins/builtin/text_cleaning/plugin.py:195 | the closing-parenthesis substitution only deletes blanks |
| Scan.SentenceBreaksBreak | plugins/builtin/text_cleaning/plugin.py:204 | wherever '.', '!' or '?' is followed by optional whitespace and an upper-case letter, the whitespace between is exactly one line break |
| Scan.SentenceBreaksKeepsAbsent | plugins/builtin/text_cleaning/plugin.py:204 | the substitution adds only line breaks |
| Scan.BlankLinesCollapse | plugins/builtin/text_cleaning/plugin.py:222-225 | wherever a line break stands, at most one blank line follows it |
| Scan.BlankLinesKeepsAbsent | plugins/builtin/text_cleaning/plugin.py:224 | the substitution adds only line breaks |
| Scan.SplitLines | plugins/builtin/text_cleaning/plugin.py:214 | `splitlines()` yields lines without line boundaries |
| Scan.SplitLinesPlain | plugins/builtin/text_cleaning/plugin.py:214 | a text without boundaries is one line, or none when empty |
| Scan.SplitLinesKeepsAbsent | plugins/builtin/text_cleaning/plugin.py:214 | each line holds only characters of the text |
| TextCleaning.ReplaceEachIsApply | plugins/builtin/text_cleaning/plugin.py:164-171 | the unguarded replacement loop computes what the normalizer's guarded loop computes |
| TextCleaning.ReplaceEachSplit | plugins/builtin/text_cleaning/plugin.py:164-171 | running two tables one after the other is running their concatenation |
| TextCleaning.OneForOneLength | plugins/builtin/text_cleaning/plugin.py:109-120 | a table of one-character entries never changes the length |
| TextCleaning.CleaningTableShape | plugins/builtin/text_cleaning/plugin.py:82-106 | the punctuation table as Python builds it: seven one-for-one entries, one 35-character key mapped to "'", then one-for-one entries, all values plain |
| TextCleaning.CleaningTableDrop | plugins/builtin/text_cleaning/plugin.py:164-166 | the punctuation table shortens the text by 34 characters for each 35-character key it meets, and by nothing else |
| TextCleaning.OneChangingEntry | plugins/builtin/text_cleaning/plugin.py:165-166 | between one-for-one entries, an entry with a one-character value shortens the text by its key's excess per match |
| TextCleaning.OneEntryLength | plugins/builtin/text_cleaning/plugin.py:166 | one replacement shortens the text by the key's excess over the value per match |
| TextCleaning.ReplaceTable | plugins/builtin/text_cleaning/plugin.py:165-166 | one table loop computes the table's replacements in order |
| TextCleaning.SettingsOf | plugins/builtin/text_cleaning/plugin.py:33-67 | the constructor succeeds exactly when the base class accepts the configuration under the plugin's schema; a switch is then on when its key is missing and follows the value's truth otherwise |
| TextCleaning.DefaultSettings | plugins/builtin/text_cleaning/plugin.py:56-67 | the empty configuration builds the plugin with every step on |
| TextCleaning.UnknownFieldRejected | src/subtitleformatter/plugins/base/plugin_base.py:53-56 | a field the schema does not name makes construction fail |
| TextCleaning.NonBoolSwitchRejected | plugins/builtin/text_cleaning/plugin.py:44-52 | a present switch that is not a `bool` makes construction fail |
| TextCleaning.OneBomRemoved | plugins/builtin/text_cleaning/plugin.py:156-158 | exactly one leading byte-order mark goes, and only when enabled: a second one stays in front |
| TextCleaning.CleanSingle | plugins/builtin/text_cleaning/plugin.py:141-152 | anything but a non-empty string comes back as it is; a non-empty string is cleaned |
| TextCleaning.ProcessValue | plugins/builtin/text_cleaning/plugin.py:122-139 | a disabled plugin returns its input; a list is cleaned item by item, keeping its length |
| TextCleaning.NormalizeSpacesFacts | plugins/builtin/text_cleaning/plugin.py:218-220 | after `_normalize_spaces` no two blanks stand together, and running it again changes nothing |
| TextCleaning.RStrippedFacts | plugins/builtin/text_cleaning/plugin.py:214-215 | the stripped lines keep their number, hold no line break and end in no whitespace |
| TextCleaning.CleanLineEndingsFacts | plugins/builtin/text_cleaning/plugin.py:212-216 | every line of `_clean_line_endings`' result ends in no whitespace |
| TextCleaning.CleanLineEndingsKeepsAbsent | plugins/builtin/text_cleaning/plugin.py:212-216 | `_clean_line_endings` creates no character but a line break |
| TextCleaning.SpacedKeepsAbsent | plugins/builtin/text_cleaning/plugin.py:181-201 | the whitespace block creates no character but a blank and a line break |
| TextCleaning.TidiedKeepsAbsent | plugins/builtin/text_cleaning/plugin.py:173-209 | steps 5 to 9 create no character but '.', a blank and a line break |
| TextCleaning.TabledFacts | plugins/builtin/text_cleaning/plugin.py:156-171 | steps 1 to 4 leave no '\r', and no full-width digit when the digit table runs |
| TextCleaning.CleanEmptyLinesFacts | plugins/builtin/text_cleaning/plugin.py:222-225 | after `_clean_empty_lines` the text is stripped and no two blank lines follow each other |
| TextCleaning.SliceKeepsOneBlank | plugins/builtin/text_cleaning/plugin.py:225 | every slice of a text without repeated blank lines has none either |
| TextCleaning.StripKeepsOneBlank | plugins/builtin/text_cleaning/plugin.py:225 | stripping keeps a text free of repeated blank lines |
| TextCleaning.CleanedFacts | plugins/builtin/text_cleaning/plugin.py:141-210 | whatever the switches, the cleaned text holds no '\r'; with the digit table on it holds no full-width digit; with blank-line cleaning on it is stripped and has no two blank lines in a row |
| TextCleaning.TextCleaningPlugin.constructor | plugins/builtin/text_cleaning/plugin.py:56-67 | for a configuration the base class accepts, the settings are read from it |
| TextCleaning.TextCleaningPlugin.ProcessSingleText | plugins/builtin/text_cleaning/plugin.py:141-210 | the method computes `CleanSingle` |
| TextCleaning.TextCleaningPlugin.Process | plugins/builtin/text_cleaning/plugin.py:122-139 | the method computes `ProcessValue` |
| TextCleaning.CleanerStats | src/subtitleformatter/core/text_cleaner.py:82-141 | the counter's keys are the ones assigned, `special_chars` only when a mark was removed |
| TextCleaning.UnixedLength | src/subtitleformatter/core/text_cleaner.py:91-93 | unifying line endings shortens the text by one for each "\r\n" |
| TextCleaning.TextCleanerProcess | src/subtitleformatter/core/text_cleaner.py:70-143 | `TextCleaner.process` cleans as the plugin does with every switch on; its counter holds the "\r\n" pairs, 34 per long punctuation key, no digit change, the spaces entry as the code computes it, and the blank lines removed |
| TextCleaning.CleanerMatchesPlugin | src/subtitleformatter/core/text_cleaner.py:70-143 | the old cleaner's text is the plugin's with every switch on, the empty string included |
| TextToSentences.EndChars | plugins/builtin/text_to_sentences/plugin.py:72-75 | the class built from the endings holds exactly their characters |
| TextToSentences.Strings | plugins/builtin/text_to_sentences/plugin.py:36-37 | a list gives its strings exactly when all its items are strings |
| TextToSentences.SettingsOf | plugins/builtin/text_to_sentences/plugin.py:52-76 | a configuration is accepted exactly when the base class's check passes, every ending is a string and the class of endings is non-empty; the abbreviation patterns are kept as given, strings or not; a flag is on when missing or true |
| TextToSentences.LeadingStrings | plugins/builtin/text_to_sentences/plugin.py:195-197 | the patterns the loop can compare are the string items before the first item that is not a string |
| TextToSentences.StrayPatternAccepted | plugins/builtin/text_to_sentences/plugin.py:32-67 | the configuration whose abbreviation patterns are `[1]` builds the plugin: the check only asks for a list |
| TextToSentences.StrayPatternValid | src/subtitleformatter/plugins/base/plugin_base.py:219-272 | that configuration passes the base class's check |
| TextToSentences.ValidatedFlags | plugins/builtin/text_to_sentences/plugin.py:32-50 | in a configuration that passed the check, every flag present is a `bool` |
| TextToSentences.DefaultSettings | plugins/builtin/text_to_sentences/plugin.py:57-64 | the empty configuration gives the defaults: '.', '!' and '?' end a sentence, the eight abbreviations, whitespace normalised, blank sentences removed, ellipses kept |
| TextToSentences.NoEndingsRejected | plugins/builtin/text_to_sentences/plugin.py:72-76 | an empty list of endings leaves the class empty, and the pattern does not compile |
| TextToSentences.NormalizeWsFacts | plugins/builtin/text_to_sentences/plugin.py:168-182 | the normalised text holds no line break and no two spaces in a row, and is stripped |
| TextToSentences.NormalizeKeepsAbsent | plugins/builtin/text_to_sentences/plugin.py:168-182 | normalising creates no character but a space |
| TextToSentences.EllipsisOnlyIff | plugins/builtin/text_to_sentences/plugin.py:205-223 | a text is ellipsis-only exactly when it is some dots with only whitespace around them |
| TextToSentences.BlankNoSentences | plugins/builtin/text_to_sentences/plugin.py:134-135 | a blank text gives no sentences |
| TextToSentences.SentencesArePieces | plugins/builtin/text_to_sentences/plugin.py:144-166 | every sentence is non-empty and stripped, and is one of the pieces the loop put together, stripped |
| TextToSentences.PiecesCoverText | plugins/builtin/text_to_sentences/plugin.py:142-166 | nothing but whitespace is lost: the pieces concatenate to the parts of the split, and the parts woven with the whitespace after each mark give back the text |
| TextToSentences.SentencesEndInEndings | plugins/builtin/text_to_sentences/plugin.py:147-166 | with endings that are not whitespace, every sentence but the last ends in an ending character |
| TextToSentences.NoEndingsOneSentence | plugins/builtin/text_to_sentences/plugin.py:69-76 | a text none of whose characters is followed by whitespace after an ending is one sentence, so "?" does not split when the endings are "." and "!" |
| TextToSentences.SentencesOfOne | plugins/builtin/text_to_sentences/plugin.py:162-164 | a text the split leaves whole is its own only sentence, stripped |
| TextToSentences.AbbreviationCheck | plugins/builtin/text_to_sentences/plugin.py:184-203 | the test fails only with the error `str.endswith` raises for a pattern that is not a string |
| TextToSentences.AbbreviationCheckIff | plugins/builtin/text_to_sentences/plugin.py:184-203 | the test raises exactly when a non-string pattern comes before every string pattern the text ends with; otherwise it answers as the test over the string patterns and the " X." rule |
| TextToSentences.DefaultsAreAbbreviations | plugins/builtin/text_to_sentences/plugin.py:184-203 | each default pattern is taken for an abbreviation |
| TextToSentences.NotAbbreviations | plugins/builtin/text_to_sentences/plugin.py:184-203 | "", "Mr" and "Hello." are not abbreviations |
| TextToSentences.Nonblank | plugins/builtin/text_to_sentences/plugin.py:114-115 | the blank filter keeps only members that are not blank |
| TextToSentences.NotEllipsis | plugins/builtin/text_to_sentences/plugin.py:118-119 | the ellipsis filter keeps only members that are not ellipsis-only |
| TextToSentences.NonblankOfSentences | plugins/builtin/text_to_sentences/plugin.py:114-115 | dropping blank sentences from the split's sentences changes nothing |
| TextToSentences.ProcessText | plugins/builtin/text_to_sentences/plugin.py:97-122 | anything but a non-empty string comes back as it is; a text fails exactly when its split raises, and only with the `endswith` error |
| TextToSentences.ProcessItems | plugins/builtin/text_to_sentences/plugin.py:92-93 | the list succeeds exactly when every item does, and is then the items processed one by one, in order; a failure carries the `endswith` error |
| TextToSentences.ProcessItemsSnoc | plugins/builtin/text_to_sentences/plugin.py:92-93 | one more item that is processed extends the processed prefix by its result |
| TextToSentences.ProcessItemsRaises | plugins/builtin/text_to_sentences/plugin.py:92-93 | an item that raises makes the whole list raise |
| TextToSentences.ProcessValue | plugins/builtin/text_to_sentences/plugin.py:78-95 | a disabled plugin returns its input; a list succeeds exactly when every item does and is then processed item by item; anything else is processed as one text |
| TextToSentences.ProcessedLines | plugins/builtin/text_to_sentences/plugin.py:110-122 | with the default filters, a processed text is its sentences joined by line breaks, or the `endswith` error when its split raises |
| TextToSentences.TextToSentencesPlugin.constructor | plugins/builtin/text_to_sentences/plugin.py:52-67 | the settings are those of the accepted configuration |
| TextToSentences.GatherChecked | plugins/builtin/text_to_sentences/plugin.py:144-160 | the loop as it runs fails only with the `endswith` error |
| TextToSentences.GatherCheckedAgrees | plugins/builtin/text_to_sentences/plugin.py:144-160 | the loop as it runs fails exactly when the test raises after some mark, and until then gathers the pieces of the loop over the string patterns |
| TextToSentences.GatherCheckedFails | plugins/builtin/text_to_sentences/plugin.py:147-160 | once the loop has raised it stays raised |
| TextToSentences.MarkCheck | plugins/builtin/text_to_sentences/plugin.py:150-155 | the test after a mark raises exactly when the loop raises there for the first time, and otherwise answers whether the piece ends in an abbreviation |
| TextToSentences.SplitResult | plugins/builtin/text_to_sentences/plugin.py:124-166 | the split fails only with the `endswith` error |
| TextToSentences.SplitResultSentences | plugins/builtin/text_to_sentences/plugin.py:124-166 | the split succeeds with the sentences `SplitText` describes, and fails exactly when the text is not blank and the test raises after one of the marks |
| TextToSentences.StringPatternsNeverRaise | plugins/builtin/text_to_sentences/plugin.py:184-203 | with every pattern a string, the split never raises |
| TextToSentences.StrayPatternUnreached | plugins/builtin/text_to_sentences/plugin.py:142-166 | with the patterns `[1]`, a text without endings is split without error into its one stripped line |
| TextToSentences.StrayPatternRaises | plugins/builtin/text_to_sentences/plugin.py:150-155 | with the patterns `[1]`, a text with a mark followed by whitespace makes the split raise |
| TextToSentences.StraySampleRaises | plugins/builtin/text_to_sentences/plugin.py:150-155 | with the default endings and the patterns `[1]`, "Hi. there" cannot be split |
| TextToSentences.TextToSentencesPlugin.CheckAbbreviation | plugins/builtin/text_to_sentences/plugin.py:184-203 | the loop over the configured patterns computes `AbbreviationCheck` |
| TextToSentences.TextToSentencesPlugin.SplitSentences | plugins/builtin/text_to_sentences/plugin.py:124-166 | the loop over the parts of the split computes `SplitResult`, raising where the test raises |
| TextToSentences.TextToSentencesPlugin.ProcessSingleText | plugins/builtin/text_to_sentences/plugin.py:97-122 | the method computes `ProcessText` |
| TextToSentences.TextToSentencesPlugin.ProcessList | plugins/builtin/text_to_sentences/plugin.py:92-93 | the list loop computes `ProcessItems` |
| TextToSentences.TextToSentencesPlugin.Process | plugins/builtin/text_to_sentences/plugin.py:78-95 | the method computes `ProcessValue` |
| SentenceParts.EndRunFacts | plugins/builtin/text_to_sentences/plugin.py:75 | the run of ending characters at the start is maximal |
| SentenceParts.MarkLenFacts | plugins/builtin/text_to_sentences/plugin.py:75 | a captured mark is made of ending characters and followed by whitespace |
| SentenceParts.FirstMatchFacts | plugins/builtin/text_to_sentences/plugin.py:142 | the search finds a match, and the leftmost one |
| SentenceParts.CutJoins | plugins/builtin/text_to_sentences/plugin.py:142 | a cut puts the text back together |
| SentenceParts.CutMark | plugins/builtin/text_to_sentences/plugin.py:142 | the mark of a cut is a non-empty run of ending characters |
| SentenceParts.CutGap | plugins/builtin/text_to_sentences/plugin.py:142 | the gap of a cut is non-empty whitespace |
| SentenceParts.SplitWeave | plugins/builtin/text_to_sentences/plugin.py:142 | `pattern.split` loses nothing but the gaps: one gap per mark, and weaving the gaps back in gives the text |
| SentenceParts.SplitGapsSpace | plugins/builtin/text_to_sentences/plugin.py:142 | every gap is non-empty whitespace |
| SentenceParts.SplitMarks | plugins/builtin/text_to_sentences/plugin.py:142 | every captured mark is a non-empty run of ending characters |
| SentenceParts.NoMatchOnePart | plugins/builtin/text_to_sentences/plugin.py:142 | without an ending character followed by whitespace, the split returns the text alone |
| SentenceParts.GatherCovers | plugins/builtin/text_to_sentences/plugin.py:144-160 | the closed sentences and the open one are the parts, in order, with nothing added or lost |
| SentenceParts.GatherClosed | plugins/builtin/text_to_sentences/plugin.py:150-160 | every closed sentence ends in its mark and was not taken for an abbreviation |
| SentenceParts.SentencesStripped | plugins/builtin/text_to_sentences/plugin.py:158-164 | the sentences are stripped and non-empty |
| SentenceParts.KeptFrom | plugins/builtin/text_to_sentences/plugin.py:158-164 | each kept sentence is the stripped form of some group |
| SentenceParts.SentencesEndInMarks | plugins/builtin/text_to_sentences/plugin.py:147-166 | with endings that are not whitespace, every sentence but the last ends in an ending character |
| SentenceParts.PartsKeepAbsent | plugins/builtin/text_to_sentences/plugin.py:142 | a character the text lacks is in no part of its split |
| SentenceParts.EndsInAnyIff | plugins/builtin/text_to_sentences/plugin.py:195-197 | the text ends in some pattern of the list exactly when the loop over the patterns finds one it ends with |
| SentenceParts.SentencesKeepAbsent | plugins/builtin/text_to_sentences/plugin.py:144-166 | a character no part holds is in no sentence |
| SentenceScript.SplitSentences | scripts/sentence_splitter/main.py:19-59 | the loop computes `SplitText`, in which every mark closes the sentence being built |
| SentenceScript.BlankNoSentences | scripts/sentence_splitter/main.py:29-30 | a blank text has no sentences |
| SentenceScript.UnbrokenHasNoBreaks | scripts/sentence_splitter/main.py:33 | the text the pattern sees has no line break |
| SentenceScript.SentencesAreLines | scripts/sentence_splitter/main.py:33-59 | no sentence holds a line break; every sentence is stripped and non-empty |
| SentenceScript.SentencesEndInMarksOfText | scripts/sentence_splitter/main.py:37-53 | every sentence but the last ends in '.', '!' or '?' |
| SentenceScript.EveryMarkCloses | scripts/sentence_splitter/main.py:45-53 | after n parts, each text part and the mark after it form one closed group, and only a text part with no mark after it is still open |
| SentenceScript.IsAbbreviationAt | scripts/sentence_splitter/main.py:61-86 | positions below 2 are never abbreviations; from 2 on, the check fails (an `IndexError`) exactly when the position is past the end |
| SentenceScript.PySliceAt | scripts/sentence_splitter/main.py:83 | the slice equals a non-empty pattern exactly when the pattern ends at the position |
| SentenceScript.IsAbbreviationAtIff | scripts/sentence_splitter/main.py:72-86 | a mark belongs to an abbreviation exactly when it follows a space and an upper-case letter, or ends one of the eight patterns |
| SentenceScript.MarkAlwaysCloses | scripts/sentence_splitter/main.py:37-53 | a text cut into a part, a mark and a last part splits after the mark even when that ends an abbreviation: the loop never consults `_is_abbreviation` |
| SentenceScript.MrIsAbbreviation | scripts/sentence_splitter/main.py:72-86 | the script's own check does take "Mr." in "Mr. Smith" for an abbreviation |
| SentenceScript.KeptTwo | scripts/sentence_splitter/main.py:51-57 | two lines already stripped and non-blank are kept as they are |
| SentenceScript.UnbrokenKeeps | scripts/sentence_splitter/main.py:33 | a text without line breaks is left as it is |
| Transcript.Decimal | plugins/builtin/transcript_converter/plugin.py:80 | a numeral is a non-empty run of digits, one digit long exactly below 10 |
| Transcript.ValueOfDecimal | plugins/builtin/transcript_converter/plugin.py:74-80 | reading a numeral back gives the number |
| Transcript.Pad2Reads | plugins/builtin/transcript_converter/plugin.py:80 | a `:02d` numeral has at least two digits, exactly two below 100, and reads back as the number |
| Transcript.MatchClockIff | plugins/builtin/transcript_converter/plugin.py:71 | `re.match(r"(\d+):(\d{2})")` matches exactly when some digit count does, and reads that one's minutes and seconds |
| Transcript.ClockIsJoin | plugins/builtin/transcript_converter/plugin.py:77-80 | the SRT clock is hours, minutes and seconds padded to two digits, joined by colons, with ",000" |
| Transcript.ClockRoundTrip | plugins/builtin/transcript_converter/plugin.py:76-80 | a clock reads back as the seconds it was made from |
| Transcript.ClockInjective | plugins/builtin/transcript_converter/plugin.py:76-80 | different seconds give different clocks |
| Transcript.StampRoundTrip | plugins/builtin/transcript_converter/plugin.py:71-75 | a timestamp written as minutes, a colon and two-digit seconds matches with those values |
| Transcript.ParseTimestamp | plugins/builtin/transcript_converter/plugin.py:61-80 | `_parse_timestamp` raises `ValueError` exactly when the text does not start with `m:ss` |
| Transcript.ParseTimestampReads | plugins/builtin/transcript_converter/plugin.py:61-80 | a parsed timestamp is the SRT clock of 60·minutes + seconds, so "65:30" gives "01:05:30,000" |
| Transcript.PluginEndTimeReads | plugins/builtin/transcript_converter/plugin.py:82-113 | with a parsing next timestamp the plugin ends there; without, it ends 3 s after the start, or at 3 s when the start does not parse either |
| Transcript.ScriptEndTimeReads | scripts/Transcript_converter/Transcript_converter.py:41-75 | the script ends at the next timestamp only when both parse, otherwise 3 s after the start or after 0 |
| Transcript.EndTimesAgree | scripts/Transcript_converter/Transcript_converter.py:53-69 | the two rules give the same end time except when the start does not parse and the next timestamp does (and is not 0:03) |
| Transcript.EndOfOwnStamp | plugins/builtin/transcript_converter/plugin.py:143 | a timestamp ends at itself under both rules |
| Transcript.Marks | plugins/builtin/transcript_converter/plugin.py:130 | for each line, whether it starts with a timestamp |
| Transcript.TextEnd | plugins/builtin/transcript_converter/plugin.py:134-136 | the first index at or after a start holding a timestamp, or the end |
| Transcript.Spans | plugins/builtin/transcript_converter/plugin.py:129-147 | every span the loop forms is a timestamp line with the text lines after it up to the next timestamp |
| Transcript.SubtitlesOf | plugins/builtin/transcript_converter/plugin.py:137-145 | the subtitles the spans make, one each, in order |
| Transcript.ParseSubtitleFile | plugins/builtin/transcript_converter/plugin.py:115-148 | the file's lines as text mode reads them (universal newlines), stripped and without blanks, are grouped into `Subtitles` |
| Transcript.CollectText | plugins/builtin/transcript_converter/plugin.py:134-136 | the inner loop collects the text lines from the start up to the next timestamp |
| Transcript.GroupLines | plugins/builtin/transcript_converter/plugin.py:127-148 | the outer loop computes `Subtitles` |
| Transcript.MakeSubtitle | plugins/builtin/transcript_converter/plugin.py:137-145 | a timestamp and its text lines give one subtitle |
| Transcript.GroupStep | plugins/builtin/transcript_converter/plugin.py:129-147 | one pass of the outer loop handles a timestamp with its text lines, or skips a line, and advances |
| Transcript.SubtitleTimes | plugins/builtin/transcript_converter/plugin.py:139-144 | a subtitle starts at its own timestamp and ends at the next one, or at its own when it is the last |
| Transcript.SubtitlesRuleFree | scripts/Transcript_converter/Transcript_converter.py:111-116 | the plugin's and the script's end-time rules never differ inside the grouping |
| Transcript.LeadingTextSkipped | plugins/builtin/transcript_converter/plugin.py:146-147 | text lines before the first timestamp are skipped |
| Transcript.SpanCount | plugins/builtin/transcript_converter/plugin.py:129-147 | there is one span per timestamp directly followed by a text line |
| Transcript.SpansCover | plugins/builtin/transcript_converter/plugin.py:129-147 | no text line after the first timestamp is lost or reordered: the spans' texts, joined by spaces, are those lines joined by spaces |
| Transcript.TextsCover | plugins/builtin/transcript_converter/plugin.py:129-148 | there is a subtitle exactly when a text line follows a timestamp, and the subtitles' texts, joined by spaces, are those text lines joined by spaces |
| Transcript.SubtitleCount | plugins/builtin/transcript_converter/plugin.py:129-148 | there is one subtitle per timestamp directly followed by a text line |
| Transcript.SubtitlesWellFormed | plugins/builtin/transcript_converter/plugin.py:137-145 | every subtitle has clocks that read back, and no field with a line break when no line has one |
| Transcript.UniversalNewlines | plugins/builtin/transcript_converter/plugin.py:125-126 | text mode reads `\r\n` and a lone `\r` as one newline: no carriage return is left, and the text does not grow |
| Transcript.UniversalNewlinesPlain | plugins/builtin/transcript_converter/plugin.py:125-126 | a file without carriage returns reads as it is stored |
| Transcript.FileLinesOneLine | plugins/builtin/transcript_converter/plugin.py:126 | the lines of a file hold no line break |
| TranscriptWriters.TerminatedJoin | plugins/builtin/transcript_converter/plugin.py:158-163 | text written as lines each ending in a newline is the lines joined by newlines, plus one final newline |
| TranscriptWriters.TerminatedReadBack | plugins/builtin/transcript_converter/plugin.py:158-163 | splitting the written text at its newlines gives the lines back, and an empty piece after the last newline |
| TranscriptWriters.SrtLines | plugins/builtin/transcript_converter/plugin.py:159-163 | the SRT file has four lines per subtitle |
| TranscriptWriters.SrtLinesAt | plugins/builtin/transcript_converter/plugin.py:159-163 | the k-th block (from 0) holds the number k + 1 and the k-th subtitle |
| TranscriptWriters.WriteSrt | plugins/builtin/transcript_converter/plugin.py:150-163 | the loop writes four lines per subtitle, numbered from 1 |
| TranscriptWriters.SrtStep | plugins/builtin/transcript_converter/plugin.py:160-163 | one pass of the loop appends its block's lines, terminated |
| TranscriptWriters.SrtBlockOneLine | plugins/builtin/transcript_converter/plugin.py:160-163 | no line of a block holds a line break when the subtitle's fields hold none |
| TranscriptWriters.SrtReadBack | plugins/builtin/transcript_converter/plugin.py:150-163 | read back line by line, the SRT file of one-line subtitles holds for the k-th the number k + 1, "start --> end", its text and a blank line, and nothing after the last block |
| TranscriptWriters.WriteTxt | plugins/builtin/transcript_converter/plugin.py:165-176 | the loop writes the stripped text of each subtitle whose text is not blank, one per line |
| TranscriptWriters.TxtStep | plugins/builtin/transcript_converter/plugin.py:174-176 | one pass of the loop appends the kept form of its subtitle's text |
| TranscriptWriters.TxtReadBack | plugins/builtin/transcript_converter/plugin.py:165-176 | read back line by line, the TXT file of one-line subtitles holds exactly the stripped non-blank texts, in order |
| TranscriptPlugin.OutputDirIsInjected | plugins/builtin/transcript_converter/plugin.py:38-50 | the output directory is not a key of the schema, so a configuration naming it is refused at construction |
| TranscriptPlugin.DefaultsAreOn | plugins/builtin/transcript_converter/plugin.py:52-59 | the empty configuration is accepted and enables the plugin and both outputs |
| Paths.LastIndex | plugins/builtin/transcript_converter/plugin.py:216 | the last index of a character, or −1, as `rfind` gives it |
| Paths.Basename | plugins/builtin/transcript_converter/plugin.py:216 | `os.path.basename` holds no '/' |
| Paths.Stem | plugins/builtin/transcript_converter/plugin.py:216 | `os.path.splitext(name)[0]` is a prefix of the name |
| Paths.StemDropsExtension | plugins/builtin/transcript_converter/plugin.py:216 | removing an extension without dots gives back what it was appended to |
| Paths.StemNotAllDots | plugins/builtin/transcript_converter/plugin.py:216 | a stem keeps a character that is not a dot when the name has one |
| Paths.BasenameOfJoin | plugins/builtin/transcript_converter/plugin.py:224 | the joined path's base name is the name joined |
| Paths.ParentOfJoin | plugins/builtin/transcript_converter/plugin.py:224 | a name joined to a normal directory lies in that directory |
| TranscriptPlugin.OutputDir | plugins/builtin/transcript_converter/plugin.py:207-212 | a truthy `_output_dir` names the directory (a non-string value fails), otherwise it is the input's own directory |
| TranscriptPlugin.ArtifactsNamed | plugins/builtin/transcript_converter/plugin.py:220-233 | one artifact per enabled format, SRT first, each in the output directory and named from the input's stem |
| Paths.StemOfBasename | plugins/builtin/transcript_converter/plugin.py:216 | the base name holds no '/' and, when the file name is not all dots, a character other than a dot |
| TranscriptPlugin.NamedArtifact | plugins/builtin/transcript_converter/plugin.py:224-229 | the stem of an artifact's name gives the base name back |
| TranscriptPlugin.WrittenArtifacts | plugins/builtin/transcript_converter/plugin.py:223-231 | each artifact is written, and nothing else is |
| TranscriptPlugin.TranscriptConverterPlugin.constructor | plugins/builtin/transcript_converter/plugin.py:52-59 | the configuration the base class accepts, with its three flags read |
| TranscriptPlugin.TranscriptConverterPlugin.SetOutputDir | plugins/builtin/transcript_converter/plugin.py:197 | the execution layer sets `_output_dir` and changes nothing else |
| TranscriptPlugin.TranscriptConverterPlugin.Process | plugins/builtin/transcript_converter/plugin.py:186-233 | nothing when disabled; a bad output directory fails; otherwise the parsed subtitles are written as SRT and TXT as the flags say, and the written paths are returned |
| TranscriptPlugin.IntendedOutputs | scripts/Transcript_converter/Transcript_converter.py:166-173 | the names as intended: only the final `.transcript` gives way to the new extension, and other names get one appended |
| TranscriptPlugin.IntendedOutputsSwapExtension | scripts/Transcript_converter/Transcript_converter.py:166-169 | swapping the extension back on the intended names gives the input |
| TranscriptPlugin.ScriptOutputsAgree | scripts/Transcript_converter/Transcript_converter.py:166-173 | when `.transcript` appears nowhere but at the end, the code and the intended naming agree |
| TranscriptPlugin.ScriptOutputsLeaveDirectory | scripts/Transcript_converter/Transcript_converter.py:166-169 | the script run on `notes.transcript/talk.transcript` names its SRT output `notes/talk.srt`, outside the input's directory |
| TranscriptPlugin.BothExtensionsRemoved | scripts/Transcript_converter/Transcript_converter.py:167 | `replace` removes the directory's `.transcript` as well as the file's |
| PunctuationAdder.SettingsOf | plugins/builtin/punctuation_adder/plugin.py:59-74 | the plugin is built exactly when the base class's check passes and all four keys are present (`self.config[...]` raises otherwise); each setting is the truth of its value |
| PunctuationAdder.EmptyConfigRejected | plugins/builtin/punctuation_adder/plugin.py:71-74 | with no defaults in the schema, the empty configuration cannot build the plugin |
| PunctuationAdder.FirstAlphaFrom | plugins/builtin/punctuation_adder/plugin.py:220-221 | the index of the first alphabetic character at or after a start, or −1 |
| PunctuationAdder.CapitalizedFacts | plugins/builtin/punctuation_adder/plugin.py:209-225 | only the first alphabetic character changes, to its upper case; a text without letters stays as it was |
| PunctuationAdder.CapitalizeFirstLetter | plugins/builtin/punctuation_adder/plugin.py:209-225 | the loop that returns at the first letter computes `Capitalized` |
| PunctuationAdder.SubSpacedDashes | plugins/builtin/punctuation_adder/plugin.py:244 | the substitution of `\s-\s` never lengthens the text |
| PunctuationAdder.SubLetterDashes | plugins/builtin/punctuation_adder/plugin.py:247 | the substitution after a letter keeps the length |
| PunctuationAdder.SpacedDashesIff | plugins/builtin/punctuation_adder/plugin.py:244 | the first substitution changes the text exactly when `\s-\s` occurs in it |
| PunctuationAdder.LetterDashesIff | plugins/builtin/punctuation_adder/plugin.py:247 | the second substitution changes the text exactly when a letter, '-' and whitespace occur in it |
| PunctuationAdder.LetterDashesHead | plugins/builtin/punctuation_adder/plugin.py:247 | the second substitution keeps the first character, and keeps the second or turns it into a comma |
| PunctuationAdder.LetterDashesGone | plugins/builtin/punctuation_adder/plugin.py:247 | after the second substitution no letter is followed by '-' and whitespace |
| PunctuationAdder.DashesKept | plugins/builtin/punctuation_adder/plugin.py:227-254 | a text in which every '-' followed by whitespace stands at the start or after a character that is neither whitespace nor a letter comes back unchanged |
| PunctuationAdder.SplitFrom | plugins/builtin/punctuation_adder/plugin.py:187 | `re.split` on whitespace after '.', '?' or '!' gives one piece more than removed runs |
| PunctuationAdder.SplitWeave | plugins/builtin/punctuation_adder/plugin.py:187 | putting the removed runs back between the pieces gives the text |
| PunctuationAdder.SplitGaps | plugins/builtin/punctuation_adder/plugin.py:187 | every removed run is non-empty whitespace |
| PunctuationAdder.SplitEnds | plugins/builtin/punctuation_adder/plugin.py:187 | every piece followed by a removed run ends in '.', '?' or '!' |
| PunctuationAdder.SplitUnbroken | plugins/builtin/punctuation_adder/plugin.py:187 | no piece holds a mark followed by whitespace: the split cuts at every break |
| PunctuationAdder.SplitSolid | plugins/builtin/punctuation_adder/plugin.py:187 | every piece after a removed run starts with something other than whitespace |
| PunctuationAdder.ProcessedLines | plugins/builtin/punctuation_adder/plugin.py:156-161 | the processed sentences kept are non-empty, in order |
| PunctuationAdder.ProcessedLinesStep | plugins/builtin/punctuation_adder/plugin.py:157-161 | one pass of the loop appends the processed sentence when it is not empty |
| PunctuationAdder.ProcessSentenceStripped | plugins/builtin/punctuation_adder/plugin.py:190-207 | a processed sentence is stripped |
| PunctuationAdder.ProcessedLinesStripped | plugins/builtin/punctuation_adder/plugin.py:156-161 | every line the sentences become is stripped |
| PunctuationAdder.FallbacksKeepInput | plugins/builtin/punctuation_adder/plugin.py:138-143 | a model that raises, a blank text and a value that is not a non-empty string all leave the input as it was |
| PunctuationAdder.AllOffStrips | plugins/builtin/punctuation_adder/plugin.py:145-169 | with every option off, a text comes back as the model's output stripped |
| PunctuationAdder.ProcessValue | plugins/builtin/punctuation_adder/plugin.py:123-126 | a list is mapped element by element; anything else is one text |
| PunctuationAdder.PunctuationAdderPlugin.constructor | plugins/builtin/punctuation_adder/plugin.py:59-78 | the settings are those of the accepted configuration, and the model is not loaded yet |
| PunctuationAdder.PunctuationAdderPlugin.LoadModel | plugins/builtin/punctuation_adder/plugin.py:80-104 | loading succeeds when the model was loaded or building it succeeds, and records that |
| PunctuationAdder.PunctuationAdderPlugin.ModelStatus | plugins/builtin/punctuation_adder/plugin.py:256-266 | the status is "loaded" exactly when the model is loaded |
| PunctuationAdder.PunctuationAdderPlugin.Cleanup | plugins/builtin/punctuation_adder/plugin.py:268-273 | the model is dropped and will be loaded again |
| PunctuationAdder.PunctuationAdderPlugin.ProcessSentences | plugins/builtin/punctuation_adder/plugin.py:156-161 | the loop computes `ProcessedLines` |
| PunctuationAdder.PunctuationAdderPlugin.ProcessSingleText | plugins/builtin/punctuation_adder/plugin.py:128-174 | the method computes `ProcessText` |
| PunctuationAdder.PunctuationAdderPlugin.Process | plugins/builtin/punctuation_adder/plugin.py:106-126 | a disabled plugin returns its input without loading the model; otherwise it fails exactly when the model cannot load, and processes the value |
| PunctuationAdder.PunctuationAdderPlugin.ProcessList | plugins/builtin/punctuation_adder/plugin.py:123-124 | the list loop processes each element on its own |
| FillerRemover.Bump | src/subtitleformatter/core/filler_remover.py:81-87 | `stats[key] += 1` raises that key's count by one and no other |
| FillerRemover.KeptIndicesFacts | src/subtitleformatter/core/filler_remover.py:76-114 | the kept words are the words at increasing kept positions: the output is a subsequence of the input words |
| FillerRemover.KeptPlusRemoved | src/subtitleformatter/core/filler_remover.py:76-114 | every word is either kept or counted once: the counts and the output add up to the input |
| FillerRemover.TallyCounts | src/subtitleformatter/core/filler_remover.py:76-114 | each key's statistic grows by exactly the number of words counted under it |
| FillerRemover.RepeatDropped | src/subtitleformatter/core/filler_remover.py:80-83 | a word equal, ignoring case, to the word after it is dropped and counted as a repeat |
| FillerRemover.FillerDropped | src/subtitleformatter/core/filler_remover.py:86-89 | a filler word that is not a repeat is dropped and counted under its lower-case form |
| FillerRemover.ContextWordRule | src/subtitleformatter/core/filler_remover.py:92-113 | other words are always kept; a context word is dropped exactly when its window matches a filler pattern and no valid pattern |
| FillerRemover.SpacedKeyNeverCounted | src/subtitleformatter/core/filler_remover.py:73-87 | a key holding whitespace is never counted, since words come from `sentence.split()` |
| FillerRemover.YouKnowNeverCounted | src/subtitleformatter/core/filler_remover.py:35 | the count under "you know" never changes |
| FillerRemover.ProcessedShorter | src/subtitleformatter/core/filler_remover.py:116-117 | every output sentence is non-empty and comes from an input sentence |
| FillerRemover.InitOutcome | src/subtitleformatter/core/filler_remover.py:17-19 | a configuration without `language` raises `KeyError` for it, one without `nlp` raises it for `nlp`, otherwise the Chinese tables are chosen exactly when the language is "zh" |
| FillerRemover.FillerRemover.constructor | src/subtitleformatter/core/filler_remover.py:9-54 | on a configuration that does not raise, `language` selects the Chinese or the English tables |
| FillerRemover.FillerRemover.RemoveFillers | src/subtitleformatter/core/filler_remover.py:73-114 | the scan of one sentence computes the kept words and the updated counts |
| FillerRemover.FillerRemover.Process | src/subtitleformatter/core/filler_remover.py:55-119 | `process` returns the cleaned sentences and the counts of what was removed |
| LineBreaker.JoinWidth | modules/line_breaker.py:78 | a line's width is its words' lengths plus one space between each two |
| LineBreaker.FitsWithin | modules/line_breaker.py:78-80 | adding a word to a line it fits keeps the line to the width |
| LineBreaker.GroupsFacts | modules/line_breaker.py:69-90 | the groups, flattened, are the words; every group has words and keeps to the width unless it is one word; a group ends only where the next word would overflow it |
| LineBreaker.JoinEachFlatten | modules/line_breaker.py:82-88 | joining the joined groups with spaces joins all their words with spaces |
| LineBreaker.WrapKeepsWords | modules/line_breaker.py:69-90 | `_simple_wrap` keeps every word in order |
| LineBreaker.WrapWidth | modules/line_breaker.py:69-90 | no wrapped line is empty, and each is at most the width long unless it is a single word of the sentence |
| LineBreaker.WrapGreedy | modules/line_breaker.py:78-85 | a line plus a space plus the next line's first word is wider than the width |
| LineBreaker.ShortSentencesKept | modules/line_breaker.py:32-34 | sentences that all fit come out unchanged, one per line |
| LineBreaker.LineBreaker.constructor | modules/line_breaker.py:7-19 | with smart wrapping off, only the width is kept |
| LineBreaker.LineBreaker.SimpleWrap | modules/line_breaker.py:69-90 | the loop computes `WrapLines` |
| LineBreaker.LineBreaker.Process | modules/line_breaker.py:21-43 | the lines of every sentence, joined by line breaks |
| ConfigStateModel.ConfigState.constructor | src/subtitleformatter/config/config_state.py:15-20 | everything starts empty, clean and without a path |
| ConfigStateModel.ConfigState.LoadFromSaved | src/subtitleformatter/config/config_state.py:22-28 | working, saved and snapshot all become the loaded configuration; clean, with the given path |
| ConfigStateModel.ConfigState.UpdateWorkingConfig | src/subtitleformatter/config/config_state.py:30-33 | only the working configuration changes, and it is marked unsaved |
| ConfigStateModel.ConfigState.SaveWorkingConfig | src/subtitleformatter/config/config_state.py:35-40 | the working configuration becomes the saved one and is clean; the path changes only when one is given |
| ConfigStateModel.ConfigState.RestoreFromSnapshot | src/subtitleformatter/config/config_state.py:42-46 | working and saved both return to the snapshot, clean |
| ConfigStateModel.ConfigState.CreateSnapshot | src/subtitleformatter/config/config_state.py:48-50 | the snapshot takes the saved configuration; nothing else moves |
| ConfigStateModel.ConfigState.HasUnsavedChanges | src/subtitleformatter/config/config_state.py:64-66 | the dirty flag; when false the working configuration is the saved one |
| ConfigStateModel.ConfigState.Reset | src/subtitleformatter/config/config_state.py:68-73 | all three configurations are emptied, clean, with no path |
| ConfigStateModel.EditThenRestore | src/subtitleformatter/config/config_state.py:30-50 | any edit followed by a restore brings working and saved back to the snapshot taken before the edit, with nothing unsaved |
| DependencyInjection.DependencyContainer.constructor | src/subtitleformatter/plugins/manager/dependency_injection.py:25-30 | all registries start empty |
| DependencyInjection.DependencyContainer.RegisterSingleton | src/subtitleformatter/plugins/manager/dependency_injection.py:32-42 | the instance goes into services and singletons alike; nothing else changes |
| DependencyInjection.DependencyContainer.RegisterFactory | src/subtitleformatter/plugins/manager/dependency_injection.py:44-53 | the factory is registered; nothing else changes |
| DependencyInjection.DependencyContainer.RegisterAlias | src/subtitleformatter/plugins/manager/dependency_injection.py:55-64 | the alias is registered; nothing else changes |
| DependencyInjection.DependencyContainer.Get | src/subtitleformatter/plugins/manager/dependency_injection.py:66-96 | fails with `KeyError` exactly when `has` is false; a factory runs only when no singleton of that name exists yet and its product is cached, so what every name resolves to stays the same |
| DependencyInjection.DependencyContainer.GetTyped | src/subtitleformatter/plugins/manager/dependency_injection.py:98-116 | succeeds exactly when the name resolves to an object of the expected type, and returns it |
| DependencyInjection.DependencyContainer.Provided | src/subtitleformatter/plugins/manager/dependency_injection.py:66-96 | the objects `get` hands out, for exactly the given names that `has` accepts |
| DependencyInjection.DependencyContainer.Remove | src/subtitleformatter/plugins/manager/dependency_injection.py:145-164 | the resolved name leaves all three registries, and so does every alias pointing to it; other registrations stay |
| DependencyInjection.DependencyContainer.Clear | src/subtitleformatter/plugins/manager/dependency_injection.py:166-172 | all registries are emptied |
| DependencyInjection.DependencyInjector.constructor | src/subtitleformatter/plugins/manager/dependency_injection.py:183-190 | the injector keeps its container |
| DependencyInjection.DependencyInjector.InjectInto | src/subtitleformatter/plugins/manager/dependency_injection.py:192-218 | the target's new state is its old state with exactly the objects `get` hands out for the asked-for names the container has: all of them through a setter, else only onto attributes it already has; no registration changes, the container answers every name as before, and each such dependency the target can take is delivered |
| DependencyInjection.DependencyInjector.InjectEach | src/subtitleformatter/plugins/manager/dependency_injection.py:205-218 | after the loop the target holds its old entries updated with the provided object of every listed name the container has, and nothing else |
| DependencyInjection.DependencyInjector.InjectOne | src/subtitleformatter/plugins/manager/dependency_injection.py:206-218 | one step delivers the named dependency when the container has it, and changes nothing else |
| DependencyInjection.DependencyInjector.InjectIntoPlugin | src/subtitleformatter/plugins/manager/dependency_injection.py:220-232 | the same new state as `inject_into` over the plugin's declared dependencies when it lists any, otherwise over every service |
| DependencyInjection.InjectionDelivers | src/subtitleformatter/plugins/manager/dependency_injection.py:206-218 | injecting delivers every provided name the target can take, with the provided object |
| DependencyInjection.InjectionOnlyProvided | src/subtitleformatter/plugins/manager/dependency_injection.py:206-218 | injecting creates no attribute and leaves every entry outside the provided names as it was |
| DependencyInjection.InjectionIdempotent | src/subtitleformatter/plugins/manager/dependency_injection.py:192-218 | injecting the same objects a second time changes nothing more |
| DependencyInjection.SeqOfSet | src/subtitleformatter/plugins/manager/dependency_injection.py:133-143 | `list_services` lists exactly the registered names |
| PluginEvents.NewEvent | src/subtitleformatter/plugins/manager/plugin_events.py:23-35 | an event carries its name, data and source |
| PluginEvents.RemoveFirst | src/subtitleformatter/plugins/manager/plugin_events.py:86-108 | `list.remove` takes out one occurrence when there is one, and otherwise nothing |
| PluginEvents.RemoveFirstCuts | src/subtitleformatter/plugins/manager/plugin_events.py:86-108 | removing cuts exactly the first occurrence out of the list |
| PluginEvents.RecordedBounded | src/subtitleformatter/plugins/manager/plugin_events.py:124-127 | a history within its bound stays within it, and the new event is always its newest entry |
| PluginEvents.Invocations | src/subtitleformatter/plugins/manager/plugin_events.py:129-142 | the handlers are called on the event one after the other, in order |
| PluginEvents.Named | src/subtitleformatter/plugins/manager/plugin_events.py:208-209 | the name filter keeps exactly the events of that name, in history order |
| PluginEvents.TailSlice | src/subtitleformatter/plugins/manager/plugin_events.py:211-212 | Python's `events[-limit:]` for positive, zero and negative limits |
| PluginEvents.History | src/subtitleformatter/plugins/manager/plugin_events.py:195-214 | filtered by name when one is given, then cut to the last `limit` when that is non-zero |
| PluginEvents.HistoryIsSuffix | src/subtitleformatter/plugins/manager/plugin_events.py:195-214 | the last `limit` events of a name are a suffix of that name's events |
| PluginEvents.PluginEventSystem.constructor | src/subtitleformatter/plugins/manager/plugin_events.py:54-60 | no handlers, an empty history of at most 1000 events, enabled |
| PluginEvents.PluginEventSystem.RegisterHandler | src/subtitleformatter/plugins/manager/plugin_events.py:62-74 | the handler is appended after the event's earlier handlers, duplicates included |
| PluginEvents.PluginEventSystem.RegisterWildcardHandler | src/subtitleformatter/plugins/manager/plugin_events.py:76-84 | the handler is appended to the wildcard handlers |
| PluginEvents.PluginEventSystem.UnregisterHandler | src/subtitleformatter/plugins/manager/plugin_events.py:86-97 | the first registration of that handler goes; otherwise nothing changes |
| PluginEvents.PluginEventSystem.UnregisterWildcardHandler | src/subtitleformatter/plugins/manager/plugin_events.py:99-108 | the first wildcard registration of that handler goes |
| PluginEvents.PluginEventSystem.Emit | src/subtitleformatter/plugins/manager/plugin_events.py:110-144 | nothing while disabled; otherwise the event is recorded and handed to the event's handlers in order, then to the wildcard handlers |
| PluginEvents.PluginEventSystem.CallAll | src/subtitleformatter/plugins/manager/plugin_events.py:131-142 | each handler is called once, in list order |
| PluginEvents.PluginEventSystem.GetEventHistory | src/subtitleformatter/plugins/manager/plugin_events.py:195-214 | every event returned is in the history |
| PluginEvents.PluginEventSystem.ClearEventHistory | src/subtitleformatter/plugins/manager/plugin_events.py:216-219 | the history is emptied, nothing else changes |
| PluginEvents.PluginEventSystem.ListRegisteredEvents | src/subtitleformatter/plugins/manager/plugin_events.py:221-228 | every name ever given a handler, even one whose list emptied again |
| PluginEvents.PluginEventSystem.GetHandlerCount | src/subtitleformatter/plugins/manager/plugin_events.py:230-240 | zero for an event never registered, otherwise the length of its list |
| PluginEvents.PluginEventSystem.Enable | src/subtitleformatter/plugins/manager/plugin_events.py:242-245 | the system is enabled, nothing else changes |
| PluginEvents.PluginEventSystem.Disable | src/subtitleformatter/plugins/manager/plugin_events.py:247-250 | the system is disabled, nothing else changes |
| PluginEvents.PluginEventSystem.SetMaxHistory | src/subtitleformatter/plugins/manager/plugin_events.py:261-270 | only the bound changes; a longer history is not cut down |
| PluginEvents.PluginEventBus.constructor | src/subtitleformatter/plugins/manager/plugin_events.py:280-290 | the bus keeps its system and plugin name and has listened to nothing |
| PluginEvents.PluginEventBus.Emit | src/subtitleformatter/plugins/manager/plugin_events.py:292-300 | the system's `emit` with the plugin as source |
| PluginEvents.PluginEventBus.Listen | src/subtitleformatter/plugins/manager/plugin_events.py:312-322 | the handler is registered with the system and the name remembered |
| PluginEvents.PluginEventBus.ListenToAll | src/subtitleformatter/plugins/manager/plugin_events.py:324-332 | the handler is registered as a wildcard handler |
| PluginEvents.PluginEventBus.StopListening | src/subtitleformatter/plugins/manager/plugin_events.py:334-344 | the handler is unregistered and the name forgotten, even if other handlers of it remain |
| PluginEvents.PluginEventBus.Cleanup | src/subtitleformatter/plugins/manager/plugin_events.py:346-351 | only the bus's own record is emptied; the handlers stay registered with the system |
| ManagerConfig.UnknownTypePasses | src/subtitleformatter/plugins/manager/plugin_config.py:233-234 | a value checked against a type name outside the six known ones always passes |
| ManagerConfig.BoolIsInteger | src/subtitleformatter/plugins/manager/plugin_config.py:224-237 | a boolean passes as "integer" and as "number", because a Python bool is an int; an integer does not pass as "boolean" |
| ManagerConfig.RequiredErrors | src/subtitleformatter/plugins/manager/plugin_config.py:198-201 | at most one error per required field |
| ManagerConfig.PropertyErrors | src/subtitleformatter/plugins/manager/plugin_config.py:204-209 | at most one error per declared property |
| ManagerConfig.RequiredErrorsEmpty | src/subtitleformatter/plugins/manager/plugin_config.py:198-201 | no required-field error exactly when every required field is present |
| ManagerConfig.PropertyErrorsEmpty | src/subtitleformatter/plugins/manager/plugin_config.py:204-209 | no type error exactly when no present property has a value of the wrong type |
| ManagerConfig.SchemaErrorsEmptyIff | src/subtitleformatter/plugins/manager/plugin_config.py:174-211 | a configuration passes the schema exactly when every required field is present and every present typed property has the right type |
| ManagerConfig.RequiredReported | src/subtitleformatter/plugins/manager/plugin_config.py:198-201 | a missing required field is reported with its name |
| ManagerConfig.MergeAbsorbsBase | src/subtitleformatter/plugins/manager/plugin_config.py:151-172 | merging the base again under an already merged dictionary changes nothing |
| ManagerConfig.NormalizeIdempotent | src/subtitleformatter/plugins/manager/plugin_config.py:262-275 | normalising an already normalised configuration changes nothing |
| ManagerConfig.PluginConfigManager.constructor | src/subtitleformatter/plugins/manager/plugin_config.py:27-38 | a new manager has no configurations, no defaults and no schema |
| ManagerConfig.PluginConfigManager.GetPluginConfig | src/subtitleformatter/plugins/manager/plugin_config.py:95-106 | the stored configuration, or the empty one for an unknown plugin |
| ManagerConfig.PluginConfigManager.SetPluginConfig | src/subtitleformatter/plugins/manager/plugin_config.py:107-117 | only that plugin's configuration is replaced |
| ManagerConfig.PluginConfigManager.MergeConfigs | src/subtitleformatter/plugins/manager/plugin_config.py:151-172 | the result has the keys of both; the override wins, except that two dictionaries under one key are merged recursively |
| ManagerConfig.PluginConfigManager.ValidatePluginConfig | src/subtitleformatter/plugins/manager/plugin_config.py:174-211 | nothing is reported without a schema (given or stored); otherwise the missing required fields, then the properties of the wrong type |
| ManagerConfig.PluginConfigManager.SetDefaultConfig | src/subtitleformatter/plugins/manager/plugin_config.py:239-249 | only that plugin's defaults are replaced |
| ManagerConfig.PluginConfigManager.GetDefaultConfig | src/subtitleformatter/plugins/manager/plugin_config.py:250-261 | the stored defaults, or the empty dictionary |
| ManagerConfig.PluginConfigManager.NormalizeConfig | src/subtitleformatter/plugins/manager/plugin_config.py:262-275 | every default key is present and every non-dictionary setting of the configuration wins |
| ManagerConfig.PluginConfigManager.GetEnabledPlugins | src/subtitleformatter/plugins/manager/plugin_config.py:343-357 | exactly the configurations whose "enabled" is absent or truthy, unchanged |
| ManagerConfig.PluginConfigManager.ListPluginConfigs | src/subtitleformatter/plugins/manager/plugin_config.py:358-366 | exactly the names of the stored configurations |
| ManagerConfig.PluginConfigManager.RemovePluginConfig | src/subtitleformatter/plugins/manager/plugin_config.py:367-377 | only that plugin's entry is removed; the defaults stay |
| ManagerConfig.PluginConfigManager.ClearAllConfigs | src/subtitleformatter/plugins/manager/plugin_config.py:378-381 | every configuration is removed; the defaults stay |
| OrderConfig.StringsRoundTrip | src/subtitleformatter/plugins/manager/plugin_config_manager.py:109-117 | a list of plugin names stored as a list of strings reads back as the same names |
| OrderConfig.LoadedFrom | src/subtitleformatter/plugins/manager/plugin_config_manager.py:73-76 | the loaded configurations are exactly the dictionaries under names other than "order" |
| OrderConfig.LoadedStep | src/subtitleformatter/plugins/manager/plugin_config_manager.py:74-76 | one more key of the section adds at most that key's configuration |
| OrderConfig.SavedPlugins | src/subtitleformatter/plugins/manager/plugin_config_manager.py:185-194 | the saved section keeps its old keys and gains "order" and every configuration |
| OrderConfig.SaveLoadRoundTrip | src/subtitleformatter/plugins/manager/plugin_config_manager.py:175-197 | saving into a main configuration and loading it back restores the stored order, whatever value it is, and every configuration, unless a plugin is named "order" |
| OrderConfig.OrderNamedPluginClobbersOrder | src/subtitleformatter/plugins/manager/plugin_config_manager.py:190-194 | a configuration saved under the name "order" overwrites the order: that configuration loads back in its place, and it is not a list of plugin names |
| OrderConfig.CorrectedSaveKeepsOrder | src/subtitleformatter/plugins/manager/plugin_config_manager.py:175-196 | with the order written after the configurations, loading back always restores the order and every configuration of a plugin not named "order" |
| OrderConfig.EnabledIn | src/subtitleformatter/plugins/manager/plugin_config_manager.py:138-142 | the enabled names of the order, nothing else, never more than the order |
| OrderConfig.UnconfiguredIsEnabled | src/subtitleformatter/plugins/manager/plugin_config_manager.py:128-129 | a plugin of the order without a configuration counts as enabled |
| OrderConfig.ValidatePluginConfig | src/subtitleformatter/plugins/manager/plugin_config_manager.py:144-173 | at most one error; none exactly when the configuration is a dictionary whose "enabled" is present and a bool |
| OrderConfig.EntryOf | src/subtitleformatter/plugins/manager/plugin_config_manager.py:267-288 | an unconfigured plugin is summarised as enabled with no keys; otherwise its "enabled" value and its keys |
| OrderConfig.PluginConfigManager.constructor | src/subtitleformatter/plugins/manager/plugin_config_manager.py:27-38 | a new manager has no configurations, no defaults and an empty order |
| OrderConfig.PluginConfigManager.LoadPluginConfig | src/subtitleformatter/plugins/manager/plugin_config_manager.py:39-61 | without a file, the stored configuration, else the default, else the empty one |
| OrderConfig.PluginConfigManager.LoadFromMainConfig | src/subtitleformatter/plugins/manager/plugin_config_manager.py:62-77 | fails, changing nothing, exactly when "plugins" is not a dictionary; otherwise the order becomes whatever `plugins.order` holds (the empty list when absent) and the dictionaries under other names are added |
| OrderConfig.PluginConfigManager.LoadSection | src/subtitleformatter/plugins/manager/plugin_config_manager.py:73-76 | the loop adds exactly the section's loaded configurations and leaves the order |
| OrderConfig.PluginConfigManager.GetPluginOrder | src/subtitleformatter/plugins/manager/plugin_config_manager.py:78-86 | the stored order when it is a list or a dictionary; any other value has no `.copy()` and raises |
| OrderConfig.PluginConfigManager.GetPluginConfig | src/subtitleformatter/plugins/manager/plugin_config_manager.py:87-98 | the stored configuration, or the empty one |
| OrderConfig.PluginConfigManager.SetPluginConfig | src/subtitleformatter/plugins/manager/plugin_config_manager.py:99-108 | only that plugin's configuration is replaced |
| OrderConfig.PluginConfigManager.SetPluginOrder | src/subtitleformatter/plugins/manager/plugin_config_manager.py:109-117 | only the order is replaced, and it reads back as the given plugin names |
| OrderConfig.PluginConfigManager.IsPluginEnabled | src/subtitleformatter/plugins/manager/plugin_config_manager.py:118-130 | the configuration's "enabled" value, true when absent |
| OrderConfig.PluginConfigManager.GetEnabledPlugins | src/subtitleformatter/plugins/manager/plugin_config_manager.py:131-143 | for an order of plugin names, those the enabled test passes, order kept |
| OrderConfig.PluginConfigManager.EnabledOf | src/subtitleformatter/plugins/manager/plugin_config_manager.py:138-142 | the loop keeps exactly the enabled names, in order |
| OrderConfig.PluginConfigManager.SaveToMainConfig | src/subtitleformatter/plugins/manager/plugin_config_manager.py:175-197 | fails exactly when "plugins" is present but not a dictionary; otherwise the main configuration with the saved section |
| OrderConfig.PluginConfigManager.SaveSection | src/subtitleformatter/plugins/manager/plugin_config_manager.py:193-194 | the loop writes every configuration into the section over what was there |
| OrderConfig.PluginConfigManager.ImportPluginConfig | src/subtitleformatter/plugins/manager/plugin_config_manager.py:221-246 | a configuration is stored exactly when it validates; otherwise the joined errors are reported and nothing changes |
| OrderConfig.PluginConfigManager.GetPluginConfigSummary | src/subtitleformatter/plugins/manager/plugin_config_manager.py:267-288 | for an order of plugin names: the stored order, the enabled plugins, and an entry for exactly the plugins of the order |
| OrderConfig.PluginConfigManager.ResetPluginConfig | src/subtitleformatter/plugins/manager/plugin_config_manager.py:289-300 | only that plugin's configuration goes; the order stays |
| OrderConfig.PluginConfigManager.ResetAllPluginConfigs | src/subtitleformatter/plugins/manager/plugin_config_manager.py:301-305 | no configurations; a list or dictionary order is emptied, and any other order raises and stays |
| SchemaConfig.Messages | src/subtitleformatter/plugins/base/plugin_config.py:64-81 | one text per error, in the same order |
| SchemaConfig.MessagesAppend | src/subtitleformatter/plugins/base/plugin_config.py:59-83 | the texts of two error lists appended are the two lists of texts appended |
| SchemaConfig.RaisedErrorsEmpty | src/subtitleformatter/plugins/base/plugin_config.py:75-81 | the validator loop reports nothing exactly when no validator of a present field raises |
| SchemaConfig.ReportedEmptyIff | src/subtitleformatter/plugins/base/plugin_config.py:49-83 | `validate` passes a configuration exactly when its required fields are present, its present typed fields have their types and no validator of a present field raises; what a validator returns does not matter |
| SchemaConfig.CollectRaised | src/subtitleformatter/plugins/base/plugin_config.py:75-81 | the loop collects one error per present field whose validator raises, in order |
| SchemaConfig.ValidateSchema | src/subtitleformatter/plugins/base/plugin_config.py:49-83 | the missing fields, then the wrong types, then the raising validators, each error as its text |
| SchemaConfig.ApplySchemaDefaults | src/subtitleformatter/plugins/base/plugin_config.py:85-102 | a copy of the configuration with every absent default added and every present value kept |
| SchemaConfig.DefaultsStep | src/subtitleformatter/plugins/base/plugin_config.py:97-100 | one more default lands only where its key is still absent |
| SchemaConfig.Positive | src/subtitleformatter/plugins/base/plugin_config.py:310-311 | an integer gives whether it is above zero; a value that cannot be compared raises |
| SchemaConfig.PositiveNeverReported | src/subtitleformatter/plugins/base/plugin_config.py:75-81 | as written, a positivity validator never produces an error for an integer field |
| SchemaConfig.RaisedNamesRaising | src/subtitleformatter/plugins/base/plugin_config.py:75-81 | every reported validator error names a present field whose validator raises |
| SchemaConfig.NegativeBatchSizeAccepted | src/subtitleformatter/plugins/base/plugin_config.py:293-322 | as written, the punctuation-adder schema passes a batch size of -1 |
| SchemaConfig.NonPositiveRejected | src/subtitleformatter/plugins/base/plugin_config.py:310-311 | when a returned `False` counts as a failure, every non-positive integer a positivity validator guards is rejected |
| SchemaConfig.ValidatorRejects | src/subtitleformatter/plugins/base/plugin_config.py:75-81 | when a returned `False` counts as a failure, a validator returning `False` on a present field is reported |
| SchemaConfig.NegativeBatchSizeRejected | src/subtitleformatter/plugins/base/plugin_config.py:293-322 | with that correction the batch size of -1 is rejected |
| SchemaConfig.PluginConfigManager.constructor | src/subtitleformatter/plugins/base/plugin_config.py:123-127 | a new manager has no schemas and no configurations |
| SchemaConfig.PluginConfigManager.RegisterSchema | src/subtitleformatter/plugins/base/plugin_config.py:128-137 | only that plugin's schema is replaced |
| SchemaConfig.PluginConfigManager.ValidateConfig | src/subtitleformatter/plugins/base/plugin_config.py:174-189 | no errors without a schema; otherwise one text per error the schema's `validate` reports, in order (a validator returning `False` adds none) |
| SchemaConfig.PluginConfigManager.ValidateConfigCorrected | src/subtitleformatter/plugins/base/plugin_config.py:174-189 | the evidently intended check: one text per error when a validator returning `False` also counts as a failure |
| SchemaConfig.PluginConfigManager.ApplyDefaults | src/subtitleformatter/plugins/base/plugin_config.py:191-206 | the configuration unchanged without a schema; otherwise every present value kept and exactly the schema's default keys added |
| SchemaConfig.PluginConfigManager.GetConfig | src/subtitleformatter/plugins/base/plugin_config.py:208-219 | the stored configuration exactly when there is one, else `None` |
| SchemaConfig.PluginConfigManager.SetConfig | src/subtitleformatter/plugins/base/plugin_config.py:220-229 | only that plugin's configuration is replaced |
| SchemaConfig.PluginConfigManager.ConfigToSave | src/subtitleformatter/plugins/base/plugin_config.py:230-246 | the configuration to write exactly when one is stored; otherwise the "No configuration found" error |
| SchemaConfig.PluginConfigManager.ListPluginsWithConfigs | src/subtitleformatter/plugins/base/plugin_config.py:247-250 | exactly the plugins with a stored configuration |
| SchemaConfig.PluginConfigManager.ClearConfig | src/subtitleformatter/plugins/base/plugin_config.py:251-254 | only that plugin's configuration goes, whether or not it was there |
| SchemaConfig.PluginConfigManager.ClearAllConfigs | src/subtitleformatter/plugins/base/plugin_config.py:255-258 | every configuration goes; the schemas stay |
| SchemaConfig.PluginConfigManager.RegisterStandardSchemas | src/subtitleformatter/plugins/base/plugin_config.py:384-395 | the four built-in plugins get their standard schemas; nothing else changes |
| SchemaConfig.ValidateConfigIff | src/subtitleformatter/plugins/base/plugin_config.py:174-189 | with a schema, `validate_config` passes a configuration exactly when its required fields are present, its typed fields have their types and no validator of a present field raises |
| SchemaConfig.ValidateConfigCorrectedIff | src/subtitleformatter/plugins/base/plugin_config.py:174-189 | the corrected check passes exactly when, in addition, every validator of a present field accepts |
| SchemaConfig.ManagerNegativeBatchSize | src/subtitleformatter/plugins/base/plugin_config.py:293-322 | with the standard punctuation-adder schema registered, `validate_config` passes a batch size of -1 and the corrected check refuses it |
| SchemaConfig.NoSchemaPassesThrough | src/subtitleformatter/plugins/base/plugin_config.py:185-186 | a plugin without a schema passes any configuration, under either check, and defaults leave it unchanged |
| PluginBase.MissingErrorsEmpty | src/subtitleformatter/plugins/base/plugin_base.py:232-235 | no missing-field error exactly when every required field is present |
| PluginBase.TypeErrorsEmpty | src/subtitleformatter/plugins/base/plugin_base.py:238-245 | no type error exactly when every present typed field has its type |
| PluginBase.ValidatorErrorsEmpty | src/subtitleformatter/plugins/base/plugin_base.py:248-256 | no validator error exactly when every validator of a present field returns something other than `False` without raising |
| PluginBase.ValidateIff | src/subtitleformatter/plugins/base/plugin_base.py:219-272 | the check raises exactly when the configuration misses a required field, has a field of the wrong type, has a value a validator refuses, or has a field outside the schema |
| PluginBase.UnknownReported | src/subtitleformatter/plugins/base/plugin_base.py:259-271 | a field outside the schema makes the check raise and is listed among the invalid fields |
| PluginBase.MissingReported | src/subtitleformatter/plugins/base/plugin_base.py:233-235 | an absent required field is reported as missing |
| PluginBase.WithDefaults | src/subtitleformatter/plugins/base/plugin_base.py:209-217 | present fields keep their values, absent fields take the schema's default, and no other key appears |
| PluginBase.WithDefaultsIdempotent | src/subtitleformatter/plugins/base/plugin_base.py:209-217 | applying the defaults a second time changes nothing |
| PluginBase.Construct | src/subtitleformatter/plugins/base/plugin_base.py:42-56 | without a schema the configuration (or the empty one) is kept; with one, construction succeeds exactly when the check passes, and the kept configuration is completed with the defaults |
| PluginBase.DefaultDoesNotSatisfyRequired | src/subtitleformatter/plugins/base/plugin_base.py:53-56 | the check runs before the defaults are applied, so a required field with a default must still be supplied |
| PluginBase.ValidatePassesPublicCheck | src/subtitleformatter/plugins/base/plugin_base.py:140-150 | a configuration that passes the constructor's check passes the public `validate_config` |
| PluginBase.CollectMissing | src/subtitleformatter/plugins/base/plugin_base.py:232-235 | the first loop collects exactly the missing-field errors, in order |
| PluginBase.CollectTypeErrors | src/subtitleformatter/plugins/base/plugin_base.py:238-245 | the second loop collects exactly the type errors, in order |
| PluginBase.CollectValidatorErrors | src/subtitleformatter/plugins/base/plugin_base.py:248-256 | the third loop collects one error per present field whose validator returns `False` or raises |
| PluginBase.CollectUnknown | src/subtitleformatter/plugins/base/plugin_base.py:259-265 | the last loop finds exactly the fields outside the allowed set |
| PluginBase.ValidateConfig | src/subtitleformatter/plugins/base/plugin_base.py:219-272 | the loops in order lead to the exception the check specifies, or none |
| PluginBase.ErrorText | src/subtitleformatter/plugins/base/plugin_base.py:291-297 | an error with neither plugin name nor code reads as its bare message |
| PluginBase.ErrorTextShape | src/subtitleformatter/plugins/base/plugin_base.py:291-297 | the text is the bracketed plugin name if any, the message, then the code in parentheses if any |
| PluginBase.InitializationError | src/subtitleformatter/plugins/base/plugin_base.py:300-305 | the error carries the code INIT_ERROR, the message and the plugin name |
| PluginBase.ConfigurationError | src/subtitleformatter/plugins/base/plugin_base.py:308-313 | the error carries the code CONFIG_ERROR, the message and the plugin name |
| PluginBase.DependencyError | src/subtitleformatter/plugins/base/plugin_base.py:316-321 | the error carries the code DEPENDENCY_ERROR, the message and the plugin name |
| PluginBase.ProcessingError | src/subtitleformatter/plugins/base/plugin_base.py:324-330 | the error carries the code PROCESSING_ERROR, the message and the plugin name |
| PluginBase.CodedErrorEnds | src/subtitleformatter/plugins/base/plugin_base.py:295-297 | the text of every coded error ends with its code in parentheses |
| PluginBase.Mapped | src/subtitleformatter/plugins/base/plugin_base.py:59-75 | one result per input item |
| PluginBase.MappedAppend | src/subtitleformatter/plugins/base/plugin_base.py:59-75 | processing item by item distributes over appending |
| PluginBase.BatchedItemWise | src/subtitleformatter/plugins/base/plugin_base.py:76-99 | batching a process that works item by item gives the same list as processing every item at once |
| PluginBase.BatchedStep | src/subtitleformatter/plugins/base/plugin_base.py:93-97 | each chunk of the loop is processed and its results appended in front of the rest |
| PluginBase.ProcessBatch | src/subtitleformatter/plugins/base/plugin_base.py:76-99 | an empty list gives an empty list; a batch size of zero raises, a negative one gives an empty list, a positive one the concatenated chunk results |
| PluginBase.TextProcessorPlugin.constructor | src/subtitleformatter/plugins/base/plugin_base.py:42-56 | the kept configuration is the one construction specifies; not initialised and no dependencies |
| PluginBase.TextProcessorPlugin.Initialize | src/subtitleformatter/plugins/base/plugin_base.py:101-109 | the plugin is initialised; nothing else changes |
| PluginBase.TextProcessorPlugin.Cleanup | src/subtitleformatter/plugins/base/plugin_base.py:111-119 | the plugin is no longer initialised; nothing else changes |
| PluginBase.TextProcessorPlugin.SetConfig | src/subtitleformatter/plugins/base/plugin_base.py:134-138 | the new configuration is stored even when the check then raises; the raised failure is the check's |
| PluginBase.TextProcessorPlugin.SetDependency | src/subtitleformatter/plugins/base/plugin_base.py:169-178 | only that dependency is set |
| PluginBase.TextProcessorPlugin.GetDependency | src/subtitleformatter/plugins/base/plugin_base.py:180-195 | the dependency exactly when it is set; otherwise a key error |
| Lifecycle.Injected | src/subtitleformatter/plugins/manager/plugin_lifecycle.py:148-162 | injection keeps the plugin's name, declared dependencies and initialised flag |
| Lifecycle.InjectedHolds | src/subtitleformatter/plugins/manager/plugin_lifecycle.py:148-162 | after injection the plugin holds what it held, every registered dependency and every other loaded plugin, a plugin winning over a registered object of the same name |
| Lifecycle.AppendAbsent | src/subtitleformatter/plugins/manager/plugin_lifecycle.py:137-138 | the order gains exactly the names it lacked, keeps its prefix, and stays free of duplicates |
| Lifecycle.CleanupSequence | src/subtitleformatter/plugins/manager/plugin_lifecycle.py:197-200 | the plugins cleaned up are exactly the names of the order that are loaded |
| Lifecycle.CleanupReversesOrder | src/subtitleformatter/plugins/manager/plugin_lifecycle.py:192-206 | each plugin is cleaned up after every plugin initialised later than it |
| Lifecycle.Create | src/subtitleformatter/plugins/manager/plugin_lifecycle.py:118-129 | the first pass creates at most one instance per configuration |
| Lifecycle.CreateNext | src/subtitleformatter/plugins/manager/plugin_lifecycle.py:119-129 | one step of the first pass creates at most one instance |
| Lifecycle.ReadyTwice | src/subtitleformatter/plugins/manager/plugin_lifecycle.py:132-135 | injecting the same dependencies twice gives what injecting them once gave |
| Lifecycle.AsMap | src/subtitleformatter/plugins/manager/plugin_lifecycle.py:126-127 | the created instances are keyed by exactly their names |
| Lifecycle.ReadyAll | src/subtitleformatter/plugins/manager/plugin_lifecycle.py:132-138 | the second pass keeps exactly the loaded plugins' names |
| Lifecycle.Loaded | src/subtitleformatter/plugins/manager/plugin_lifecycle.py:78-99 | a new plugin loads exactly when its `initialize` does not raise, and comes back initialised |
| Lifecycle.FirstInitFailure | src/subtitleformatter/plugins/manager/plugin_lifecycle.py:132-144 | every plugin before the position initialises, and the plugin at the position, if any, raises |
| Lifecycle.ReadyAllStep | src/subtitleformatter/plugins/manager/plugin_lifecycle.py:132-138 | the second pass readies one more plugin per step |
| Lifecycle.ReadyAgain | src/subtitleformatter/plugins/manager/plugin_lifecycle.py:132-138 | readying a plugin the pass already readied changes nothing |
| Lifecycle.Without | src/subtitleformatter/plugins/manager/plugin_lifecycle.py:184-185 | removing a name from a duplicate-free order leaves exactly the other names; an absent name changes nothing |
| Lifecycle.LoadedOnly | src/subtitleformatter/plugins/manager/plugin_lifecycle.py:287-290 | exactly the declared dependencies that are loaded, never more than declared |
| Lifecycle.PluginLifecycleManager.constructor | src/subtitleformatter/plugins/manager/plugin_lifecycle.py:29-39 | no instances, an empty order and no dependencies |
| Lifecycle.PluginLifecycleManager.RegisterDependency | src/subtitleformatter/plugins/manager/plugin_lifecycle.py:41-50 | only that dependency is registered; nothing else changes |
| Lifecycle.PluginLifecycleManager.InjectDependencies | src/subtitleformatter/plugins/manager/plugin_lifecycle.py:148-162 | the plugin as injection specifies |
| Lifecycle.PluginLifecycleManager.LoadPlugin | src/subtitleformatter/plugins/manager/plugin_lifecycle.py:52-99 | a loaded plugin comes back unchanged; missing dependencies and a failing creation raise before anything changes; a failing `initialize` leaves nothing behind; otherwise the ready plugin is stored and joins the order |
| Lifecycle.PluginLifecycleManager.StoreAndInitialize | src/subtitleformatter/plugins/manager/plugin_lifecycle.py:80-99 | the created instance is stored, injected and initialised, or taken out again when `initialize` raises |
| Lifecycle.PluginLifecycleManager.CreateInstances | src/subtitleformatter/plugins/manager/plugin_lifecycle.py:118-129 | the first pass stores exactly the instances it created, stopping at the first failure |
| Lifecycle.PluginLifecycleManager.InitializeAll | src/subtitleformatter/plugins/manager/plugin_lifecycle.py:131-146 | every created plugin is readied and joins the order, or the first failure cleans everything up |
| Lifecycle.PluginLifecycleManager.InitializeOne | src/subtitleformatter/plugins/manager/plugin_lifecycle.py:133-144 | one plugin is injected and initialised and joins the order, or its `initialize` error is returned |
| Lifecycle.PluginLifecycleManager.LoadPlugins | src/subtitleformatter/plugins/manager/plugin_lifecycle.py:101-146 | disabled configurations are skipped; a failing creation stops with the instances created so far still stored; otherwise it fails exactly when some created plugin's `initialize` raises, reporting the first, and then every loaded plugin of the order is cleaned up, last initialised first, and nothing is left; on success every created plugin is ready and joins the order |
| Lifecycle.PluginLifecycleManager.UnloadPlugin | src/subtitleformatter/plugins/manager/plugin_lifecycle.py:164-190 | nothing for a plugin not loaded; a raising `cleanup` leaves it loaded; otherwise it leaves the instances and the order |
| Lifecycle.PluginLifecycleManager.CleanupAll | src/subtitleformatter/plugins/manager/plugin_lifecycle.py:192-206 | every loaded plugin of the order is cleaned up, last initialised first, and nothing is left |
| Lifecycle.PluginLifecycleManager.GetPluginInstance | src/subtitleformatter/plugins/manager/plugin_lifecycle.py:208-218 | the instance exactly when it is loaded |
| Lifecycle.PluginLifecycleManager.IsPluginLoaded | src/subtitleformatter/plugins/manager/plugin_lifecycle.py:220-230 | loaded exactly when an instance is found |
| Lifecycle.PluginLifecycleManager.ListLoadedPlugins | src/subtitleformatter/plugins/manager/plugin_lifecycle.py:232-239 | exactly the loaded plugins |
| Lifecycle.PluginLifecycleManager.ReloadPlugin | src/subtitleformatter/plugins/manager/plugin_lifecycle.py:257-275 | a loaded plugin's `cleanup` is called; when it raises, the old instance comes back and nothing else changes; otherwise a failing load leaves the plugin unloaded and out of the order, and a successful one stores the new instance at the end of the order |
| Lifecycle.PluginLifecycleManager.GetDependencyGraph | src/subtitleformatter/plugins/manager/plugin_lifecycle.py:277-292 | one entry per loaded plugin: its declared dependencies that are loaded, in order |
| Lifecycle.PluginLifecycleManager.LoadedDependencies | src/subtitleformatter/plugins/manager/plugin_lifecycle.py:287-290 | the inner loop keeps exactly the loaded declared dependencies |
| ConfigLoader.Validate | src/subtitleformatter/config/loader.py:80-94 | nothing is raised exactly when the language, the model size and the width are accepted and a `[paths]` table is present; a type error only for an unhashable language or model size |
| ConfigLoader.DefaultsAccepted | src/subtitleformatter/config/loader.py:80-94 | a configuration holding only a `[paths]` table passes, every other key taking its default |
| ConfigLoader.MissingPathsRefused | src/subtitleformatter/config/loader.py:93-94 | without a `[paths]` table an otherwise valid configuration is refused with the `[paths]` message |
| ConfigLoader.ReplaceCharIsSubst | src/subtitleformatter/config/loader.py:60-60 | replacing a one-character pattern substitutes each of its occurrences |
| ConfigLoader.EscapeIsCharwise | src/subtitleformatter/config/loader.py:60-60 | the three replacements in sequence escape each character independently |
| ConfigLoader.UnescapeEscape | src/subtitleformatter/config/loader.py:60-61 | an escaped string reads back as the original |
| ConfigLoader.EscapeInjective | src/subtitleformatter/config/loader.py:60-61 | distinct strings are written distinctly |
| ConfigLoader.FormatReadsBack | src/subtitleformatter/config/loader.py:53-61 | booleans, integers and strings are written so that they read back as themselves |
| ConfigLoader.NoneReadsAsEmptyString | src/subtitleformatter/config/loader.py:58-59 | `None` is written as an empty string and reads back as one |
| ConfigLoader.TopOf | src/subtitleformatter/config/loader.py:50-50 | never more top-level values than entries |
| ConfigLoader.TablesOf | src/subtitleformatter/config/loader.py:51-51 | never more tables than entries |
| ConfigLoader.EntryLinesInOrder | src/subtitleformatter/config/loader.py:63-64 | one `k = v` line per entry, in order |
| ConfigLoader.SplitByKind | src/subtitleformatter/config/loader.py:50-51 | the two dictionaries share the entries between them, and one is empty exactly when no entry has its kind |
| ConfigLoader.TableLinesLength | src/subtitleformatter/config/loader.py:68-72 | each table gives at least its header and a closing blank line |
| ConfigLoader.OneTrailingNewline | src/subtitleformatter/config/loader.py:74-74 | the written text ends with exactly one newline |
| ConfigLoader.SplitKinds | src/subtitleformatter/config/loader.py:50-51 | the two comprehensions give the top-level values and the tables |
| ConfigLoader.AppendEntries | src/subtitleformatter/config/loader.py:63-64 | one line is appended per entry |
| ConfigLoader.AppendBlock | src/subtitleformatter/config/loader.py:69-72 | the header, the entry lines and a blank line are appended |
| ConfigLoader.AppendTables | src/subtitleformatter/config/loader.py:68-72 | one block is appended per table |
| ConfigLoader.DumpToml | src/subtitleformatter/config/loader.py:46-77 | the text written is the specified TOML text and ends with a newline |
| Paths.StemOfPath | src/subtitleformatter/config/loader.py:107-107 | a file name in a directory loses the directory and its last extension |
| Paths.PlainNameIsStem | src/subtitleformatter/config/loader.py:107-107 | a name without '/' or '.' is its own stem |
| ConfigLoader.MaterializePaths | src/subtitleformatter/config/loader.py:97-110 | on success only the `[paths]` output file changes, and it stays a string |
| ConfigLoader.MaterializeReplacesEvery | src/subtitleformatter/config/loader.py:99-110 | every `{timestamp}` becomes the timestamp, then every `{input_file_basename}` the input file's stem; nothing else changes |
| ConfigLoader.InputFileOnlyWhenAsked | src/subtitleformatter/config/loader.py:105-108 | without either placeholder the configuration comes back unchanged, whatever the input file is |
| ConfigLoader.Flatten | src/subtitleformatter/config/loader.py:168-169 | the input and output paths are copied to the top level unless already there; nothing else changes |
| ConfigLoader.CreateConfigFromArgs | src/subtitleformatter/config/loader.py:174-192 | a configuration is built only when the checks pass |
| ConfigLoader.ArgsConfigFields | src/subtitleformatter/config/loader.py:176-185 | the built configuration carries the arguments' language, model size, width and paths |
| ConfigLoader.ArgsValidate | src/subtitleformatter/config/loader.py:176-187 | the checks pass exactly when the language, the model size and the width are in range |
| ConfigLoader.CreateConfigOutcome | src/subtitleformatter/config/loader.py:174-192 | the arguments are refused exactly when a checked value is out of range or an explicit output is not a string; on success the paths are copied to the top level with the placeholders substituted |
| ConfigManagement.ReconcileLeaf | src/subtitleformatter/config/config_manager.py:133-136 | a `None` leaf takes the default; a leaf of the default's type (or under a `None` default) is kept; any other leaf is reset to the default |
| ConfigManagement.ReconcileReplacesSubtree | src/subtitleformatter/config/config_manager.py:139-140 | a non-dictionary where the defaults have a table becomes the whole default table |
| ConfigManagement.DefaultConforms | src/subtitleformatter/config/config_manager.py:131-153 | the defaults have their own shape |
| ConfigManagement.ReconcileConforms | src/subtitleformatter/config/config_manager.py:131-153 | after reconciliation every level has exactly the defaults' keys and every leaf the default's type |
| ConfigManagement.ConformingUnchanged | src/subtitleformatter/config/config_manager.py:131-153 | a value already in the defaults' shape is left as it is |
| ConfigManagement.ReconcileFixedIff | src/subtitleformatter/config/config_manager.py:131-153 | reconciliation changes a value exactly when it is not in the defaults' shape |
| ConfigManagement.ReconcileIdempotent | src/subtitleformatter/config/config_manager.py:131-153 | reconciling twice gives what reconciling once gave |
| ConfigManagement.NormalizeAgainstDefaults | src/subtitleformatter/config/config_manager.py:125-157 | the result has exactly the defaults' top-level keys and the defaults' shape, a non-dictionary starting from `{}` |
| ConfigManagement.SetPath | src/subtitleformatter/config/config_manager.py:64-69 | a successful set adds only the first key at the top level and keeps every other top-level entry |
| ConfigManagement.WalkAfterSet | src/subtitleformatter/config/config_manager.py:56-69 | after a successful set the path leads to the value set |
| ConfigManagement.SetPathSucceedsIff | src/subtitleformatter/config/config_manager.py:64-69 | a set fails exactly when an existing value on the way is not a dictionary |
| ConfigManagement.SetFreshSucceeds | src/subtitleformatter/config/config_manager.py:64-69 | setting under a fresh top-level key always succeeds |
| ConfigManagement.ConfigManager.constructor | src/subtitleformatter/config/config_manager.py:24-31 | the in-memory configuration starts empty |
| ConfigManagement.ConfigManager.Load | src/subtitleformatter/config/config_manager.py:34-43 | the parsed file is normalised against the defaults, stored and returned |
| ConfigManagement.ConfigManager.Save | src/subtitleformatter/config/config_manager.py:45-49 | the configuration is normalised and stored, and that is what is written |
| ConfigManagement.ConfigManager.Get | src/subtitleformatter/config/config_manager.py:56-62 | the value at the dotted path, or the default when a segment is missing or a non-dictionary is met |
| ConfigManagement.ConfigManager.Set | src/subtitleformatter/config/config_manager.py:64-69 | succeeds exactly when no existing value on the path is a non-dictionary, storing the set path; otherwise nothing changes |
| ConfigManagement.ConfigManager.SetConfig | src/subtitleformatter/config/config_manager.py:71-73 | a dictionary is stored as given, anything else as `{}` |
| ConfigManagement.GetAfterSet | src/subtitleformatter/config/config_manager.py:56-69 | after a successful set, a get on the same path returns the value set |
| UnifiedConfig.Loaded | src/subtitleformatter/config/unified_config_manager.py:40-63 | the latest file when it parses; otherwise the default file when it parses and saving it as the latest succeeds |
| UnifiedConfig.FailedLoadIsEmpty | src/subtitleformatter/config/unified_config_manager.py:53-63 | whatever goes wrong while loading, the configuration is the empty one |
| UnifiedConfig.LoadedTakesFileProcessing | src/subtitleformatter/config/unified_config_manager.py:40-63 | whatever `load` ends with takes a `file_processing` update unless the file it came from holds a `file_processing` entry that is not a dictionary; after a fallback to the empty configuration the section is exactly the update |
| UnifiedConfig.RestoredDefault | src/subtitleformatter/config/unified_config_manager.py:130-146 | the default file when it parses, otherwise the empty configuration |
| UnifiedConfig.FileProcessingUpdate | src/subtitleformatter/config/unified_config_manager.py:157-161 | only the given keys of the `file_processing` section are overwritten; nothing else in the configuration changes |
| UnifiedConfig.FileProcessingIdempotent | src/subtitleformatter/config/unified_config_manager.py:157-161 | updating with the same keys twice is updating once |
| UnifiedConfig.ChainReference | src/subtitleformatter/config/unified_config_manager.py:178-180 | reading the reference fails exactly when `plugins` is present but not a dictionary |
| UnifiedConfig.ChainReferenceRoundTrip | src/subtitleformatter/config/unified_config_manager.py:163-180 | setting the reference succeeds exactly when `plugins` is absent or a dictionary, and reading it back gives what was set (`None` after clearing) |
| UnifiedConfig.ChainReferenceLocal | src/subtitleformatter/config/unified_config_manager.py:163-176 | setting the reference leaves the rest of the configuration and the other plugin entries untouched |
| UnifiedConfig.UnifiedConfigManager.constructor | src/subtitleformatter/config/unified_config_manager.py:25-38 | the configuration starts empty |
| UnifiedConfig.UnifiedConfigManager.Load | src/subtitleformatter/config/unified_config_manager.py:40-63 | the configuration becomes what loading specifies, and a copy is returned |
| UnifiedConfig.UnifiedConfigManager.Save | src/subtitleformatter/config/unified_config_manager.py:65-75 | succeeds exactly when writing succeeds, writing the configuration; a failure is raised again |
| UnifiedConfig.UnifiedConfigManager.ImportConfig | src/subtitleformatter/config/unified_config_manager.py:99-124 | succeeds exactly when the file parses, and then replaces the configuration; otherwise nothing changes |
| UnifiedConfig.UnifiedConfigManager.RestoreLast | src/subtitleformatter/config/unified_config_manager.py:126-128 | the same as loading |
| UnifiedConfig.UnifiedConfigManager.RestoreDefault | src/subtitleformatter/config/unified_config_manager.py:130-146 | the configuration becomes the restored default, and a copy is returned |
| UnifiedConfig.UnifiedConfigManager.SetConfig | src/subtitleformatter/config/unified_config_manager.py:148-151 | the configuration is replaced |
| UnifiedConfig.UnifiedConfigManager.GetConfig | src/subtitleformatter/config/unified_config_manager.py:153-155 | a copy of the configuration |
| UnifiedConfig.UnifiedConfigManager.SetFileProcessingConfig | src/subtitleformatter/config/unified_config_manager.py:157-161 | the section update, or nothing when the present section is not a dictionary |
| UnifiedConfig.UnifiedConfigManager.SetPluginChainReference | src/subtitleformatter/config/unified_config_manager.py:163-176 | the reference update, or nothing when `plugins` is not a dictionary |
| UnifiedConfig.UnifiedConfigManager.GetPluginChainReference | src/subtitleformatter/config/unified_config_manager.py:178-180 | the stored reference, `None` when absent |
| UnifiedLogging.Rank | src/subtitleformatter/utils/unified_logger.py:25-30 | ranks run from 0 to 3, and an unknown level ranks as INFO |
| UnifiedLogging.StoredLevel | src/subtitleformatter/utils/unified_logger.py:55-65 | the stored level is always a known one: the upper-cased name when known, INFO otherwise |
| UnifiedLogging.FilterExtremes | src/subtitleformatter/utils/unified_logger.py:67-79 | errors always pass the filter; debug messages pass only at the DEBUG level |
| UnifiedLogging.LevelPasses | src/subtitleformatter/utils/unified_logger.py:67-79 | each of the four levels passes exactly when the current level ranks at most its own |
| UnifiedLogging.UnknownLevelIsInfo | src/subtitleformatter/utils/unified_logger.py:77-79 | a message at an unknown level is filtered like INFO |
| UnifiedLogging.FilterMonotone | src/subtitleformatter/utils/unified_logger.py:67-79 | raising the current level never lets more messages through |
| UnifiedLogging.StepMessage | src/subtitleformatter/utils/unified_logger.py:125-130 | "name: message" with a message, "name..." without |
| UnifiedLogging.StepNamesStep | src/subtitleformatter/utils/unified_logger.py:125-130 | a step message always starts with the step's name |
| UnifiedLogging.SubLines | src/subtitleformatter/utils/unified_logger.py:143-144 | one line per sub-entry |
| UnifiedLogging.StatsLineCount | src/subtitleformatter/utils/unified_logger.py:140-146 | the entries of a block give one line per plain entry and one plus its size per group |
| UnifiedLogging.FormatAll | src/subtitleformatter/utils/unified_logger.py:93-94 | one timestamped line per message, each `[time] LEVEL: message` |
| UnifiedLogging.Accepted | src/subtitleformatter/utils/unified_logger.py:102-107 | the callback accepts at most the lines offered to it |
| UnifiedLogging.UnifiedLogger.constructor | src/subtitleformatter/utils/unified_logger.py:32-37 | no callback, both outputs on, debug mode off, level INFO, nothing printed |
| UnifiedLogging.UnifiedLogger.SetGuiCallback | src/subtitleformatter/utils/unified_logger.py:39-41 | only the callback changes |
| UnifiedLogging.UnifiedLogger.EnableTerminal | src/subtitleformatter/utils/unified_logger.py:43-45 | only the terminal flag changes |
| UnifiedLogging.UnifiedLogger.EnableGui | src/subtitleformatter/utils/unified_logger.py:47-49 | only the GUI flag changes |
| UnifiedLogging.UnifiedLogger.SetDebugMode | src/subtitleformatter/utils/unified_logger.py:51-53 | only the debug flag changes |
| UnifiedLogging.UnifiedLogger.SetLogLevel | src/subtitleformatter/utils/unified_logger.py:55-65 | only the level changes, to the stored level |
| UnifiedLogging.UnifiedLogger.ShouldLogAt | src/subtitleformatter/utils/unified_logger.py:67-79 | a message passes exactly when its level ranks at least the current one |
| UnifiedLogging.UnifiedLogger.Log | src/subtitleformatter/utils/unified_logger.py:81-107 | nothing when filtered out; otherwise the line is printed when the terminal is on and offered to the callback when the GUI is on; no setting changes |
| UnifiedLogging.UnifiedLogger.Info | src/subtitleformatter/utils/unified_logger.py:109-111 | an INFO line, output when the level is INFO or DEBUG |
| UnifiedLogging.UnifiedLogger.Warning | src/subtitleformatter/utils/unified_logger.py:113-115 | a WARNING line, output unless the level is ERROR |
| UnifiedLogging.UnifiedLogger.Error | src/subtitleformatter/utils/unified_logger.py:117-119 | an ERROR line, always output |
| UnifiedLogging.UnifiedLogger.Debug | src/subtitleformatter/utils/unified_logger.py:121-123 | a DEBUG line, output only at the DEBUG level |
| UnifiedLogging.UnifiedLogger.Step | src/subtitleformatter/utils/unified_logger.py:125-130 | the step message at INFO |
| UnifiedLogging.UnifiedLogger.InfoNext | src/subtitleformatter/utils/unified_logger.py:137-147 | one more INFO line of a block is output |
| UnifiedLogging.UnifiedLogger.GroupLines | src/subtitleformatter/utils/unified_logger.py:143-144 | the sub-entry lines of a group are output in order |
| UnifiedLogging.UnifiedLogger.GroupNext | src/subtitleformatter/utils/unified_logger.py:141-144 | a group's key line, then its sub-entry lines |
| UnifiedLogging.UnifiedLogger.EntryNext | src/subtitleformatter/utils/unified_logger.py:140-146 | one entry's lines: its line, or its key and its sub-entries |
| UnifiedLogging.UnifiedLogger.ItemsNext | src/subtitleformatter/utils/unified_logger.py:140-146 | every entry's lines, in order |
| UnifiedLogging.UnifiedLogger.Stats | src/subtitleformatter/utils/unified_logger.py:132-147 | only in debug mode: the title, a rule, the entries and a rule, at INFO; otherwise nothing |
| UnifiedLogging.UnifiedLogger.DebugInfo | src/subtitleformatter/utils/unified_logger.py:157-160 | an INFO message only in debug mode |
| UnifiedLogging.UnifiedLogger.DebugStep | src/subtitleformatter/utils/unified_logger.py:162-165 | a step only in debug mode |
| ChainVisualizer.LastPart | src/subtitleformatter/gui/components/plugin_chain_visualizer.py:121-125 | the last part of a split is a suffix of the string: the whole string when the separator is absent, otherwise what follows a separator |
| ChainVisualizer.AfterLast | src/subtitleformatter/gui/components/plugin_chain_visualizer.py:121-125 | the part after the last separator is a separator-free suffix, the whole string when there is no separator |
| ChainVisualizer.RemoveNamespace | src/subtitleformatter/gui/components/plugin_chain_visualizer.py:118-126 | the display name is a suffix without '/': what follows the last '/' if any, else what follows the last '.' if any, else the name itself |
| ChainVisualizer.AfterSeparatorUnique | src/subtitleformatter/gui/components/plugin_chain_visualizer.py:121-125 | two separator-free suffixes that both follow a separator are the same |
| ChainVisualizer.SlashQualified | src/subtitleformatter/gui/components/plugin_chain_visualizer.py:121-122 | a name `namespace/name` shows as `name` |
| ChainVisualizer.DotQualified | src/subtitleformatter/gui/components/plugin_chain_visualizer.py:124-125 | a dotted name without slashes shows as its last component |
| ChainVisualizer.RowWidth | src/subtitleformatter/gui/components/plugin_chain_visualizer.py:137-141 | the inner loop adds up the node widths of a row with one gap and arrow between neighbours |
| ChainVisualizer.NodesPerRow | src/subtitleformatter/gui/components/plugin_chain_visualizer.py:128-146 | one node for an empty chain; otherwise one less than the first row length that overflows (at least one), or every node when none overflows; more than one node per row only when that row fits |
| ChainVisualizer.RowsAreCeiling | src/subtitleformatter/gui/components/plugin_chain_visualizer.py:206-206 | the rows hold every node, one row fewer would not, and there are no rows exactly when the chain is empty |
| ChainVisualizer.PluginChainCanvas.constructor | src/subtitleformatter/gui/components/plugin_chain_visualizer.py:81-86 | an empty chain and empty tables |
| ChainVisualizer.PluginChainCanvas.UpdatePluginChain | src/subtitleformatter/gui/components/plugin_chain_visualizer.py:92-106 | the chain and metadata are replaced; every plugin not seen before starts enabled and idle, and known plugins keep their states |
| ChainVisualizer.PluginChainCanvas.UpdatePluginStatus | src/subtitleformatter/gui/components/plugin_chain_visualizer.py:108-111 | only that plugin's enabled state changes |
| ChainVisualizer.PluginChainCanvas.SetPluginProcessingStatus | src/subtitleformatter/gui/components/plugin_chain_visualizer.py:113-116 | only that plugin's processing state changes |
| Values.Merge | src/subtitleformatter/config/loader.py:31-38 | the merged dictionary has exactly the keys of both sides |
| Values.MergeKeepsBase | src/subtitleformatter/config/loader.py:32-37 | a key only in the base keeps its value |
| Values.MergeOverrideWins | src/subtitleformatter/config/loader.py:34-37 | the override's value wins wherever the two sides are not both dictionaries |
| Values.MergeNested | src/subtitleformatter/config/loader.py:34-35 | two dictionaries under one key are merged recursively |
| Values.MergeEmptyOverride | src/subtitleformatter/config/loader.py:31-38 | an empty override gives the base back |
| Values.MergeEmptyBase | src/subtitleformatter/config/loader.py:31-38 | merging into an empty base gives the override back |
| Values.MergeSelf | src/subtitleformatter/config/loader.py:31-38 | merging a dictionary into itself changes nothing |
| Values.MergeIdempotent | src/subtitleformatter/config/loader.py:31-38 | applying the same override twice is applying it once |

## Left out

- Aliasing of shared dictionaries and lists: every `Dict` and `seq` is a value. So the live dictionaries that the `ConfigState` getters, `ConfigManager.get`/`set` and the plugin manager's `get_plugin_config` hand out cannot be changed behind their owner's back.
- UnifiedConfig.UnifiedConfigManager.GetConfig: the result is a snapshot. In Python, `self._config.copy()` is shallow, so a later `set_file_processing_config`, which updates the nested dictionary in place, shows through an earlier copy.
- OrderConfig.PluginConfigManager.SetPluginOrder: the order is stored as a value. Python keeps the caller's list, so the caller's later edits, and `reset_all_plugin_configs` clearing it in place, are shared with it.
- OrderConfig.PluginConfigManager.SaveToMainConfig: the updated main configuration is returned as a new value. Python also mutates the dictionary it was given.
- OrderConfig.PluginConfigManager.GetEnabledPlugins: an order that is not a list of strings is refused. Python would iterate a string's characters or a dictionary's keys.
- OrderConfig.PluginConfigManager.GetPluginConfigSummary: an order that is not a list of strings is refused, as in `GetEnabledPlugins`.
- DependencyInjection.DependencyContainer.Get: a factory is a total function. A factory that raises inside `get` is not modelled.
- DependencyInjection.DependencyInjector.InjectInto: which factories ran, and what the singleton cache holds afterwards, is not stated. Every name the container answers, and the object it gives, is stated unchanged.
- DependencyInjection.DependencyInjector.InjectEach: the factory cache afterwards is not stated, as for `InjectInto`.
- DependencyInjection.DependencyInjector.InjectIntoPlugin: the factory cache afterwards is not stated, as for `InjectInto`.
- `create_with_injection` and the module-level `get_container`/`get_event_system` helpers: they construct objects by reflection or hold process-wide globals.
- Lifecycle: whether a plugin's creation, `initialize` or `cleanup` fails is a fixed function of its name, given by the abstract registry. Registry scanning, dynamic import and the plugins' own code are outside the model.
- Logging: terminal output is recorded as lines. The log calls inside the plugins and managers, the global logger wrappers and `progress` (a float percentage) are dropped.
- `emit_async` and every other asynchronous or threaded path: the model is sequential.
- File, TOML and JSON input and output: parsed contents are parameters, and writers return the text they would write. This covers `load_config`, `_read_toml`/`_atomic_write`, the export and import methods, `load_config_from_file`, `save_config_to_file`, directory creation and transcript reading and writing.
- `normalized_for_save`: not modelled. It is the modelled reconciliation followed by `_to_relative`, which depends on the working directory.
- `_relativize_paths` and `export_config` in the unified configuration manager: not modelled, because they rewrite paths against the file system. Their side effect is also not modelled. `export_config` hands `_relativize_paths` a shallow copy of the configuration, so an absolute `input_dir` or `output_dir` under the project root is rewritten to a relative path in the manager's live `file_processing` dictionary as well as in the exported file.
- The clock: the timestamp of a log line and the `{timestamp}` substitution are parameters.
- UnifiedLogging.UnifiedLogger.Stats: every line of one block is stamped with the same clock value, because the time is a single parameter. Python reads the clock again for each `info` call, so a block can straddle a second.
- ManagerConfig.PluginConfigManager.ListPluginConfigs: the names are returned as a set. Python returns `list(self._configs.keys())`, which is in insertion order.
- PluginBase.ErrorMessage: the message for a value its validator refuses leaves out the value's text. Python puts `'{value}'` in it, and the model has no rendering of an arbitrary value as Python's `str` would print it.
- Floating point: `similarity_ratio`, `get_split_stats`'s ratio and the progress percentage are not modelled.
- Statistics helpers that only recount a modelled result are not modelled: `get_split_stats`, `get_sentence_count` and the text-cleaning plugin's `get_stats`.
- The reason string attached to each split candidate: only its position and priority matter to the choice.
- The neural punctuation model and spaCy: `restore_punctuation` is a function parameter, `_load_model`'s success is a flag, the `nlp` objects are opaque values, and `LineBreaker._smart_wrap` is not modelled.
- Qt: painting, font metrics and the `PluginChainVisualizer` widget wrapper are not modelled. Node widths are parameters of the row packing.
- Unicode: letters, digits and case are ASCII (plus CJK ideographs as alphanumeric). Whitespace follows `str.isspace()`.
- ConfigLoader.MaterializePaths: a non-dictionary section and a non-string path raise the single error kinds `NotADict`/`NotAString`. Python raises a `TypeError` or an `AttributeError` depending on the value.

## Findings

| source | as written | input that shows it | evidently intended | confidence | as-written member | corrected member |
|---|---|---|---|---|---|---|
| plugins/builtin/sentence_splitter/plugin.py:844 | a long sentence without a valid split point is logged through `self.logger`, which the plugin base class never defines, so `split_sentence` raises `AttributeError` | `";"` followed by 120 `Z`: over 100 characters, should be split, no valid point | the sentence is returned whole, as the next line does | not executed | SentenceSplitter.LongUnsplittableRaises | SentenceSplitter.UnsplittableWhole |
| plugins/builtin/sentence_splitter/plugin.py:132 | the "as well as" entry records the length 9 for a 10-character phrase, so the compared slice never equals it | `x as well as y`: the `as` that opens the phrase is not protected | the length 10, which protects the phrase wherever it occurs | not executed | SentenceSplitter.AsWellAsSampleUnprotected | SentenceSplitter.AsWellAsProtected |
| src/subtitleformatter/plugins/base/plugin_config.py:75-81 | a validator that returns False adds no error; only one that raises does | `validate_config("punctuation_adder", {"enabled": True, "model_name": "m", "batch_size": -1})` returns no error | a False result is an error, as the plugin base class's own check counts it | not executed | SchemaConfig.ManagerNegativeBatchSize | SchemaConfig.NegativeBatchSizeRejected |
| scripts/Transcript_converter/Transcript_converter.py:166-169 | `replace(".transcript", "")` removes every occurrence, including one in a directory name | `notes.transcript/talk.transcript` gives `notes/talk.srt`, outside the input's directory | only the final extension is swapped | not executed | TranscriptPlugin.ScriptOutputsLeaveDirectory | TranscriptPlugin.IntendedOutputs |
| src/subtitleformatter/plugins/manager/plugin_config_manager.py:190-194 | the configurations are written after the order, so a plugin named `order` replaces it | a manager holding a configuration for a plugin named `order` saves, then loads back | the order is kept, as loading skips the key `order` | not executed | OrderConfig.OrderNamedPluginClobbersOrder | OrderConfig.CorrectedSaveKeepsOrder |
