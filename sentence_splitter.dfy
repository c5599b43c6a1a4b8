/**
 * The rule-based sentence splitter plugin (plugins/builtin/sentence_splitter).
 *
 * A sentence is scanned for candidate cuts (punctuation, comma followed by a
 * conjunction, stand-alone conjunctions), each with an integer priority.
 * Context predicates veto candidates; the veto rules relax over degradation
 * rounds; the best candidate of the first successful round is cut after its
 * punctuation mark, and both halves are split again, up to `maxDepth`.
 *
 * The spec functions below define the plugin's behaviour; the methods at the
 * end are the plugin's loops, each proved to compute its spec function.
 */
module SentenceSplitter {
  import opened Wrappers
  import opened PyText
  import opened Candidates

  /** One entry of the fixed-phrase table that protects conjunctions inside set phrases. */
  datatype FixedPhrase = FixedPhrase(phrase: string, startWords: seq<string>, endWords: seq<string>, length: int)

  /** The plugin's settings after construction. */
  datatype Splitter = Splitter(
    enabled: bool,
    minRecursiveLength: int,
    maxDepth: int,
    maxDegradationRound: int,
    phrases: seq<FixedPhrase>)

  // ------------------------------------------------------------------
  // Tables

  /** a single word: non-empty and without a space */
  type Token = w: string | |w| > 0 && ' ' !in w witness "a"

  /** The conjunction vocabulary (a Python set; one fixed order here). */
  const Conjunctions: seq<Word> := Coordinators + Subordinators + Transitions + Relatives + Sequencers + Phrases

  const Coordinators: seq<Token> := ["and", "or", "but", "yet", "so", "for", "nor"]
  const Subordinators: seq<Token> := [
    "because", "since", "as", "if", "when", "while", "although", "though",
    "unless", "until", "before", "after"]
  const Transitions: seq<Token> := [
    "however", "therefore", "moreover", "furthermore", "nevertheless",
    "meanwhile", "consequently"] + [
    "additionally", "similarly", "likewise", "otherwise", "instead", "rather", "indeed"]
  const Relatives: seq<Token> := ["which", "that", "who", "whom", "whose", "where", "why", "how"]
  const Sequencers: seq<Token> := ["then", "next", "finally", "subsequently"]
  const Phrases: seq<Word> := [
    "such as", "as well as", "in order to", "so that", "in case",
    "provided that", "even though", "as though", "as if"]

  /** Clause openers: the elevated comma followers and the subordinate-clause markers. */
  const Markers: seq<Token> := ["which", "that", "who", "whom", "whose", "where", "when", "why", "how"]

  /** The fixed-phrase table exactly as the plugin writes it ("as well as" has length 9). */
  const WrittenPhrases: seq<FixedPhrase> := [
    FixedPhrase("so that", ["so"], ["that"], 8),
    FixedPhrase("provided that", ["provided"], ["that"], 13),
    FixedPhrase("as though", ["as"], ["though"], 9),
    FixedPhrase("as if", ["as"], ["if"], 6),
    FixedPhrase("even though", ["even"], ["though"], 12),
    FixedPhrase("such as", ["such"], ["as"], 8),
    FixedPhrase("as well as", ["as"], ["as"], 9),
    FixedPhrase("in order to", ["in"], ["to"], 11),
    FixedPhrase("in case", ["in"], ["case"], 7)]

  /** The same table with "as well as" given its real length, 10. */
  const CorrectedPhrases: seq<FixedPhrase> :=
    WrittenPhrases[..6] + [FixedPhrase("as well as", ["as"], ["as"], 10)] + WrittenPhrases[7..]

  /**
   * The plugin's defaults as written: enabled, min_recursive_length 70,
   * max_depth 8, max_degradation_round 5, and the fixed-phrase table with
   * its 9-character "as well as".
   */
  const Default: Splitter := Splitter(true, 70, 8, 5, WrittenPhrases)

  /** The same defaults with the corrected fixed-phrase table. */
  const Corrected: Splitter := Default.(phrases := CorrectedPhrases)

  /** The punctuation marks and their priorities, in the plugin's dictionary order. */
  const PunctTable: seq<(char, int)> :=
    [(';', 5), (':', 4), (',', 3), ('\U{2014}', 3), ('\U{2013}', 3), ('\U{2026}', 3)]

  /** `conjunction_priority.get(c, 0)` */
  function ConjPriority(c: string): (p: int)
    ensures 0 <= p <= 2
  {
    if c in ["however", "therefore", "moreover", "furthermore", "nevertheless",
             "meanwhile", "consequently", "but", "yet"] then 2
    else if c in ["because", "since", "although", "though", "unless", "until", "before",
                  "after", "as", "if", "while", "that", "which", "who", "whom", "whose",
                  "where", "when", "why", "how", "additionally", "similarly", "likewise",
                  "otherwise", "instead", "rather", "indeed"] then 1
    else 0
  }

  /** The marks after which a cut is moved: , : ; . ! ? and the two dashes and the ellipsis. */
  predicate IsMark(c: char) {
    c in {',', ':', ';', '.', '!', '?', '\U{2014}', '\U{2013}', '\U{2026}'}
  }

  /** the marks of the punctuation table */
  predicate IsPunct(c: char) {
    c in {';', ':', ',', '\U{2014}', '\U{2013}', '\U{2026}'}
  }

  predicate IsCurrency(c: char) {
    c in {'$', '\U{20ac}', '\U{a3}', '\U{a5}', '\U{20b9}', '\U{20bd}', '\U{20a9}', '\U{20aa}',
          '\U{20a8}', '\U{20a6}', '\U{20a1}', '\U{20b1}', '\U{20ab}', '\U{20b4}', '\U{20b8}',
          '\U{20bc}', '\U{20be}', '\U{20bf}'}
  }

  // ------------------------------------------------------------------
  // Veto predicates

  /** A digit, a comma and three digits in a row (the thousands-separator patterns). */
  predicate HasThousands(t: string) {
    exists k :: 0 <= k && k + 5 <= |t| && IsDigit(t[k]) && t[k + 1] == ',' && IsDigit(t[k + 2])
      && IsDigit(t[k + 3]) && IsDigit(t[k + 4])
  }

  /** `is_number_context`: the comma at `pos` sits between digits, after a currency sign, or in a thousands group. */
  predicate NumberContext(s: string, pos: int)
    requires 0 <= pos < |s|
  {
    var before := RStrip(s[..pos]);
    var after := LStrip(s[pos + 1..]);
    (before != [] && after != [] && IsDigit(before[|before| - 1]) && IsDigit(after[0]))
    || (pos > 0 && IsCurrency(s[pos - 1]) && after != [] && IsDigit(after[0]))
    || HasThousands(Slice(s, pos - 10, pos + 10))
  }

  /** the number of maximal runs of word characters (`len(re.findall(r"\b\w+\b", t))`) */
  function WordCount(t: string): nat {
    if |t| == 0 then 0
    else (if IsWordChar(t[0]) && (|t| == 1 || !IsWordChar(t[1])) then 1 else 0) + WordCount(t[1..])
  }

  /** `is_simple_enumeration`: at most two words on each side and six in total, outside number context. */
  predicate SimpleEnumeration(s: string, pos: int)
    requires 0 <= pos < |s|
  {
    !NumberContext(s, pos)
    && var b := WordCount(s[..pos]);
       var a := WordCount(s[pos + 1..]);
       b + a <= 6 && b <= 2 && a <= 2
  }

  /** `_is_in_subordinate_clause`: the last occurrence of some marker before `pos` has a comma before it. */
  predicate SubordinateClause(s: string, pos: int)
    requires 0 <= pos <= |s|
  {
    exists m :: m in Markers &&
      var mp := RFind(Lower(s[..pos]), m);
      mp != -1 && ContainsChar(s[..mp], ',') && pos > mp
  }

  /** `_is_in_fixed_phrase` for one table entry */
  predicate PhraseProtects(lower: string, pos: int, c: string, e: FixedPhrase) {
    if c in e.startWords then
      0 <= pos && 0 <= e.length && pos + e.length <= |lower|
      && StartsWith(lower[pos..pos + e.length], e.phrase)
    else if c in e.endWords then
      exists w :: w in e.startWords &&
        var sp := pos - |w| - 1;
        sp >= 0 && 0 <= e.length && sp + e.length <= |lower|
        && StartsWith(lower[sp..sp + e.length], e.phrase)
    else false
  }

  /** `_is_in_fixed_phrase`: some entry of the table protects the conjunction `c` at `pos`. */
  predicate InFixedPhrase(phrases: seq<FixedPhrase>, s: string, pos: int, c: string) {
    exists e :: e in phrases && PhraseProtects(Lower(s), pos, c, e)
  }

  /** The conjunction of length `n` at `pos` is a whole word not at the start of the sentence. */
  predicate WholeWordAt(lower: string, pos: int, n: nat)
    requires 0 <= pos && pos + n <= |lower|
  {
    pos > 0 && !IsAlnum(lower[pos - 1]) && (pos + n >= |lower| || !IsAlnum(lower[pos + n]))
  }

  // ------------------------------------------------------------------
  // Candidate generation

  /** The lower-cased text after the comma starts with one of `words` and a space. */
  predicate StartsWithWordSpace(after: string, words: seq<string>) {
    exists w :: w in words && StartsWith(after, w + " ")
  }

  /** The boost a comma gets from the conjunction that follows it. */
  function BoostOf(c: string): int {
    if c in Markers then 6 else if c in ["but", "yet"] then 4 else 2
  }

  /** The boost of a comma followed by a conjunction; it does not depend on which matching conjunction is found first. */
  function CommaBoost(after: string): int {
    if StartsWithWordSpace(after, Markers) then 6
    else if StartsWithWordSpace(after, ["but", "yet"]) then 4
    else 2
  }

  /** the length of the leading run of whitespace */
  function SpaceRun(t: string): (n: nat)
    ensures n <= |t| && AllSpace(t[..n])
    ensures n < |t| ==> !IsSpace(t[n])
  {
    if |t| == 0 || !IsSpace(t[0]) then 0 else 1 + SpaceRun(t[1..])
  }

  /**
   * The regular expression `,\s+(w1|w2|...)\s+` matches at `i` of the window
   * (case-insensitively): a comma, whitespace, one of the words, whitespace.
   */
  predicate CommaWordAt(w: string, i: int, words: seq<string>)
    requires 0 <= i < |w|
  {
    w[i] == ',' &&
    var j := i + 1 + SpaceRun(w[i + 1..]);
    j > i + 1 &&
    exists x :: x in words && OccursAt(Lower(w), x, j) && j + |x| < |w| && IsSpace(w[j + |x|])
  }

  const ClauseWords: seq<string> := Markers
  const CoordWords: seq<string> := ["and", "or", "but", "so", "yet", "for", "nor"]
  const AdverbWords: seq<string> := ["however", "therefore", "moreover", "furthermore", "meanwhile"]

  /** One of the three comma patterns occurs anywhere in the window. */
  predicate CommaPatternIn(w: string) {
    exists i :: 0 <= i < |w| && CommaWordAt(w, i, ClauseWords + CoordWords + AdverbWords)
  }

  /** The priority a comma at `pos` receives (lines 554-614 of the plugin). */
  function CommaPriority(s: string, pos: int): int
    requires 0 <= pos < |s|
  {
    var after := Lower(Strip(s[pos + 1..]));
    if StartsWithWordSpace(after, Conjunctions) then 3 + CommaBoost(after)
    else
      var w := Slice(s, pos, pos + 50);
      if CommaPatternIn(w) then
        (if |w| > 0 && CommaWordAt(w, 0, ClauseWords) then 3 + 6 else 3 + 2)
      else 3
  }

  /** the candidate (if any) that punctuation mark `mark` at `i` yields */
  function MarkHit(s: string, mark: char, prio: int, i: int): seq<Candidate>
    requires 0 <= i < |s|
  {
    if s[i] != mark then []
    else if mark == ',' then (if NumberContext(s, i) then [] else [Candidate(i, CommaPriority(s, i))])
    else [Candidate(i, prio)]
  }

  /** the per-position test of one punctuation mark */
  function MarkHitAt(s: string, mark: char, prio: int): nat -> seq<Candidate> {
    (i: nat) => if i < |s| then MarkHit(s, mark, prio, i) else []
  }

  /** the candidates of one mark among the first `i` characters, by position */
  function MarkCands(s: string, mark: char, prio: int, i: nat): seq<Candidate> {
    Collect(MarkHitAt(s, mark, prio), i)
  }

  /** the candidates of each mark of the table, by its index */
  function PunctBlock(s: string): nat -> seq<Candidate> {
    (t: nat) => if t < |PunctTable| then MarkCands(s, PunctTable[t].0, PunctTable[t].1, |s|) else []
  }

  /** the candidates of the first `t` marks of the table */
  function PunctCandsUpTo(s: string, t: nat): seq<Candidate>
    requires t <= |PunctTable|
  {
    Collect(PunctBlock(s), t)
  }

  /** A conjunction of the vocabulary occurs at `p` as a whole word that no fixed phrase protects. */
  predicate ConjunctionAt(sp: Splitter, s: string, p: int) {
    exists w :: w in Conjunctions && OccursAt(Lower(s), w, p)
      && WholeWordAt(Lower(s), p, |w|) && !InFixedPhrase(sp.phrases, s, p, w)
  }

  /** the candidate (if any) of conjunction `c` found at `p` */
  function ConjHit(sp: Splitter, s: string, round: int, c: string, p: int): seq<Candidate> {
    if !(0 <= p && p + |c| <= |s|) then []
    else if InFixedPhrase(sp.phrases, s, p, c) then []
    else if !WholeWordAt(Lower(s), p, |c|) then []
    else if c == "that" && p + 4 < |s| && s[p + 4] == ',' then []
    else
      var minLen := if round >= 4 then 10 else 20;
      if |Strip(s[..p])| > minLen && |Strip(s[p + |c|..])| > minLen
         && (round >= 2 || !SubordinateClause(s, p))
      then [Candidate(p, ConjPriority(c))]
      else []
  }

  /** the per-position test of conjunction `c` */
  function HitAt(sp: Splitter, s: string, round: int, c: string): nat -> seq<Candidate> {
    p => ConjHit(sp, s, round, c, p)
  }

  /** the candidates of conjunction `c` found by the `find` loop from `start` on */
  function ConjScan(sp: Splitter, s: string, round: int, c: string, start: nat): seq<Candidate>
    requires |c| > 0
  {
    Hits(HitAt(sp, s, round, c), Occurrences(Lower(s), c, start))
  }

  /** the candidates of the first `k` conjunctions */
  function ConjCandsUpTo(sp: Splitter, s: string, round: int, k: nat): seq<Candidate>
    requires k <= |Conjunctions|
  {
    if k == 0 then []
    else
      ConjCandsUpTo(sp, s, round, k - 1) + ConjScan(sp, s, round, Conjunctions[k - 1], 0)
  }

  /** the candidates `find_split_points(sentence, round_num)` returns, sorted by position */
  function SplitPoints(sp: Splitter, s: string, round: int): seq<Candidate> {
    SortByPos(PunctCandsUpTo(s, |PunctTable|) + ConjCandsUpTo(sp, s, round, |Conjunctions|))
  }

  // ------------------------------------------------------------------
  // Validity and the best split

  /**
   * Where a cut at `pos` really falls: after a punctuation mark and at most one
   * following space, or one past a space that follows a mark.
   */
  function CutAfterMark(s: string, pos: int): (r: int)
    requires 0 <= pos <= |s|
    ensures pos <= r <= |s|
  {
    if pos < |s| && IsMark(s[pos]) then
      (if pos + 1 < |s| && s[pos + 1] == ' ' then pos + 2 else pos + 1)
    else if pos < |s| && s[pos] == ' ' && pos > 0 && IsMark(s[pos - 1]) then pos + 1
    else pos
  }

  /** `_is_valid_split_point(sentence, pos, round_num)` */
  predicate ValidSplitPoint(s: string, pos: int, round: int)
    requires 0 <= pos < |s|
  {
    var minLen := if round >= 4 then 10 else 15;
    var a := CutAfterMark(s, pos);
    |Strip(s[..a])| >= minLen && |Strip(s[a..])| >= minLen
    && !(round < 3 && s[pos] == ',' && SimpleEnumeration(s, pos))
    && !(round == 1 && SubordinateClause(s, pos))
  }

  /** the round's validity test on a candidate */
  function ValidAt(s: string, round: int): Candidate -> bool {
    (c: Candidate) => 0 <= c.pos < |s| && ValidSplitPoint(s, c.pos, round)
  }

  /** the candidates of a round that pass the round's validity test, in order */
  function ValidOf(s: string, cs: seq<Candidate>, round: int): seq<Candidate> {
    Filter(ValidAt(s, round), cs)
  }

  /** `ValidOf` keeps exactly the valid candidates. */
  lemma ValidOfMembers(s: string, cs: seq<Candidate>, round: int)
    requires InRange(s, cs)
    ensures forall c :: c in ValidOf(s, cs, round) <==> c in cs && ValidSplitPoint(s, c.pos, round)
  {
    FilterMembers(ValidAt(s, round), cs);
  }

  /** the best valid candidate of one round */
  function RoundBest(sp: Splitter, s: string, round: int): Option<Candidate>
  {
    SplitPointsInRange(sp, s, round);
    var v := ValidOf(s, SplitPoints(sp, s, round), round);
    if v == [] then None else Some(Best(v))
  }

  /** A round finds nothing exactly when it has no valid candidate; otherwise it finds the best valid one. */
  lemma RoundBestSpec(sp: Splitter, s: string, round: int)
    ensures var r := RoundBest(sp, s, round);
      (r == None <==>
        forall x :: x in SplitPoints(sp, s, round) && 0 <= x.pos < |s| ==> !ValidSplitPoint(s, x.pos, round))
      && (r.Some? ==>
        r.value in SplitPoints(sp, s, round) && 0 <= r.value.pos < |s| && ValidSplitPoint(s, r.value.pos, round)
        && forall x :: x in SplitPoints(sp, s, round) && 0 <= x.pos < |s| && ValidSplitPoint(s, x.pos, round)
             ==> !Beats(x, r.value))
  {
    SplitPointsInRange(sp, s, round);
    ValidOfMembers(s, SplitPoints(sp, s, round), round);
  }

  function MinInt(a: int, b: int): int { if a <= b then a else b }

  /** `find_best_split`: round 1, then each further round while min(max_degradation_round, 5) allows it */
  function BestSplit(sp: Splitter, s: string): Option<(Candidate, int)> {
    var maxRound := MinInt(sp.maxDegradationRound, 5);
    if RoundBest(sp, s, 1).Some? then Some((RoundBest(sp, s, 1).value, 1))
    else if maxRound < 2 then None
    else if RoundBest(sp, s, 2).Some? then Some((RoundBest(sp, s, 2).value, 2))
    else if maxRound < 3 then None
    else if RoundBest(sp, s, 3).Some? then Some((RoundBest(sp, s, 3).value, 3))
    else if maxRound < 4 then None
    else if RoundBest(sp, s, 4).Some? then Some((RoundBest(sp, s, 4).value, 4))
    else if maxRound < 5 then None
    else if RoundBest(sp, s, 5).Some? then Some((RoundBest(sp, s, 5).value, 5))
    else None
  }

  /** a comma with more than 10 stripped characters after it and at least 20 on each side */
  predicate FallbackComma(s: string, pos: int)
    requires 0 <= pos < |s|
  {
    s[pos] == ',' && |Strip(s[pos + 1..])| > 10 && |Strip(s[..pos])| >= 20 && |Strip(s[pos + 1..])| >= 20
  }

  /** the fallback of `should_split_sentence` */
  predicate CommaFallback(s: string) {
    exists pos :: 0 <= pos < |s| && FallbackComma(s, pos)
  }

  /** `should_split_sentence` */
  predicate ShouldSplit(sp: Splitter, s: string) {
    |s| >= sp.minRecursiveLength && (SplitPoints(sp, s, 1) != [] || CommaFallback(s))
  }

  /**
   * Where `split_sentence` cuts the sentence at this depth, or None when it
   * returns the sentence whole (depth limit, too short, nothing to split, no
   * valid candidate in any round, or a half that would be too short).
   */
  function CutDecision(sp: Splitter, s: string, depth: int): (r: Option<int>)
    ensures r.Some? ==> depth < sp.maxDepth && 0 < r.value < |s|
  {
    if depth >= sp.maxDepth || |s| < sp.minRecursiveLength then None
    else if !ShouldSplit(sp, s) then None
    else match BestSplit(sp, s)
      case None => None
      case Some((c, round)) =>
        var p := CutPos(sp, s, c);
        var minPart := if round >= 4 then 8 else 10;
        if |Strip(s[..p])| < minPart || |Strip(s[p..])| < minPart then None
        else Some(p)
  }

  /**
   * A cut on a punctuation mark keeps the mark, and one following space if
   * there is one, at the end of the left part; a cut on a space after a mark
   * moves one past that space.
   */
  lemma CutAfterMarkKeepsMark(s: string, pos: int)
    requires 0 <= pos < |s|
    ensures IsMark(s[pos]) ==>
      var r := CutAfterMark(s, pos);
      s[r - 1] == (if r == pos + 2 then ' ' else s[pos]) && pos < r <= pos + 2 &&
      (r == pos + 1 ==> r == |s| || s[r] != ' ')
    ensures !IsMark(s[pos]) && s[pos] == ' ' && pos > 0 && IsMark(s[pos - 1]) ==> CutAfterMark(s, pos) == pos + 1
    ensures !IsMark(s[pos]) && !(s[pos] == ' ' && pos > 0 && IsMark(s[pos - 1])) ==> CutAfterMark(s, pos) == pos
  {
  }

  /**
   * `split_sentence` keeps the sentence whole at the depth limit, below the
   * recursion length, when it should not be split and when no round finds a
   * split point; a cut it does make leaves at least 10 stripped characters on
   * each side (8 when the split came from round 4 or later).
   */
  lemma CutDecisionCases(sp: Splitter, s: string, depth: int)
    ensures depth >= sp.maxDepth || |s| < sp.minRecursiveLength || !ShouldSplit(sp, s) || BestSplit(sp, s) == None
      ==> CutDecision(sp, s, depth) == None
    ensures CutDecision(sp, s, depth).Some? ==>
      BestSplit(sp, s).Some? &&
      var (c, round) := BestSplit(sp, s).value;
      var p := CutDecision(sp, s, depth).value;
      var minPart := if round >= 4 then 8 else 10;
      p == CutPos(sp, s, c) && |Strip(s[..p])| >= minPart && |Strip(s[p..])| >= minPart
  {
  }

  /** A cut decision only cuts below the depth limit and strictly inside the text. */
  ghost predicate CutsInside(cut: (string, int) -> Option<int>, maxDepth: int) {
    forall t, d :: cut(t, d).Some? ==> d < maxDepth && 0 < cut(t, d).value < |t|
  }

  /** the depth budget that is left */
  function Budget(maxDepth: int, depth: int): nat {
    if maxDepth - depth < 0 then 0 else maxDepth - depth
  }

  /**
   * The recursion of `split_sentence` for a given cut decision: cut, then split
   * each non-empty half again when it has at least `minLen` characters.
   */
  function SplitWith(cut: (string, int) -> Option<int>, maxDepth: int, minLen: int, s: string, depth: int): seq<string>
    requires CutsInside(cut, maxDepth)
    decreases Budget(maxDepth, depth), 0
  {
    match cut(s, depth)
    case None => [s]
    case Some(p) =>
      var res := Piece(cut, maxDepth, minLen, s[..p], depth + 1) + Piece(cut, maxDepth, minLen, s[p..], depth + 1);
      if res == [] then [s] else res
  }

  /** one half after the cut: split again if long enough, kept if non-empty, dropped if empty */
  function Piece(cut: (string, int) -> Option<int>, maxDepth: int, minLen: int, part: string, depth: int): seq<string>
    requires CutsInside(cut, maxDepth)
    decreases Budget(maxDepth, depth), 1
  {
    if part != [] && |part| >= minLen then SplitWith(cut, maxDepth, minLen, part, depth)
    else if part != [] then [part]
    else []
  }

  /** `cut` decides every text and depth as `CutDecision` does (instantiated only where a proof names the decision) */
  ghost predicate Decides(sp: Splitter, cut: (string, int) -> Option<int>) {
    forall t, d {:trigger CutDecision(sp, t, d)} :: cut(t, d) == CutDecision(sp, t, d)
  }

  /**
   * The plugin's cut decision as a function value, known only through
   * `Decides`, so that a proof about the recursion does not unfold the
   * decision at every text it meets.
   */
  ghost function PluginCut(sp: Splitter): (cut: (string, int) -> Option<int>)
    ensures Decides(sp, cut)
  {
    assert Decides(sp, (t, d) => CutDecision(sp, t, d));
    var cut :| Decides(sp, cut);
    cut
  }

  /** The plugin's cut decision satisfies `CutsInside`. */
  lemma PluginCutsInside(sp: Splitter)
    ensures CutsInside(PluginCut(sp), sp.maxDepth)
  {
    var cut := PluginCut(sp);
    forall t, d ensures cut(t, d).Some? ==> d < sp.maxDepth && 0 < cut(t, d).value < |t| {
      assert cut(t, d) == CutDecision(sp, t, d);
    }
  }

  /** the fragments `split_sentence(sentence, depth)` returns, with the intended `[sentence]` where the plugin logs a warning */
  ghost function Fragments(sp: Splitter, s: string, depth: int): seq<string> {
    PluginCutsInside(sp);
    SplitWith(PluginCut(sp), sp.maxDepth, sp.minRecursiveLength, s, depth)
  }

  /** the cut position for a chosen candidate, clamped as `s[:p]` clamps it */
  function CutPos(sp: Splitter, s: string, c: Candidate): (p: int)
    ensures 0 <= p <= |s|
  {
    if 0 <= c.pos <= |s| then CutAfterMark(s, c.pos) else if c.pos < 0 then 0 else |s|
  }

  lemma MarkCandsShape(s: string, mark: char, prio: int, i: nat)
    requires i <= |s|
    ensures forall x :: x in MarkCands(s, mark, prio, i) ==>
      0 <= x.pos < i && s[x.pos] == mark && (mark == ',' ==> !NumberContext(s, x.pos))
  {
    forall x | x in MarkCands(s, mark, prio, i)
      ensures 0 <= x.pos < i && s[x.pos] == mark && (mark == ',' ==> !NumberContext(s, x.pos))
    {
      CollectFrom(MarkHitAt(s, mark, prio), i, x);
      var j :| 0 <= j < i && x in MarkHitAt(s, mark, prio)(j);
      assert x in MarkHit(s, mark, prio, j);
    }
  }

  lemma {:induction false} PunctShape(s: string, t: nat)
    requires t <= |PunctTable|
    ensures forall x :: x in PunctCandsUpTo(s, t) ==>
      0 <= x.pos < |s| && IsPunct(s[x.pos]) && (s[x.pos] == ',' ==> !NumberContext(s, x.pos))
  {
    if t > 0 {
      PunctShape(s, t - 1);
      var (mark, prio) := PunctTable[t - 1];
      MarkCandsShape(s, mark, prio, |s|);
      assert IsPunct(mark) by {
        assert PunctTable[t - 1] in PunctTable;
      }
      assert PunctBlock(s)(t - 1) == MarkCands(s, mark, prio, |s|);
      forall x | x in PunctCandsUpTo(s, t)
        ensures 0 <= x.pos < |s| && IsPunct(s[x.pos]) && (s[x.pos] == ',' ==> !NumberContext(s, x.pos))
      {
        if x !in PunctCandsUpTo(s, t - 1) {
          assert x in MarkCands(s, mark, prio, |s|);
        }
      }
    }
  }

  lemma ConjHitShape(sp: Splitter, s: string, round: int, c: string, p: int)
    ensures forall x :: x in ConjHit(sp, s, round, c, p) ==>
      x.pos == p && WholeWordAt(Lower(s), p, |c|) && !InFixedPhrase(sp.phrases, s, p, c)
  {
  }

  lemma {:induction false} HitsShape(sp: Splitter, s: string, round: int, c: string, ps: seq<nat>)
    requires forall i :: 0 <= i < |ps| ==> OccursAt(Lower(s), c, ps[i])
    ensures forall x :: x in Hits(HitAt(sp, s, round, c), ps) ==>
      (x.pos in ps && OccursAt(Lower(s), c, x.pos)
       && WholeWordAt(Lower(s), x.pos, |c|) && !InFixedPhrase(sp.phrases, s, x.pos, c))
  {
    if ps != [] {
      ConjHitShape(sp, s, round, c, ps[0]);
      assert HitAt(sp, s, round, c)(ps[0]) == ConjHit(sp, s, round, c, ps[0]);
      HitsShape(sp, s, round, c, ps[1..]);
    }
  }

  lemma {:induction false} ConjShape(sp: Splitter, s: string, round: int, k: nat)
    requires k <= |Conjunctions|
    ensures forall x :: x in ConjCandsUpTo(sp, s, round, k) ==> 0 <= x.pos < |s| && ConjunctionAt(sp, s, x.pos)
  {
    if k > 0 {
      ConjShape(sp, s, round, k - 1);
      var c := Conjunctions[k - 1];
      HitsShape(sp, s, round, c, Occurrences(Lower(s), c, 0));
    }
  }

  lemma SplitPointsInRange(sp: Splitter, s: string, round: int)
    ensures InRange(s, SplitPoints(sp, s, round))
  {
    var gen := PunctCandsUpTo(s, |PunctTable|) + ConjCandsUpTo(sp, s, round, |Conjunctions|);
    SortByPosSpec(gen);
    PunctShape(s, |PunctTable|);
    ConjShape(sp, s, round, |Conjunctions|);
    var r := SplitPoints(sp, s, round);
    forall i | 0 <= i < |r| ensures 0 <= r[i].pos < |s| {
      assert r[i] in multiset(gen);
    }
  }

  // ------------------------------------------------------------------
  // Properties

  /** the last round `find_best_split` tries: min(max_degradation_round, 5), but at least round 1 */
  function LastRound(sp: Splitter): int {
    var m := MinInt(sp.maxDegradationRound, 5);
    if m < 1 then 1 else m
  }

  /** No round up to `r` finds a valid candidate. */
  predicate NoneBefore(sp: Splitter, s: string, r: int) {
    (r > 1 ==> RoundBest(sp, s, 1) == None) && (r > 2 ==> RoundBest(sp, s, 2) == None)
    && (r > 3 ==> RoundBest(sp, s, 3) == None) && (r > 4 ==> RoundBest(sp, s, 4) == None)
    && (r > 5 ==> RoundBest(sp, s, 5) == None)
  }

  /**
   * The degradation rounds: the chosen split comes from the first round, within
   * 1..LastRound, that has a valid candidate, and none is chosen only when no
   * round has one.
   */
  lemma BestSplitRounds(sp: Splitter, s: string)
    ensures BestSplit(sp, s) == None <==> NoneBefore(sp, s, LastRound(sp) + 1)
    ensures BestSplit(sp, s).Some? ==>
      var (c, r) := BestSplit(sp, s).value;
      1 <= r <= LastRound(sp) && RoundBest(sp, s, r) == Some(c) && NoneBefore(sp, s, r)
  {
  }

  /** The chosen split beats every other valid candidate of its round. */
  lemma BestSplitIsBest(sp: Splitter, s: string)
    requires BestSplit(sp, s).Some?
    ensures var (c, r) := BestSplit(sp, s).value;
      c in SplitPoints(sp, s, r) && 0 <= c.pos < |s| && ValidSplitPoint(s, c.pos, r)
      && forall x :: x in SplitPoints(sp, s, r) && 0 <= x.pos < |s| && ValidSplitPoint(s, x.pos, r)
           ==> x.priority < c.priority || (x.priority == c.priority && x.pos >= c.pos)
  {
    BestSplitRounds(sp, s);
    RoundBestSpec(sp, s, BestSplit(sp, s).value.1);
  }

  /**
   * Every candidate sits on a punctuation mark (a comma only outside a number)
   * or on a whole-word conjunction that no fixed phrase protects.
   */
  lemma CandidateShape(sp: Splitter, s: string, round: int, x: Candidate)
    requires x in SplitPoints(sp, s, round)
    ensures 0 <= x.pos < |s|
    ensures (IsPunct(s[x.pos]) && (s[x.pos] == ',' ==> !NumberContext(s, x.pos))) || ConjunctionAt(sp, s, x.pos)
  {
    var gen := PunctCandsUpTo(s, |PunctTable|) + ConjCandsUpTo(sp, s, round, |Conjunctions|);
    SortByPosSpec(gen);
    PunctShape(s, |PunctTable|);
    ConjShape(sp, s, round, |Conjunctions|);
    assert x in multiset(gen);
    assert x in gen;
  }

  /** Splitting loses and reorders nothing: the fragments concatenate to the text. */
  lemma {:induction false} SplitWithConcat(cut: (string, int) -> Option<int>, maxDepth: int, minLen: int, s: string, depth: int)
    requires CutsInside(cut, maxDepth)
    ensures Concat(SplitWith(cut, maxDepth, minLen, s, depth)) == s
    decreases Budget(maxDepth, depth), 0
  {
    if cut(s, depth).Some? {
      var p := cut(s, depth).value;
      var a := Piece(cut, maxDepth, minLen, s[..p], depth + 1);
      var b := Piece(cut, maxDepth, minLen, s[p..], depth + 1);
      PieceConcat(cut, maxDepth, minLen, s[..p], depth + 1);
      PieceConcat(cut, maxDepth, minLen, s[p..], depth + 1);
      ConcatAppend(a, b);
      assert s[..p] + s[p..] == s;
    }
  }

  lemma {:induction false} PieceConcat(cut: (string, int) -> Option<int>, maxDepth: int, minLen: int, part: string, depth: int)
    requires CutsInside(cut, maxDepth)
    ensures Concat(Piece(cut, maxDepth, minLen, part, depth)) == part
    decreases Budget(maxDepth, depth), 1
  {
    if part != [] && |part| >= minLen {
      SplitWithConcat(cut, maxDepth, minLen, part, depth);
    }
  }

  /** Each level at most doubles the fragments: at least one and at most 2^(maxDepth - depth). */
  lemma {:induction false} SplitWithCount(cut: (string, int) -> Option<int>, maxDepth: int, minLen: int, s: string, depth: int)
    requires CutsInside(cut, maxDepth)
    ensures 1 <= |SplitWith(cut, maxDepth, minLen, s, depth)| <= Pow2(Budget(maxDepth, depth))
    decreases Budget(maxDepth, depth), 0
  {
    if cut(s, depth).Some? {
      var p := cut(s, depth).value;
      PieceCount(cut, maxDepth, minLen, s[..p], depth + 1);
      PieceCount(cut, maxDepth, minLen, s[p..], depth + 1);
      assert Budget(maxDepth, depth) == Budget(maxDepth, depth + 1) + 1;
    }
  }

  lemma {:induction false} PieceCount(cut: (string, int) -> Option<int>, maxDepth: int, minLen: int, part: string, depth: int)
    requires CutsInside(cut, maxDepth)
    ensures |Piece(cut, maxDepth, minLen, part, depth)| <= Pow2(Budget(maxDepth, depth))
    decreases Budget(maxDepth, depth), 1
  {
    if part != [] && |part| >= minLen {
      SplitWithCount(cut, maxDepth, minLen, part, depth);
    }
  }

  /** A non-empty text splits into non-empty fragments only. */
  lemma {:induction false} SplitWithNonEmpty(cut: (string, int) -> Option<int>, maxDepth: int, minLen: int, s: string, depth: int)
    requires CutsInside(cut, maxDepth) && s != []
    ensures forall f :: f in SplitWith(cut, maxDepth, minLen, s, depth) ==> f != []
    decreases Budget(maxDepth, depth), 0
  {
    if cut(s, depth).Some? {
      var p := cut(s, depth).value;
      PieceNonEmpty(cut, maxDepth, minLen, s[..p], depth + 1);
      PieceNonEmpty(cut, maxDepth, minLen, s[p..], depth + 1);
    }
  }

  lemma {:induction false} PieceNonEmpty(cut: (string, int) -> Option<int>, maxDepth: int, minLen: int, part: string, depth: int)
    requires CutsInside(cut, maxDepth)
    ensures forall f :: f in Piece(cut, maxDepth, minLen, part, depth) ==> f != []
    decreases Budget(maxDepth, depth), 1
  {
    if part != [] && |part| >= minLen {
      SplitWithNonEmpty(cut, maxDepth, minLen, part, depth);
    }
  }

  /**
   * `split_sentence` loses and reorders nothing, returns at least one and at
   * most 2^(max_depth - depth) fragments, and none of them is empty.
   */
  lemma FragmentsProperties(sp: Splitter, s: string, depth: int)
    ensures Concat(Fragments(sp, s, depth)) == s
    ensures 1 <= |Fragments(sp, s, depth)| <= Pow2(Budget(sp.maxDepth, depth))
    ensures s != [] ==> forall f :: f in Fragments(sp, s, depth) ==> f != []
  {
    PluginCutsInside(sp);
    var cut := PluginCut(sp);
    SplitWithConcat(cut, sp.maxDepth, sp.minRecursiveLength, s, depth);
    SplitWithCount(cut, sp.maxDepth, sp.minRecursiveLength, s, depth);
    if s != [] {
      SplitWithNonEmpty(cut, sp.maxDepth, sp.minRecursiveLength, s, depth);
    }
  }

  lemma PrefixCharAt(a: string, w: string, i: int)
    requires StartsWith(a, w) && 0 <= i < |w|
    ensures a[i] == w[i]
  {
    assert a[..|w|] == w;
  }

  /** Two space-terminated words at the start of one text: equal, or the first word opens the second phrase. */
  lemma SharedStart(a: string, u: string, v: string)
    requires ' ' !in u && StartsWith(a, u + " ") && StartsWith(a, v + " ")
    ensures u == v || StartsWith(v, u + " ")
  {
    if |u| == |v| {
      assert u == a[..|u|] == v;
    } else if |u| < |v| {
      assert a[..|v| + 1] == v + " ";
      assert a[..|v|] == (v + " ")[..|v|] == v;
      assert a[..|u| + 1] == u + " ";
      assert v[..|u| + 1] == a[..|u| + 1];
    } else {
      PrefixCharAt(a, v + " ", |v|);
      PrefixCharAt(a, u + " ", |v|);
    }
  }

  /** the words that decide the comma boost */
  const Openers: seq<Token> := Markers + ["but", "yet"]

  /** the first letters of the words that decide the comma boost */
  lemma OpenerShape(m: string)
    requires m in Openers
    ensures ' ' !in m && m[0] in {'w', 't', 'h', 'b', 'y'}
  {
  }

  /** Only the multi-word phrases contain a space, and none of them starts with the first letter of an opener. */
  lemma PhraseShape(c: string)
    requires c in Conjunctions
    ensures ' ' in c ==> c in Phrases && c[0] in {'s', 'a', 'i', 'p', 'e'}
  {
    if c !in Phrases {
      assert c in Coordinators + Subordinators + Transitions + Relatives + Sequencers;
    }
  }

  lemma SpacedPrefix(c: string, m: string)
    requires |m| > 0 && StartsWith(c, m + " ")
    ensures ' ' in c && c[0] == m[0]
  {
    PrefixCharAt(c, m + " ", |m|);
    PrefixCharAt(c, m + " ", 0);
  }

  lemma NoPhraseStartsWithOpener(c: string, m: string)
    requires c in Conjunctions && m in Openers
    ensures ' ' !in m && !StartsWith(c, m + " ")
  {
    OpenerShape(m);
    PhraseShape(c);
    if StartsWith(c, m + " ") {
      SpacedPrefix(c, m);
    }
  }

  /**
   * The comma boost does not depend on the order in which the conjunctions are
   * tried: every conjunction that follows the comma gives the same boost.
   */
  lemma CommaBoostOrderFree(after: string, c: string)
    requires c in Conjunctions && StartsWith(after, c + " ")
    ensures BoostOf(c) == CommaBoost(after)
  {
    forall m | m in Openers && StartsWith(after, m + " ")
      ensures m == c
    {
      NoPhraseStartsWithOpener(c, m);
      SharedStart(after, m, c);
    }
    if c in Markers {
      assert StartsWithWordSpace(after, Markers);
    } else if c in ["but", "yet"] {
      assert StartsWithWordSpace(after, ["but", "yet"]);
    }
  }

  // ------------------------------------------------------------------
  // Findings

  /**
   * As written, the "as well as" entry has length 9 while the phrase has 10
   * characters: the slice it compares is one character short, so the entry
   * protects no conjunction anywhere, in any text.
   */
  lemma AsWellAsLength(lower: string, pos: int, c: string)
    ensures !PhraseProtects(lower, pos, c, WrittenPhrases[6])
  {
    var e := WrittenPhrases[6];
    assert |e.phrase| == 10 && e.length == 9;
    if c in e.startWords && 0 <= pos && pos + e.length <= |lower| {
      assert |lower[pos..pos + e.length]| < |e.phrase|;
    }
  }

  /** With the corrected length, the entry protects the "as" that opens every occurrence of "as well as". */
  lemma AsWellAsProtected(s: string, pos: int)
    requires 0 <= pos && pos + 10 <= |Lower(s)| && Lower(s)[pos..pos + 10] == "as well as"
    ensures PhraseProtects(Lower(s), pos, "as", CorrectedPhrases[6])
    ensures InFixedPhrase(CorrectedPhrases, s, pos, "as")
    ensures InFixedPhrase(Corrected.phrases, s, pos, "as")
  {
    var e := CorrectedPhrases[6];
    assert e.phrase == "as well as" && e.length == 10 && "as" in e.startWords;
    assert StartsWith(Lower(s)[pos..pos + e.length], e.phrase);
    assert e in CorrectedPhrases;
  }

  /** "x as well as y": the conjunction "as" at position 2 */
  const AsWellAsSample: string := "x as well as y"

  /** As written, no entry of the table protects the "as" of the sample, so it stays a split candidate. */
  lemma AsWellAsSampleUnprotected()
    ensures !InFixedPhrase(Default.phrases, AsWellAsSample, 2, "as")
  {
    SampleLower();
    forall i | 0 <= i < |WrittenPhrases| ensures !PhraseProtects(Lower(AsWellAsSample), 2, "as", WrittenPhrases[i]) {
      WrittenEntryMisses(i);
    }
  }

  lemma SampleLower()
    ensures Lower(AsWellAsSample) == "x as well as y"
  {
  }

  /** No entry of the table as written protects the "as" of the sample. */
  lemma WrittenEntryMisses(i: int)
    requires 0 <= i < |WrittenPhrases|
    ensures !PhraseProtects("x as well as y", 2, "as", WrittenPhrases[i])
  {
    if i == 2 {
      AsThoughMisses();
    } else if i == 3 {
      AsIfMisses();
    } else if i == 5 {
      SuchAsMisses();
    } else if i == 6 {
      AsWellAsLength("x as well as y", 2, "as");
    } else {
      assert "as" !in WrittenPhrases[i].startWords + WrittenPhrases[i].endWords;
    }
  }

  /** "as though" does not follow the "as" of the sample. */
  lemma AsThoughMisses()
    ensures !PhraseProtects("x as well as y", 2, "as", WrittenPhrases[2])
  {
    var lower := "x as well as y";
    assert lower[2..11][3] != WrittenPhrases[2].phrase[3];
  }

  /** "as if" does not follow the "as" of the sample. */
  lemma AsIfMisses()
    ensures !PhraseProtects("x as well as y", 2, "as", WrittenPhrases[3])
  {
    var lower := "x as well as y";
    assert lower[2..8][3] != WrittenPhrases[3].phrase[3];
  }

  /** "such" cannot stand before the "as" at position 2. */
  lemma SuchAsMisses()
    ensures !PhraseProtects("x as well as y", 2, "as", WrittenPhrases[5])
  {
  }

  /**
   * The recursion of `split_sentence` as written: on the sentences `raises`
   * marks, it calls a logger the plugin does not have and ends with an
   * AttributeError.
   */
  function SplitChecked(cut: (string, int) -> Option<int>, raises: (string, int) -> bool,
                        maxDepth: int, minLen: int, s: string, depth: int): Result<seq<string>>
    requires CutsInside(cut, maxDepth)
    decreases Budget(maxDepth, depth), 0
  {
    if raises(s, depth) then Failure(LoggerError)
    else match cut(s, depth)
      case None => Success([s])
      case Some(p) =>
        var a := PieceChecked(cut, raises, maxDepth, minLen, s[..p], depth + 1);
        if a.Failure? then a
        else
          var b := PieceChecked(cut, raises, maxDepth, minLen, s[p..], depth + 1);
          if b.Failure? then b
          else
            var res := a.value + b.value;
            Success(if res == [] then [s] else res)
  }

  function PieceChecked(cut: (string, int) -> Option<int>, raises: (string, int) -> bool,
                        maxDepth: int, minLen: int, part: string, depth: int): Result<seq<string>>
    requires CutsInside(cut, maxDepth)
    decreases Budget(maxDepth, depth), 1
  {
    if part != [] && |part| >= minLen then SplitChecked(cut, raises, maxDepth, minLen, part, depth)
    else if part != [] then Success([part])
    else Success([])
  }

  const LoggerError: string := "AttributeError: 'SentenceSplitterPlugin' object has no attribute 'logger'"

  /** the sentences on which `split_sentence` reaches the logger call: no split found and over 100 characters */
  predicate LoggerRaises(sp: Splitter, s: string, depth: int) {
    depth < sp.maxDepth && |s| >= sp.minRecursiveLength && ShouldSplit(sp, s)
    && BestSplit(sp, s).None? && |s| > 100
  }

  /** `split_sentence` as written */
  ghost function FragmentsAsWritten(sp: Splitter, s: string, depth: int): Result<seq<string>> {
    PluginCutsInside(sp);
    SplitChecked(PluginCut(sp), (t, d) => LoggerRaises(sp, t, d),
                 sp.maxDepth, sp.minRecursiveLength, s, depth)
  }

  /** Where the as-written recursion returns, it returns what the corrected one does. */
  lemma {:induction false} SplitCheckedAgrees(cut: (string, int) -> Option<int>, raises: (string, int) -> bool,
                                              maxDepth: int, minLen: int, s: string, depth: int)
    requires CutsInside(cut, maxDepth)
    ensures SplitChecked(cut, raises, maxDepth, minLen, s, depth).Success? ==>
      SplitChecked(cut, raises, maxDepth, minLen, s, depth).value == SplitWith(cut, maxDepth, minLen, s, depth)
    decreases Budget(maxDepth, depth), 0
  {
    if !raises(s, depth) && cut(s, depth).Some? {
      var p := cut(s, depth).value;
      PieceCheckedAgrees(cut, raises, maxDepth, minLen, s[..p], depth + 1);
      PieceCheckedAgrees(cut, raises, maxDepth, minLen, s[p..], depth + 1);
    }
  }

  lemma {:induction false} PieceCheckedAgrees(cut: (string, int) -> Option<int>, raises: (string, int) -> bool,
                                              maxDepth: int, minLen: int, part: string, depth: int)
    requires CutsInside(cut, maxDepth)
    ensures PieceChecked(cut, raises, maxDepth, minLen, part, depth).Success? ==>
      PieceChecked(cut, raises, maxDepth, minLen, part, depth).value == Piece(cut, maxDepth, minLen, part, depth)
    decreases Budget(maxDepth, depth), 1
  {
    if part != [] && |part| >= minLen {
      SplitCheckedAgrees(cut, raises, maxDepth, minLen, part, depth);
    }
  }

  /** The plugin as written agrees with the corrected model wherever it does not raise. */
  lemma FragmentsAsWrittenAgrees(sp: Splitter, s: string, depth: int)
    ensures FragmentsAsWritten(sp, s, depth).Success? ==> FragmentsAsWritten(sp, s, depth).value == Fragments(sp, s, depth)
  {
    PluginCutsInside(sp);
    SplitCheckedAgrees(PluginCut(sp), (t, d) => LoggerRaises(sp, t, d),
                       sp.maxDepth, sp.minRecursiveLength, s, depth);
  }

  /** a semicolon followed by 120 capital Zs: 121 characters with a single candidate that no round accepts */
  const Unsplittable: string := [';'] + seq(120, _ => 'Z')

  /** Every vocabulary word starts with a letter other than z. */
  lemma ConjunctionInitial(c: string)
    requires c in Conjunctions
    ensures 'a' <= c[0] <= 'y'
  {
    if c in Coordinators {
      InitialsAY(Coordinators, c);
    } else if c in Subordinators {
      InitialsAY(Subordinators, c);
    } else if c in Transitions {
      InitialsAY(Transitions, c);
    } else if c in Relatives {
      InitialsAY(Relatives, c);
    } else if c in Sequencers {
      InitialsAY(Sequencers, c);
    } else {
      InitialsAY(Phrases, c);
    }
  }

  lemma InitialsAY(ws: seq<Word>, c: string)
    requires ws in [Coordinators, Subordinators, Transitions, Relatives, Sequencers, Phrases]
    requires c in ws
    ensures 'a' <= c[0] <= 'y'
  {
  }

  /** A text whose later characters are neither punctuation nor letters a..y has candidates at position 0 only. */
  lemma CandidatesAtStartOnly(sp: Splitter, s: string, round: int)
    requires forall i :: 0 < i < |s| ==> !IsPunct(s[i]) && !('a' <= LowerChar(s[i]) <= 'y')
    ensures forall x :: x in SplitPoints(sp, s, round) ==> x.pos == 0
  {
    forall x | x in SplitPoints(sp, s, round) ensures x.pos == 0 {
      CandidateShape(sp, s, round, x);
      if x.pos > 0 {
        NoConjunctionWithout(sp, s, x.pos);
      }
    }
  }

  /** The only candidate of `Unsplittable` is its semicolon. */
  lemma UnsplittableCandidates(round: int)
    ensures forall x :: x in SplitPoints(Default, Unsplittable, round) ==> x.pos == 0
  {
    assert forall i :: 0 < i < |Unsplittable| ==> Unsplittable[i] == 'Z';
    CandidatesAtStartOnly(Default, Unsplittable, round);
  }

  /** No vocabulary word starts at a character that is not a lower-case letter a..y. */
  lemma NoConjunctionWithout(sp: Splitter, s: string, p: int)
    requires 0 <= p < |s| && !('a' <= Lower(s)[p] <= 'y')
    ensures !ConjunctionAt(sp, s, p)
  {
    if ConjunctionAt(sp, s, p) {
      var c :| c in Conjunctions && OccursAt(Lower(s), c, p)
        && WholeWordAt(Lower(s), p, |c|) && !InFixedPhrase(sp.phrases, s, p, c);
      ConjunctionInitial(c);
      OccursFirst(Lower(s), c, p);
    }
  }

  lemma OccursFirst(t: string, c: string, p: int)
    requires OccursAt(t, c, p) && |c| > 0
    ensures t[p] == c[0]
  {
    assert t[p..p + |c|][0] == t[p];
  }

  /** The semicolon of `Unsplittable` is a round-1 candidate. */
  lemma UnsplittableHasCandidate()
    ensures SplitPoints(Default, Unsplittable, 1) != []
  {
    var w := Unsplittable;
    var x := UnsplittablePunct();
    var gen := PunctCandsUpTo(w, |PunctTable|) + ConjCandsUpTo(Default, w, 1, |Conjunctions|);
    assert x in gen;
    SortByPosSpec(gen);
    assert x in multiset(SplitPoints(Default, w, 1));
  }

  /** The semicolon of `Unsplittable` is among its punctuation candidates. */
  lemma UnsplittablePunct() returns (x: Candidate)
    ensures x in PunctCandsUpTo(Unsplittable, |PunctTable|)
  {
    x := SemicolonCandidate(Unsplittable);
  }

  /** A semicolon that opens the text is a punctuation candidate of priority 5. */
  lemma SemicolonCandidate(s: string) returns (x: Candidate)
    requires s != [] && s[0] == ';'
    ensures x == Candidate(0, 5) && x in PunctCandsUpTo(s, |PunctTable|)
  {
    x := Candidate(0, 5);
    var hit := MarkHitAt(s, ';', 5);
    CollectHas(hit, 0, |s|);
    assert x in hit(0);
    assert PunctBlock(s)(0) == Collect(hit, |s|);
    CollectHas(PunctBlock(s), 0, |PunctTable|);
  }

  /** No round accepts the semicolon of `Unsplittable`: the text before the cut is a single semicolon. */
  lemma UnsplittableRound(round: int)
    ensures RoundBest(Default, Unsplittable, round) == None
  {
    UnsplittableCandidates(round);
    RoundBestSpec(Default, Unsplittable, round);
    assert CutAfterMark(Unsplittable, 0) == 1;
    assert |Strip(Unsplittable[..1])| <= 1;
    assert !ValidSplitPoint(Unsplittable, 0, round);
  }

  /**
   * A sentence of more than 100 characters that should be split but has no
   * valid split point makes the plugin, as written, raise instead of returning
   * the sentence; the corrected model returns it whole.
   */
  lemma LongUnsplittableRaises()
    ensures FragmentsAsWritten(Default, Unsplittable, 0).Failure?
    ensures Fragments(Default, Unsplittable, 0) == [Unsplittable]
  {
    UnsplittableNoBest();
    assert LoggerRaises(Default, Unsplittable, 0);
    UnsplittableWhole();
  }

  /** The corrected model keeps `Unsplittable` whole. */
  lemma UnsplittableWhole()
    ensures Fragments(Default, Unsplittable, 0) == [Unsplittable]
  {
    UnsplittableNoBest();
    assert PluginCut(Default)(Unsplittable, 0) == CutDecision(Default, Unsplittable, 0) == None;
  }

  /** `Unsplittable` should be split, yet no round yields a split point. */
  lemma UnsplittableNoBest()
    ensures ShouldSplit(Default, Unsplittable) && BestSplit(Default, Unsplittable) == None
  {
    UnsplittableHasCandidate();
    UnsplittableRound(1);
    UnsplittableRound(2);
    UnsplittableRound(3);
    UnsplittableRound(4);
    UnsplittableRound(5);
  }

  // ------------------------------------------------------------------
  // Plugin entry points

  /** A list item as the plugin receives it: a string, None, or any other object. */
  datatype Item = Str(s: string) | Null | NonText

  /** The plugin's input: one text or a list of items. */
  datatype Input = Text(t: string) | Items(items: seq<Item>)

  /** the fragments of one sentence in `process_sentences`: none when it is blank */
  ghost function SentencePieces(sp: Splitter, sentence: string): seq<string> {
    if Strip(sentence) != [] then Fragments(sp, Strip(sentence), 0) else []
  }

  /** `process_sentences`: each non-blank sentence, stripped, split into fragments */
  ghost function ProcessedSentences(sp: Splitter, ss: seq<string>): seq<string> {
    if ss == [] then [] else ProcessedSentences(sp, ss[..|ss| - 1]) + SentencePieces(sp, ss[|ss| - 1])
  }

  function AsItems(ss: seq<string>): (r: seq<Item>)
    ensures |r| == |ss| && forall i :: 0 <= i < |ss| ==> r[i] == Str(ss[i])
  {
    seq(|ss|, i requires 0 <= i < |ss| => Str(ss[i]))
  }

  /** `_process_single_text_as_list` */
  ghost function SingleAsList(sp: Splitter, item: Item): seq<Item> {
    match item
    case Null => [Null]
    case NonText => []
    case Str(t) =>
      if Strip(t) == [] then [] else AsItems(ProcessedSentences(sp, Kept(SplitOn(Strip(t), '\n'))))
  }

  ghost function ProcessedItems(sp: Splitter, items: seq<Item>): seq<Item> {
    if items == [] then []
    else ProcessedItems(sp, items[..|items| - 1]) + SingleAsList(sp, items[|items| - 1])
  }

  /** `process`: a disabled plugin returns its input (a text as a one-element list) */
  ghost function Processed(sp: Splitter, input: Input): seq<Item> {
    if !sp.enabled then
      match input
      case Text(t) => [Str(t)]
      case Items(items) => items
    else
      match input
      case Text(t) => SingleAsList(sp, Str(t))
      case Items(items) => ProcessedItems(sp, items)
  }

  /** Processing a list of sentences loses nothing but blank sentences and the whitespace around each. */
  lemma {:induction false} ProcessedSentencesConcat(sp: Splitter, ss: seq<string>)
    ensures Concat(ProcessedSentences(sp, ss)) == Concat(Kept(ss))
    ensures forall f :: f in ProcessedSentences(sp, ss) ==> f != []
  {
    if ss != [] {
      var init := ss[..|ss| - 1];
      var last := ss[|ss| - 1];
      ProcessedSentencesConcat(sp, init);
      SentencePiecesConcat(sp, last);
      ConcatAppend(ProcessedSentences(sp, init), SentencePieces(sp, last));
      ConcatAppend(Kept(init), KeptLine(last));
    }
  }

  /** One sentence's fragments rebuild the stripped sentence, and none is empty. */
  lemma SentencePiecesConcat(sp: Splitter, sentence: string)
    ensures Concat(SentencePieces(sp, sentence)) == Concat(KeptLine(sentence))
    ensures forall f :: f in SentencePieces(sp, sentence) ==> f != []
  {
    var t := Strip(sentence);
    if t != [] {
      FragmentsProperties(sp, t, 0);
      assert Concat([t]) == t;
    }
  }

  /** `split_at_position`: the two halves at the position clamped to the sentence */
  function SplitAtPosition(s: string, position: int): (r: (string, string))
    ensures r.0 + r.1 == s
    ensures |r.0| == (if position <= 0 then 0 else if position >= |s| then |s| else position)
  {
    if position <= 0 then ("", s)
    else if position >= |s| then (s, "")
    else (s[..position], s[position..])
  }

  /** `is_valid_split`: both halves have three stripped characters and meet at alphanumeric characters */
  predicate IsValidSplit(part1: string, part2: string) {
    ValidStripped(Strip(part1), Strip(part2))
  }

  /** the test of `is_valid_split` on the stripped halves */
  predicate ValidStripped(a: string, b: string) {
    |a| >= 3 && |b| >= 3 && IsAlnum(a[|a| - 1]) && IsAlnum(b[0])
  }

  /** Whitespace around the halves does not change whether a split is valid. */
  lemma IsValidSplitIgnoresSpace(part1: string, part2: string)
    ensures IsValidSplit(part1, part2) == IsValidSplit(Strip(part1), Strip(part2))
  {
    StripIdempotent(part1);
    StripIdempotent(part2);
  }

  // ------------------------------------------------------------------
  // The plugin's loops

  /** the scan of `find_split_points` for one punctuation mark */
  method FindMark(s: string, mark: char, prio: int) returns (points: seq<Candidate>)
    ensures points == MarkCands(s, mark, prio, |s|)
  {
    points := ScanPositions(MarkHitAt(s, mark, prio), |s|);
  }

  /** the scan of `find_split_points` for one conjunction, on the lower-cased sentence */
  method FindConjunction(sp: Splitter, s: string, round: int, c: string) returns (points: seq<Candidate>)
    requires |c| > 0
    ensures points == ConjScan(sp, s, round, c, 0)
  {
    points := ScanOccurrences(HitAt(sp, s, round, c), Lower(s), c);
  }

  /** The candidates come out sorted by position, each generated one kept exactly once. */
  lemma SplitPointsSorted(sp: Splitter, s: string, round: int)
    ensures SortedByPos(SplitPoints(sp, s, round))
    ensures multiset(SplitPoints(sp, s, round)) ==
      multiset(PunctCandsUpTo(s, |PunctTable|) + ConjCandsUpTo(sp, s, round, |Conjunctions|))
  {
    SortByPosSpec(PunctCandsUpTo(s, |PunctTable|) + ConjCandsUpTo(sp, s, round, |Conjunctions|));
  }

  /** `find_split_points`: punctuation marks, then each conjunction's occurrences, sorted by position */
  method FindSplitPoints(sp: Splitter, s: string, round: int) returns (points: seq<Candidate>)
    ensures points == SplitPoints(sp, s, round)
  {
    points := [];
    var t := 0;
    while t < |PunctTable|
      invariant 0 <= t <= |PunctTable|
      invariant points == PunctCandsUpTo(s, t)
    {
      var found := FindMark(s, PunctTable[t].0, PunctTable[t].1);
      assert PunctBlock(s)(t) == found;
      points := points + found;
      t := t + 1;
    }
    var conj: seq<Candidate> := [];
    var k := 0;
    while k < |Conjunctions|
      invariant 0 <= k <= |Conjunctions|
      invariant conj == ConjCandsUpTo(sp, s, round, k)
    {
      var found := FindConjunction(sp, s, round, Conjunctions[k]);
      conj := conj + found;
      k := k + 1;
    }
    points := SortByPos(points + conj);
  }

  /** the filter of one round of `find_best_split` */
  method FilterValid(s: string, points: seq<Candidate>, round: int) returns (valid: seq<Candidate>)
    requires InRange(s, points)
    ensures valid == ValidOf(s, points, round)
  {
    valid := [];
    var i := 0;
    while i < |points|
      invariant 0 <= i <= |points|
      invariant valid == ValidOf(s, points[..i], round)
    {
      assert points[..i + 1][..i] == points[..i];
      assert ValidAt(s, round)(points[i]) == ValidSplitPoint(s, points[i].pos, round);
      if ValidSplitPoint(s, points[i].pos, round) {
        valid := valid + [points[i]];
      }
      i := i + 1;
    }
    assert points[..i] == points;
  }

  /** one round of `find_best_split`: the valid candidates, and the best of them */
  method TryRound(sp: Splitter, s: string, round: int) returns (best: Option<Candidate>)
    ensures best == RoundBest(sp, s, round)
  {
    var points := FindSplitPoints(sp, s, round);
    SplitPointsInRange(sp, s, round);
    var valid := FilterValid(s, points, round);
    if valid != [] {
      best := Some(Best(valid));
    } else {
      best := None;
    }
  }

  /** `find_best_split` */
  method FindBestSplit(sp: Splitter, s: string) returns (best: Option<(Candidate, int)>)
    ensures best == BestSplit(sp, s)
  {
    var maxRound := MinInt(sp.maxDegradationRound, 5);
    var found := TryRound(sp, s, 1);
    if found.Some? {
      return Some((found.value, 1));
    }
    if maxRound < 2 {
      return None;
    }
    found := TryRound(sp, s, 2);
    if found.Some? {
      return Some((found.value, 2));
    }
    if maxRound < 3 {
      return None;
    }
    found := TryRound(sp, s, 3);
    if found.Some? {
      return Some((found.value, 3));
    }
    if maxRound < 4 {
      return None;
    }
    found := TryRound(sp, s, 4);
    if found.Some? {
      return Some((found.value, 4));
    }
    if maxRound < 5 {
      return None;
    }
    found := TryRound(sp, s, 5);
    if found.Some? {
      return Some((found.value, 5));
    }
    return None;
  }

  /** the fallback loop of `should_split_sentence` over the commas */
  method HasFallbackComma(s: string) returns (found: bool)
    ensures found == CommaFallback(s)
  {
    var pos := 0;
    while pos < |s|
      invariant 0 <= pos <= |s|
      invariant forall q :: 0 <= q < pos ==> !FallbackComma(s, q)
    {
      if FallbackComma(s, pos) {
        return true;
      }
      pos := pos + 1;
    }
    return false;
  }

  /** `should_split_sentence` */
  method ShouldSplitSentence(sp: Splitter, s: string) returns (should: bool)
    ensures should == ShouldSplit(sp, s)
  {
    if |s| < sp.minRecursiveLength {
      return false;
    }
    var points := FindSplitPoints(sp, s, 1);
    if |points| > 0 {
      return true;
    }
    should := HasFallbackComma(s);
  }

  /** the fragments of one half after a cut */
  ghost function PieceOf(sp: Splitter, part: string, depth: int): seq<string> {
    PluginCutsInside(sp);
    Piece(PluginCut(sp), sp.maxDepth, sp.minRecursiveLength, part, depth)
  }

  /** the checks and the cut position of `split_sentence` before it recurses */
  method DecideCut(sp: Splitter, s: string, depth: int) returns (cut: Option<int>)
    ensures cut == PluginCut(sp)(s, depth)
  {
    assert PluginCut(sp)(s, depth) == CutDecision(sp, s, depth);
    if depth >= sp.maxDepth || |s| < sp.minRecursiveLength {
      return None;
    }
    var should := ShouldSplitSentence(sp, s);
    if !should {
      return None;
    }
    var best := FindBestSplit(sp, s);
    if best.None? {
      return None;
    }
    var (c, round) := best.value;
    var p := CutPos(sp, s, c);
    var minPart := if round >= 4 then 8 else 10;
    if |Strip(s[..p])| < minPart || |Strip(s[p..])| < minPart {
      return None;
    }
    return Some(p);
  }

  /** `split_sentence`, returning the sentence whole where the plugin reaches its logger call */
  method SplitSentence(sp: Splitter, s: string, depth: int) returns (result: seq<string>)
    ensures result == Fragments(sp, s, depth)
    decreases Budget(sp.maxDepth, depth), 0
  {
    var cut := DecideCut(sp, s, depth);
    PluginCutsInside(sp);
    if cut.None? {
      return [s];
    }
    var r1 := SplitPart(sp, s[..cut.value], depth + 1);
    var r2 := SplitPart(sp, s[cut.value..], depth + 1);
    result := r1 + r2;
    if result == [] {
      result := [s];
    }
  }

  /** one half in `split_sentence`: split again when long enough, kept when non-empty */
  method SplitPart(sp: Splitter, part: string, depth: int) returns (result: seq<string>)
    ensures result == PieceOf(sp, part, depth)
    decreases Budget(sp.maxDepth, depth), 1
  {
    PluginCutsInside(sp);
    if part != [] && |part| >= sp.minRecursiveLength {
      result := SplitSentence(sp, part, depth);
    } else if part != [] {
      result := [part];
    } else {
      result := [];
    }
  }

  /** `process_sentences` */
  method ProcessSentences(sp: Splitter, sentences: seq<string>) returns (result: seq<string>)
    ensures result == ProcessedSentences(sp, sentences)
  {
    result := [];
    var i := 0;
    while i < |sentences|
      invariant 0 <= i <= |sentences|
      invariant result == ProcessedSentences(sp, sentences[..i])
    {
      ProcessedSentencesStep(sp, sentences, i);
      var pieces := ProcessSentence(sp, sentences[i]);
      result := result + pieces;
      i := i + 1;
    }
    assert sentences[..i] == sentences;
  }

  /** one sentence of `process_sentences`: stripped, skipped when blank, split otherwise */
  method ProcessSentence(sp: Splitter, sentence: string) returns (pieces: seq<string>)
    ensures pieces == SentencePieces(sp, sentence)
  {
    var stripped := Strip(sentence);
    if stripped != [] {
      pieces := SplitSentence(sp, stripped, 0);
    } else {
      pieces := [];
    }
  }

  lemma ProcessedSentencesStep(sp: Splitter, ss: seq<string>, i: int)
    requires 0 <= i < |ss|
    ensures ProcessedSentences(sp, ss[..i + 1]) == ProcessedSentences(sp, ss[..i]) + SentencePieces(sp, ss[i])
  {
    assert ss[..i + 1][..i] == ss[..i];
  }

  /** the line filter of `_process_single_text_as_list`: each line stripped, blank lines dropped */
  method KeepLines(lines: seq<string>) returns (kept: seq<string>)
    ensures kept == Kept(lines)
  {
    kept := [];
    var i := 0;
    while i < |lines|
      invariant 0 <= i <= |lines|
      invariant kept == Kept(lines[..i])
    {
      KeptStep(lines, i);
      var line := Strip(lines[i]);
      if line != [] {
        assert KeptLine(lines[i]) == [line];
        kept := kept + [line];
      } else {
        assert Kept(lines[..i + 1]) == kept + [];
      }
      i := i + 1;
    }
    assert lines[..i] == lines;
  }

  lemma KeptStep(lines: seq<string>, i: int)
    requires 0 <= i < |lines|
    ensures Kept(lines[..i + 1]) == Kept(lines[..i]) + KeptLine(lines[i])
  {
    assert lines[..i + 1][..i] == lines[..i];
  }

  /** `_process_single_text_as_list` */
  method ProcessSingleTextAsList(sp: Splitter, item: Item) returns (result: seq<Item>)
    ensures result == SingleAsList(sp, item)
  {
    match item
    case Null => return [Null];
    case NonText => return [];
    case Str(t) =>
      if Strip(t) == [] {
        return [];
      }
      var all := KeepLines(SplitOn(Strip(t), '\n'));
      var processed := ProcessSentences(sp, all);
      result := AsItems(processed);
  }

  /** `process` */
  method Process(sp: Splitter, input: Input) returns (result: seq<Item>)
    ensures result == Processed(sp, input)
  {
    if !sp.enabled {
      match input
      case Text(t) => return [Str(t)];
      case Items(items) => return items;
    }
    match input
    case Text(t) =>
      result := ProcessSingleTextAsList(sp, Str(t));
    case Items(items) =>
      result := [];
      var i := 0;
      while i < |items|
        invariant 0 <= i <= |items|
        invariant result == ProcessedItems(sp, items[..i])
      {
        assert items[..i + 1][..i] == items[..i];
        var part := ProcessSingleTextAsList(sp, items[i]);
        result := result + part;
        i := i + 1;
      }
      assert items[..i] == items;
  }
}
