/**
 * The stand-alone smart sentence splitter (scripts/smart_sentence_splitter).
 *
 * A sentence of at least 60 characters that matches none of three
 * "problematic" patterns is cut at its best candidate: a semicolon, a
 * colon, a comma that is neither inside a number nor inside a simple
 * enumeration (boosted when a connective follows it), or a stand-alone
 * connective with enough text on both sides. Where the second half starts
 * in lower case the splitter cuts once, once with a recursion on the tail,
 * or twice recursively; otherwise it cuts and recurses on both halves, up
 * to depth 3. Candidates carry a position and a priority; the reason text
 * that goes with each is not modelled.
 */
module SmartSplitter {
  import opened PyText
  import opened Candidates

  // ------------------------------------------------------------------
  // Tables

  /**
   * The connective vocabulary. The source holds it in a Python set, which
   * drops the duplicate "when" and "meanwhile"; a scan in any order yields
   * the same candidates, so one fixed order is used here.
   */
  const Vocabulary: seq<Word> := Coordinating + Subordinating + Adverbs + ClauseOpeners + Sequence + Phrases

  const Coordinating: seq<Word> := ["and", "or", "but", "yet", "so", "for", "nor"]
  const Subordinating: seq<Word> := [
    "because", "since", "as", "if", "when", "while", "although", "though",
    "unless", "until", "before", "after"]
  const Adverbs: seq<Word> := [
    "however", "therefore", "moreover", "furthermore", "nevertheless",
    "meanwhile", "consequently"] + [
    "additionally", "similarly", "likewise", "otherwise", "instead", "rather", "indeed"]
  const ClauseOpeners: seq<Word> := ["which", "that", "who", "whom", "whose", "where", "why", "how"]
  const Sequence: seq<Word> := ["then", "next", "finally", "subsequently"]
  const Phrases: seq<Word> := [
    "such as", "as well as", "in order to", "so that", "in case",
    "provided that", "even though", "as though", "as if"]

  /** `conjunction_priority.get(c, 0)` */
  function ConnectivePriority(c: string): (p: int)
    ensures 0 <= p <= 2
  {
    if c in ["however", "therefore", "moreover", "furthermore", "nevertheless", "meanwhile", "consequently"] then 2
    else if c in ["because", "since", "although", "though", "unless", "until", "before", "after"] then 1
    else 0
  }

  /** `punctuation_priority`, in its insertion order */
  const PunctTable: seq<(char, int)> := [(';', 5), (':', 4), (',', 3)]

  // ------------------------------------------------------------------
  // Regular-expression helpers

  /** the end of the whitespace run that starts at `i` (the greedy `\s*`) */
  function SkipSpaces(t: string, i: nat): (j: nat)
    requires i <= |t|
    ensures i <= j <= |t| && AllSpace(t[i..j])
    ensures j < |t| ==> !IsSpace(t[j])
    decreases |t| - i
  {
    if i < |t| && IsSpace(t[i]) then SkipSpaces(t, i + 1) else i
  }

  /** the end of the word-character run that starts at `i` (the greedy `\w*`) */
  function WordEnd(t: string, i: nat): (j: nat)
    requires i <= |t|
    ensures i <= j <= |t| && (forall k :: i <= k < j ==> IsWordChar(t[k]))
    ensures j < |t| ==> !IsWordChar(t[j])
    decreases |t| - i
  {
    if i < |t| && IsWordChar(t[i]) then WordEnd(t, i + 1) else i
  }

  predicate AllDigits(t: string) {
    forall k :: 0 <= k < |t| ==> IsDigit(t[k])
  }

  predicate HasDigit(t: string) {
    exists k :: 0 <= k < |t| && IsDigit(t[k])
  }

  // ------------------------------------------------------------------
  // Number context

  /** `\d{1,3}` matches at `k` */
  predicate DigitRunAt(t: string, k: int)
    requires 0 <= k <= |t|
  {
    exists n :: 1 <= n <= 3 && n <= |t[k..]| && AllDigits(t[k..][..n])
  }

  /** `\d{1,3}(,\d{3})*` matches somewhere: the group may repeat zero times */
  predicate GroupedNumberIn(t: string) {
    exists k :: 0 <= k < |t| && DigitRunAt(t, k)
  }

  /** a digit, a point and a digit around `j` */
  predicate DecimalAt(t: string, j: int)
    requires 0 < j < |t| - 1
  {
    t[j] == '.' && IsDigit(t[j - 1]) && IsDigit(t[j + 1])
  }

  /** `\d+\.\d+` matches somewhere */
  predicate DecimalIn(t: string) {
    exists j :: 0 < j < |t| - 1 && DecimalAt(t, j)
  }

  /** a dollar sign and a digit at `j` */
  predicate DollarAt(t: string, j: int)
    requires 0 <= j < |t| - 1
  {
    t[j] == '$' && IsDigit(t[j + 1])
  }

  /** `\$\d+(,\d{3})*` matches somewhere */
  predicate DollarIn(t: string) {
    exists j :: 0 <= j < |t| - 1 && DollarAt(t, j)
  }

  /** the text `is_number_context` searches: `text[max(0, pos-20):pos+20]` */
  function NumberWindow(s: string, pos: int): string {
    Slice(s, pos - 20, pos + 20)
  }

  /** `is_number_context`: one of the number patterns matches near `pos` */
  predicate NumberContext(s: string, pos: int) {
    var w := NumberWindow(s, pos);
    GroupedNumberIn(w) || DecimalIn(w) || DollarIn(w)
  }

  /** The first number pattern matches exactly where a digit is; the other two need a digit too. */
  lemma NumberPatternsNeedDigit(t: string)
    ensures GroupedNumberIn(t) <==> HasDigit(t)
    ensures DecimalIn(t) || DollarIn(t) ==> HasDigit(t)
  {
    if HasDigit(t) {
      var k :| 0 <= k < |t| && IsDigit(t[k]);
      assert AllDigits(t[k..][..1]);
      assert DigitRunAt(t, k);
    }
    if GroupedNumberIn(t) {
      var k :| 0 <= k < |t| && DigitRunAt(t, k);
      var n :| 1 <= n <= 3 && n <= |t[k..]| && AllDigits(t[k..][..n]);
      assert t[k..][..n][0] == t[k];
    }
    if DecimalIn(t) {
      var j :| 0 < j < |t| - 1 && DecimalAt(t, j);
    }
    if DollarIn(t) {
      var j :| 0 <= j < |t| - 1 && DollarAt(t, j);
    }
  }

  /** A comma is in a number context exactly when a digit lies within 20 characters of it. */
  lemma NumberContextIsDigitNearby(s: string, pos: int)
    ensures NumberContext(s, pos) <==> HasDigit(NumberWindow(s, pos))
  {
    NumberPatternsNeedDigit(NumberWindow(s, pos));
  }

  // ------------------------------------------------------------------
  // Simple enumerations

  /** the words the lookahead of the second enumeration pattern rejects (any order: it tries them all) */
  const EnumExcluded: seq<Word> :=
    Coordinating + Subordinating + Adverbs + ClauseOpeners + ["when"] + Sequence
    + ["a", "an", "the", "this", "that", "these", "those"]

  /** `\b\w+\s*` ends right before the comma at `k` */
  predicate WordBeforeComma(t: string, k: int)
    requires 0 <= k <= |t|
  {
    exists b :: 0 <= b < k && WordThenSpaces(t, b, k)
  }

  /** a word character at `b`, then only whitespace up to `k` */
  predicate WordThenSpaces(t: string, b: int, k: int)
    requires 0 <= b < k <= |t|
  {
    IsWordChar(t[b]) && AllSpace(t[b + 1..k])
  }

  /** `,\s*\w+\s*,\s*\w+\b` from the comma at `k` */
  predicate TripleAfter(t: string, k: int)
    requires 0 <= k < |t|
  {
    var q1 := SkipSpaces(t, k + 1);
    q1 < |t| && IsWordChar(t[q1]) &&
    var k2 := SkipSpaces(t, WordEnd(t, q1));
    k2 < |t| && t[k2] == ',' &&
    var q2 := SkipSpaces(t, k2 + 1);
    q2 < |t| && IsWordChar(t[q2])
  }

  /** `,\s*(?!excluded)\w+\b` from the comma at `k` */
  predicate PairAfter(t: string, k: int)
    requires 0 <= k < |t|
  {
    var q := SkipSpaces(t, k + 1);
    q < |t| && IsWordChar(t[q]) && !(exists w :: w in EnumExcluded && StartsWith(t[q..], w))
  }

  /** `\b\w+\s*,\s*\w+\s*,\s*\w+\b` matches somewhere in `t` */
  predicate EnumTriple(t: string) {
    exists k :: 0 <= k < |t| && TripleAt(t, k)
  }

  predicate TripleAt(t: string, k: int)
    requires 0 <= k < |t|
  {
    t[k] == ',' && WordBeforeComma(t, k) && TripleAfter(t, k)
  }

  /** the second enumeration pattern matches somewhere in `t` */
  predicate EnumPair(t: string) {
    exists k :: 0 <= k < |t| && PairAt(t, k)
  }

  predicate PairAt(t: string, k: int)
    requires 0 <= k < |t|
  {
    t[k] == ',' && WordBeforeComma(t, k) && PairAfter(t, k)
  }

  /** `is_simple_enumeration`: a pattern matches within 50 characters either side of `pos` */
  predicate SimpleEnumeration(s: string, pos: int) {
    var c := Slice(s, pos - 50, pos + 50);
    EnumTriple(c) || EnumPair(c)
  }

  // ------------------------------------------------------------------
  // Subordinate clauses

  const SubMarkers: seq<Word> := ["which", "that", "who", "whom", "whose", "where", "when", "why", "how"]

  /**
   * `_is_in_subordinate_clause`: for some marker, its last occurrence before
   * `pos` (in the lower-cased text, inside words too) has a comma somewhere
   * before it and ends before `pos`.
   */
  predicate InSubordinateClause(s: string, pos: int)
    requires 0 <= pos <= |s|
  {
    exists m :: m in SubMarkers &&
      var mp := RFind(Lower(s[..pos]), m);
      mp != -1 && ',' in s[..mp] && pos > mp + |m|
  }

  /** A subordinate clause needs a comma before the position. */
  lemma SubordinateNeedsComma(s: string, pos: int)
    requires 0 <= pos <= |s| && InSubordinateClause(s, pos)
    ensures ',' in s[..pos]
  {
    var m :| m in SubMarkers && var mp := RFind(Lower(s[..pos]), m);
      mp != -1 && ',' in s[..mp] && pos > mp + |m|;
    var mp := RFind(Lower(s[..pos]), m);
    CharInLongerPrefix(s, ',', mp, pos);
  }

  lemma CharInLongerPrefix(s: string, c: char, j: int, k: int)
    requires 0 <= j <= k <= |s| && c in s[..j]
    ensures c in s[..k]
  {
    var i :| 0 <= i < j && s[..j][i] == c;
    assert s[..k][i] == c;
  }

  // ------------------------------------------------------------------
  // Comma candidates

  /** A connective followed by a space opens the stripped text after the comma at `pos`. */
  predicate ConnectiveAfter(s: string, pos: int)
    requires 0 <= pos < |s|
  {
    exists c :: c in Vocabulary && StartsWith(Lower(Strip(s[pos + 1..])), c + " ")
  }

  /** the comma patterns of `find_split_points` (`,\s+w1\s+...\s+`), as their words */
  const CommaPatterns: seq<seq<Word>> := SingleWordPatterns + PhrasePatterns + ConditionPatterns

  const SingleWordPatterns: seq<seq<Word>> := [
    ["then"], ["so"], ["which"], ["that"], ["where"], ["when"], ["who"], ["why"], ["how"], ["next"],
    ["finally"]]
  const PhrasePatterns: seq<seq<Word>> := [
    ["such", "as"], ["as", "well", "as"], ["in", "order", "to"], ["so", "that"],
    ["in", "case"], ["provided", "that"], ["and", "also"], ["but", "that"], ["or", "if"],
    ["even", "though"]]
  const ConditionPatterns: seq<seq<Word>> := [
    ["although"], ["though"], ["because"], ["since"], ["unless"], ["until"],
    ["before"], ["after"], ["while"], ["if"]] + [
    ["and", "if"], ["or", "if"], ["but", "if"], ["when", "if"], ["where", "if"]]

  /** `\s+w1\s+w2...\s+` matches at `i`; every word starts with a letter, so each `\s+` is a whole run */
  predicate SpacedWordsAt(t: string, i: nat, ws: seq<Word>)
    requires i <= |t|
    decreases |ws|
  {
    i < |t| && IsSpace(t[i]) &&
    var j := SkipSpaces(t, i);
    (ws == [] || (StartsWith(t[j..], ws[0]) && SpacedWordsAt(t, j + |ws[0]|, ws[1..])))
  }

  /** some comma pattern matches somewhere in the lower-cased window `lt` */
  predicate CommaPatternIn(lt: string) {
    exists k :: 0 <= k < |lt| && CommaPatternAt(lt, k)
  }

  /** a comma at `k` that some comma pattern follows */
  predicate CommaPatternAt(lt: string, k: int)
    requires 0 <= k < |lt|
  {
    lt[k] == ',' && exists ws :: ws in CommaPatterns && SpacedWordsAt(lt, k + 1, ws)
  }

  /**
   * the candidate (if any) of the comma at `pos`: none in a number context or
   * an enumeration; after the comma with priority 5 when a connective follows;
   * at the comma with priority 5 when a comma pattern follows; at the comma
   * with priority 3 otherwise; and none inside a subordinate clause.
   */
  function CommaHit(s: string, pos: int): seq<Candidate>
    requires 0 <= pos < |s|
  {
    if NumberContext(s, pos) || SimpleEnumeration(s, pos) then []
    else if ConnectiveAfter(s, pos) && !InSubordinateClause(s, pos + 1) then [Candidate(pos + 1, 3 + 2)]
    else if CommaPatternIn(Lower(Slice(s, pos, pos + 50))) && !InSubordinateClause(s, pos) then [Candidate(pos, 3 + 2)]
    else if !InSubordinateClause(s, pos) then [Candidate(pos, 3)]
    else []
  }

  /** the candidate (if any) that punctuation mark `mark` at `i` yields */
  function MarkHit(s: string, mark: char, prio: int, i: int): seq<Candidate>
    requires 0 <= i < |s|
  {
    if s[i] != mark then []
    else if mark == ',' then CommaHit(s, i)
    else [Candidate(i, prio)]
  }

  /** the per-position test of one punctuation mark */
  function MarkHitAt(s: string, mark: char, prio: int): nat -> seq<Candidate> {
    (i: nat) => if i < |s| then MarkHit(s, mark, prio, i) else []
  }

  /** the candidates of each mark of the table, by its index */
  function PunctBlock(s: string): nat -> seq<Candidate> {
    (t: nat) => if t < |PunctTable| then Collect(MarkHitAt(s, PunctTable[t].0, PunctTable[t].1), |s|) else []
  }

  /** the candidates of the first `t` marks of the table */
  function PunctCandsUpTo(s: string, t: nat): seq<Candidate>
    requires t <= |PunctTable|
  {
    Collect(PunctBlock(s), t)
  }

  // ------------------------------------------------------------------
  // Connective candidates

  /**
   * Connective `c`, found at `p`, stands alone: not at the start, whole-word,
   * more than 20 stripped characters on each side, not in a subordinate clause.
   */
  predicate Standalone(s: string, c: string, p: int) {
    0 <= p && p + |c| <= |s| &&
    var lower := Lower(s);
    p > 0 && !IsAlnum(lower[p - 1]) && (p + |c| >= |lower| || !IsAlnum(lower[p + |c|]))
    && |Strip(s[..p])| > 20 && |Strip(s[p + |c|..])| > 20 && !InSubordinateClause(s, p)
  }

  /** the candidate (if any) of connective `c` found at `p` */
  function ConnectiveHit(s: string, c: string, p: int): seq<Candidate> {
    if Standalone(s, c, p) then [Candidate(p, ConnectivePriority(c))] else []
  }

  /** the per-position test of connective `c` */
  function HitAt(s: string, c: string): nat -> seq<Candidate> {
    p => ConnectiveHit(s, c, p)
  }

  /** the candidates of connective `c` found by the `find` loop */
  function ConnectiveScan(s: string, c: string): seq<Candidate>
    requires |c| > 0
  {
    Hits(HitAt(s, c), Occurrences(Lower(s), c, 0))
  }

  /** the candidates of the first `k` connectives */
  function ConnectiveCandsUpTo(s: string, k: nat): seq<Candidate>
    requires k <= |Vocabulary|
  {
    if k == 0 then [] else ConnectiveCandsUpTo(s, k - 1) + ConnectiveScan(s, Vocabulary[k - 1])
  }

  /** `find_split_points`: punctuation, then connectives, sorted by position */
  function SplitPoints(s: string): seq<Candidate> {
    SortByPos(PunctCandsUpTo(s, |PunctTable|) + ConnectiveCandsUpTo(s, |Vocabulary|))
  }

  // ------------------------------------------------------------------
  // Whether and where to split

  const ProblemPatterns: seq<seq<Word>> := [
    ["which", "which", "and", "which"], ["who", "when", "and"], ["which", "$", "and", "which"]
  ]

  /** `.*w1.*w2...` from `i` on: each word follows the previous one on the same line */
  predicate ChainFrom(t: string, i: nat, ws: seq<Word>)
    decreases |ws|
  {
    ws == [] ||
    exists j :: i <= j <= |t| - |ws[0]| && OccursAt(t, ws[0], j) && '\n' !in t[i..j]
      && ChainFrom(t, j + |ws[0]|, ws[1..])
  }

  /** `re.search(w1.*w2..., t)` */
  predicate PatternSearch(t: string, ws: seq<Word>) {
    ws != [] &&
    exists j :: 0 <= j <= |t| - |ws[0]| && OccursAt(t, ws[0], j) && ChainFrom(t, j + |ws[0]|, ws[1..])
  }

  /** one of the problematic patterns matches, ignoring case */
  predicate Problematic(s: string) {
    exists ws :: ws in ProblemPatterns && PatternSearch(Lower(s), ws)
  }

  /** `should_split_sentence` */
  predicate ShouldSplit(s: string) {
    |s| >= 60 && !Problematic(s) && SplitPoints(s) != []
  }

  /**
   * the cut for a candidate position: after a comma and one space that
   * follows it, or after the space that follows a comma
   */
  function AdjustCut(s: string, pos: int): (p: int)
    ensures 0 <= pos <= |s| ==> 0 <= p <= |s|
  {
    if 0 <= pos < |s| then
      if s[pos] == ',' then (if pos + 1 < |s| && s[pos + 1] == ' ' then pos + 2 else pos + 1)
      else if s[pos] == ' ' && pos > 0 && s[pos - 1] == ',' then pos + 1
      else pos
    else pos
  }

  /** where `split_sentence` cuts: the best candidate's position, adjusted */
  function CutOf(s: string): (p: int)
    requires SplitPoints(s) != []
    ensures 0 <= p <= |s|
  {
    SplitPointsInRange(s);
    AdjustCut(s, Best(SplitPoints(s)).pos)
  }

  const Starters: seq<Word> := ["then", "so", "because", "since", "when", "where", "while", "though", "although"]

  /** the second half, left-stripped, starts with a lower-case letter */
  predicate LowerStart(part2: string) {
    var r := LStrip(part2);
    r != [] && IsLower(r[0])
  }

  /** the second half, left-stripped and lower-cased, starts with an important starter and a space */
  predicate ImportantStart(part2: string) {
    exists st :: st in Starters && StartsWith(Lower(LStrip(part2)), st + " ")
  }

  /**
   * What `split_sentence` does at one level: keep the sentence whole, cut
   * once (`Pair`), cut and split the tail again (`Tail`), or cut and split
   * both halves again (`Both`).
   */
  datatype Plan = Keep | Pair(cut: int) | Tail(cut: int) | Both(cut: int)

  /** the plan `split_sentence(sentence, depth)` follows */
  function SmartPlan(s: string, depth: int): (r: Plan)
    ensures !r.Keep? ==> depth <= 3 && 0 <= r.cut <= |s|
  {
    if depth > 3 || !ShouldSplit(s) then Keep
    else if SplitPoints(s) == [] then Keep
    else
      var p := CutOf(s);
      var part1 := s[..p];
      var part2 := s[p..];
      if LowerStart(part2) then
        if ImportantStart(part2) then Both(p)
        else if |Strip(part2)| > 20 then (if |Strip(part2)| > 80 then Tail(p) else Pair(p))
        else Keep
      else if |Strip(part1)| < 5 || |Strip(part2)| < 5 then Keep
      else Both(p)
  }

  /** A plan only cuts up to depth 3 and within the text. */
  ghost predicate PlanInside(plan: (string, int) -> Plan) {
    forall t, d :: !plan(t, d).Keep? ==> d <= 3 && 0 <= plan(t, d).cut <= |t|
  }

  /** the depth budget left: levels 0 to 3 may cut */
  function Budget(depth: int): nat {
    if depth > 3 then 0 else 4 - depth
  }

  /** the recursion of `split_sentence` for a given plan */
  function SplitWith(plan: (string, int) -> Plan, s: string, depth: int): seq<string>
    requires PlanInside(plan)
    decreases Budget(depth), 0
  {
    match plan(s, depth)
    case Keep => [s]
    case Pair(p) => [s[..p], s[p..]]
    case Tail(p) =>
      var rest := SplitWith(plan, s[p..], depth + 1);
      if |rest| > 1 then [s[..p]] + rest else [s[..p], s[p..]]
    case Both(p) =>
      var res := Piece(plan, s[..p], depth + 1) + Piece(plan, s[p..], depth + 1);
      if res == [] then [s] else res
  }

  /** one half after a cut: split again if longer than 15, kept if non-empty, dropped if empty */
  function Piece(plan: (string, int) -> Plan, part: string, depth: int): seq<string>
    requires PlanInside(plan)
    decreases Budget(depth), 1
  {
    if part != [] && |part| > 15 then SplitWith(plan, part, depth)
    else if part != [] then [part]
    else []
  }

  /** `plan` decides every text and depth as `SmartPlan` does (instantiated only where a proof names the plan) */
  ghost predicate Decides(plan: (string, int) -> Plan) {
    forall t, d {:trigger SmartPlan(t, d)} :: plan(t, d) == SmartPlan(t, d)
  }

  /** the splitter's plan as a function value, known only through `Decides` */
  ghost function SplitterPlan(): (plan: (string, int) -> Plan)
    ensures Decides(plan)
  {
    assert Decides((t, d) => SmartPlan(t, d));
    var plan :| Decides(plan);
    plan
  }

  lemma SplitterPlanInside()
    ensures PlanInside(SplitterPlan())
  {
    var plan := SplitterPlan();
    forall t, d ensures !plan(t, d).Keep? ==> d <= 3 && 0 <= plan(t, d).cut <= |t| {
      assert plan(t, d) == SmartPlan(t, d);
    }
  }

  /** the fragments `split_sentence(sentence, depth)` returns */
  ghost function Fragments(s: string, depth: int): seq<string> {
    SplitterPlanInside();
    SplitWith(SplitterPlan(), s, depth)
  }

  // ------------------------------------------------------------------
  // Candidate properties

  /** a comma outside number contexts and enumerations */
  predicate CommaKept(s: string, i: int)
    requires 0 <= i < |s|
  {
    s[i] == ',' && !NumberContext(s, i) && !SimpleEnumeration(s, i)
  }

  /**
   * What a punctuation candidate can be: a semicolon (5), a colon (4), a kept
   * comma (3 or 5), or the position right after a kept comma (5).
   */
  predicate PunctCandidate(s: string, x: Candidate) {
    0 <= x.pos < |s| &&
    ((s[x.pos] == ';' && x.priority == 5) || (s[x.pos] == ':' && x.priority == 4)
     || (CommaKept(s, x.pos) && (x.priority == 3 || x.priority == 5))
     || (x.pos > 0 && CommaKept(s, x.pos - 1) && x.priority == 5))
  }

  /** The three outcomes of a comma: nothing, a candidate at a kept comma, or one right after it. */
  lemma CommaHitCases(s: string, i: int)
    requires 0 <= i < |s| && s[i] == ','
    ensures CommaHit(s, i) == []
      || (CommaKept(s, i) && (CommaHit(s, i) == [Candidate(i, 3)] || CommaHit(s, i) == [Candidate(i, 5)]))
      || (CommaKept(s, i) && i + 1 < |s| && CommaHit(s, i) == [Candidate(i + 1, 5)])
  {
  }

  lemma CommaHitShape(s: string, i: int)
    requires 0 <= i < |s| && s[i] == ','
    ensures forall x :: x in CommaHit(s, i) ==> PunctCandidate(s, x)
  {
    CommaHitCases(s, i);
    if CommaHit(s, i) != [] {
      var x := CommaHit(s, i)[0];
      assert CommaHit(s, i) == [x];
      if x.pos == i + 1 {
        assert CommaKept(s, x.pos - 1);
      } else {
        assert CommaKept(s, x.pos);
      }
    }
  }

  lemma MarkHitShape(s: string, mark: char, prio: int, i: int)
    requires 0 <= i < |s| && (mark, prio) in PunctTable
    ensures forall x :: x in MarkHit(s, mark, prio, i) ==> PunctCandidate(s, x)
  {
    if s[i] == mark && mark == ',' {
      CommaHitShape(s, i);
    }
  }

  lemma {:induction false} PunctShape(s: string, t: nat)
    requires t <= |PunctTable|
    ensures forall x :: x in PunctCandsUpTo(s, t) ==> PunctCandidate(s, x)
  {
    if t > 0 {
      PunctShape(s, t - 1);
      var (mark, prio) := PunctTable[t - 1];
      var hit := MarkHitAt(s, mark, prio);
      assert PunctBlock(s)(t - 1) == Collect(hit, |s|);
      forall x | x in Collect(hit, |s|) ensures PunctCandidate(s, x) {
        CollectFrom(hit, |s|, x);
        var j :| 0 <= j < |s| && x in hit(j);
        MarkHitShape(s, mark, prio, j);
      }
    }
  }

  /** a stand-alone connective of the vocabulary at `x.pos`, with its priority */
  predicate ConnectiveCandidate(s: string, x: Candidate) {
    exists c :: c in Vocabulary && OccursAt(Lower(s), c, x.pos) && Standalone(s, c, x.pos)
      && x.priority == ConnectivePriority(c)
  }

  lemma {:induction false} HitsShape(s: string, c: string, ps: seq<nat>)
    requires c in Vocabulary
    requires forall i :: 0 <= i < |ps| ==> OccursAt(Lower(s), c, ps[i])
    ensures forall x :: x in Hits(HitAt(s, c), ps) ==> ConnectiveCandidate(s, x)
  {
    if ps != [] {
      assert HitAt(s, c)(ps[0]) == ConnectiveHit(s, c, ps[0]);
      HitsShape(s, c, ps[1..]);
    }
  }

  lemma {:induction false} ConnectiveShape(s: string, k: nat)
    requires k <= |Vocabulary|
    ensures forall x :: x in ConnectiveCandsUpTo(s, k) ==> ConnectiveCandidate(s, x)
  {
    if k > 0 {
      ConnectiveShape(s, k - 1);
      var c := Vocabulary[k - 1];
      HitsShape(s, c, Occurrences(Lower(s), c, 0));
    }
  }

  /**
   * Every candidate of `find_split_points` is a punctuation candidate or a
   * stand-alone connective (whole word, not at the start, more than 20
   * stripped characters on each side), and the list is sorted by position.
   */
  lemma SplitPointsShape(s: string)
    ensures SortedByPos(SplitPoints(s))
    ensures forall x :: x in SplitPoints(s) ==> PunctCandidate(s, x) || ConnectiveCandidate(s, x)
  {
    var gen := PunctCandsUpTo(s, |PunctTable|) + ConnectiveCandsUpTo(s, |Vocabulary|);
    SortByPosSpec(gen);
    PunctShape(s, |PunctTable|);
    ConnectiveShape(s, |Vocabulary|);
    forall x | x in SplitPoints(s) ensures PunctCandidate(s, x) || ConnectiveCandidate(s, x) {
      assert x in multiset(gen);
    }
  }

  lemma SplitPointsInRange(s: string)
    ensures InRange(s, SplitPoints(s))
  {
    SplitPointsShape(s);
    var r := SplitPoints(s);
    forall i | 0 <= i < |r| ensures 0 <= r[i].pos < |s| {
      assert r[i] in r;
      if !PunctCandidate(s, r[i]) {
        var c :| c in Vocabulary && OccursAt(Lower(s), c, r[i].pos) && Standalone(s, c, r[i].pos)
          && r[i].priority == ConnectivePriority(c);
      }
    }
  }

  lemma CommaBeforeConnective(s: string, pos: int)
    requires 0 <= pos < |s| && CommaKept(s, pos)
    requires ConnectiveAfter(s, pos) && !InSubordinateClause(s, pos + 1)
    ensures CommaHit(s, pos) == [Candidate(pos + 1, 5)]
  {
  }

  /** the comma's entry of the table yields what `CommaHit` yields */
  lemma CommaTableHit(s: string, pos: int)
    requires 0 <= pos < |s| && s[pos] == ',' && CommaHit(s, pos) == [Candidate(pos + 1, 5)]
    ensures Candidate(pos + 1, 5) in MarkHitAt(s, PunctTable[2].0, PunctTable[2].1)(pos)
  {
  }

  /** Whatever a mark of the table yields at some position is among the split points. */
  lemma PunctHitInPoints(s: string, t: nat, i: nat, x: Candidate)
    requires t < |PunctTable| && i < |s|
    requires x in MarkHitAt(s, PunctTable[t].0, PunctTable[t].1)(i)
    ensures x in SplitPoints(s)
  {
    var hit := MarkHitAt(s, PunctTable[t].0, PunctTable[t].1);
    CollectHas(hit, i, |s|);
    assert PunctBlock(s)(t) == Collect(hit, |s|);
    CollectHas(PunctBlock(s), t, |PunctTable|);
    var gen := PunctCandsUpTo(s, |PunctTable|) + ConnectiveCandsUpTo(s, |Vocabulary|);
    assert x in gen;
    SortByPosSpec(gen);
    assert x in multiset(SplitPoints(s));
  }

  /**
   * A kept comma followed by a connective, outside a subordinate clause, yields
   * the candidate right after the comma with priority 5.
   */
  lemma CommaConnectiveCandidate(s: string, pos: int)
    requires 0 <= pos < |s| && CommaKept(s, pos)
    requires ConnectiveAfter(s, pos) && !InSubordinateClause(s, pos + 1)
    ensures Candidate(pos + 1, 5) in SplitPoints(s)
  {
    CommaBeforeConnective(s, pos);
    CommaTableHit(s, pos);
    PunctHitInPoints(s, 2, pos, Candidate(pos + 1, 5));
  }

  // ------------------------------------------------------------------
  // Properties of the cut and the recursion

  /**
   * A cut at a comma, or at the space right after a comma, moves past it: the
   * first part ends with the comma, or with the comma and one space.
   * Any other position is left as it is.
   */
  lemma AdjustCutKeepsComma(s: string, pos: int)
    requires 0 <= pos < |s|
    ensures var p := AdjustCut(s, pos);
      if s[pos] == ',' || (s[pos] == ' ' && pos > 0 && s[pos - 1] == ',') then
        pos < p <= pos + 2 && p <= |s| && (s[p - 1] == ',' || (s[p - 1] == ' ' && s[p - 2] == ','))
      else p == pos
    ensures s[pos] == ',' && pos + 1 < |s| && s[pos + 1] == ' ' ==> AdjustCut(s, pos) == pos + 2
  {
  }

  /** Fragments rebuild the text. */
  lemma {:induction false} SplitWithConcat(plan: (string, int) -> Plan, s: string, depth: int)
    requires PlanInside(plan)
    ensures Concat(SplitWith(plan, s, depth)) == s
    decreases Budget(depth), 0
  {
    match plan(s, depth)
    case Keep =>
    case Pair(p) =>
      ConcatPair(s[..p], s[p..]);
      assert s[..p] + s[p..] == s;
    case Tail(p) =>
      var rest := SplitWith(plan, s[p..], depth + 1);
      SplitWithConcat(plan, s[p..], depth + 1);
      ConcatPair(s[..p], s[p..]);
      ConcatAppend([s[..p]], rest);
      assert s[..p] + s[p..] == s;
    case Both(p) =>
      var a := Piece(plan, s[..p], depth + 1);
      var b := Piece(plan, s[p..], depth + 1);
      PieceConcat(plan, s[..p], depth + 1);
      PieceConcat(plan, s[p..], depth + 1);
      ConcatAppend(a, b);
      assert s[..p] + s[p..] == s;
  }

  lemma {:induction false} PieceConcat(plan: (string, int) -> Plan, part: string, depth: int)
    requires PlanInside(plan)
    ensures Concat(Piece(plan, part, depth)) == part
    decreases Budget(depth), 1
  {
    if part != [] && |part| > 15 {
      SplitWithConcat(plan, part, depth);
    }
  }

  /** Each level at most doubles the fragments: at least one and at most 2^(4 - depth). */
  lemma {:induction false} SplitWithCount(plan: (string, int) -> Plan, s: string, depth: int)
    requires PlanInside(plan)
    ensures 1 <= |SplitWith(plan, s, depth)| <= Pow2(Budget(depth))
    decreases Budget(depth), 0
  {
    match plan(s, depth)
    case Keep =>
    case Pair(p) =>
      assert Budget(depth) == Budget(depth + 1) + 1;
    case Tail(p) =>
      SplitWithCount(plan, s[p..], depth + 1);
      assert Budget(depth) == Budget(depth + 1) + 1;
    case Both(p) =>
      PieceCount(plan, s[..p], depth + 1);
      PieceCount(plan, s[p..], depth + 1);
      assert Budget(depth) == Budget(depth + 1) + 1;
  }

  lemma {:induction false} PieceCount(plan: (string, int) -> Plan, part: string, depth: int)
    requires PlanInside(plan)
    ensures |Piece(plan, part, depth)| <= Pow2(Budget(depth))
    decreases Budget(depth), 1
  {
    if part != [] && |part| > 15 {
      SplitWithCount(plan, part, depth);
    }
  }

  /**
   * `split_sentence` loses and reorders nothing and returns at least one and at
   * most 2^(4 - depth) fragments: at most 16 for a sentence split from depth 0.
   */
  lemma FragmentsProperties(s: string, depth: int)
    ensures Concat(Fragments(s, depth)) == s
    ensures 1 <= |Fragments(s, depth)| <= Pow2(Budget(depth))
    ensures depth == 0 ==> |Fragments(s, depth)| <= 16
  {
    SplitterPlanInside();
    SplitWithConcat(SplitterPlan(), s, depth);
    SplitWithCount(SplitterPlan(), s, depth);
    if depth == 0 {
      assert Pow2(4) == 16;
    }
  }

  /** Beyond depth 3, under 60 characters, or matching a problematic pattern, the sentence stays whole. */
  lemma KeptWhole(s: string, depth: int)
    requires depth > 3 || |s| < 60 || Problematic(s)
    ensures Fragments(s, depth) == [s]
  {
    SplitterPlanInside();
    assert SplitterPlan()(s, depth) == SmartPlan(s, depth);
  }

  /**
   * When the second half does not start in lower case and either half is
   * shorter than 5 characters once stripped, the sentence stays whole.
   */
  lemma ShortPartKeptWhole(s: string, depth: int)
    requires SplitPoints(s) != []
    requires !LowerStart(s[CutOf(s)..])
    requires |Strip(s[..CutOf(s)])| < 5 || |Strip(s[CutOf(s)..])| < 5
    ensures Fragments(s, depth) == [s]
  {
    SplitterPlanInside();
    assert SplitterPlan()(s, depth) == SmartPlan(s, depth);
  }

  /**
   * A second half that starts in lower case without an important starter and
   * holds 21 to 80 characters once stripped is cut off once, without recursion.
   */
  lemma LowerTailSplitOnce(s: string)
    requires ShouldSplit(s)
    requires LowerStart(s[CutOf(s)..]) && !ImportantStart(s[CutOf(s)..])
    requires 20 < |Strip(s[CutOf(s)..])| <= 80
    ensures Fragments(s, 0) == [s[..CutOf(s)], s[CutOf(s)..]]
  {
    SplitterPlanInside();
    assert SplitterPlan()(s, 0) == SmartPlan(s, 0);
  }

  // ------------------------------------------------------------------
  // process_sentences

  /** the fragments of one sentence in `process_sentences`: none when it is blank */
  ghost function SentencePieces(sentence: string): seq<string> {
    if Strip(sentence) != [] then Fragments(Strip(sentence), 0) else []
  }

  /** `process_sentences`: each non-blank sentence, stripped, split into fragments */
  ghost function ProcessedSentences(ss: seq<string>): seq<string> {
    if ss == [] then [] else ProcessedSentences(ss[..|ss| - 1]) + SentencePieces(ss[|ss| - 1])
  }

  /** Processing loses nothing but blank sentences and the whitespace around each. */
  lemma {:induction false} ProcessedSentencesConcat(ss: seq<string>)
    ensures Concat(ProcessedSentences(ss)) == Concat(Kept(ss))
  {
    if ss != [] {
      var init := ss[..|ss| - 1];
      var last := ss[|ss| - 1];
      ProcessedSentencesConcat(init);
      var t := Strip(last);
      if t != [] {
        FragmentsProperties(t, 0);
        assert Concat([t]) == t;
      }
      ConcatAppend(ProcessedSentences(init), SentencePieces(last));
      ConcatAppend(Kept(init), KeptLine(last));
    }
  }

  // ------------------------------------------------------------------
  // The splitter's loops

  /** the `re.finditer` scan of one punctuation mark */
  method FindMark(s: string, mark: char, prio: int) returns (points: seq<Candidate>)
    ensures points == Collect(MarkHitAt(s, mark, prio), |s|)
  {
    points := ScanPositions(MarkHitAt(s, mark, prio), |s|);
  }

  /** the `find` loop of one connective, on the lower-cased sentence */
  method FindConnective(s: string, c: string) returns (points: seq<Candidate>)
    requires |c| > 0
    ensures points == ConnectiveScan(s, c)
  {
    points := ScanOccurrences(HitAt(s, c), Lower(s), c);
  }

  /** `find_split_points` */
  method FindSplitPoints(s: string) returns (points: seq<Candidate>)
    ensures points == SplitPoints(s)
  {
    points := [];
    var t := 0;
    while t < |PunctTable|
      invariant 0 <= t <= |PunctTable|
      invariant points == PunctCandsUpTo(s, t)
    {
      var found := FindMark(s, PunctTable[t].0, PunctTable[t].1);
      assert PunctBlock(s)(t) == found;
      points := points + found;
      t := t + 1;
    }
    var conn: seq<Candidate> := [];
    var k := 0;
    while k < |Vocabulary|
      invariant 0 <= k <= |Vocabulary|
      invariant conn == ConnectiveCandsUpTo(s, k)
    {
      var found := FindConnective(s, Vocabulary[k]);
      conn := conn + found;
      k := k + 1;
    }
    points := SortByPos(points + conn);
  }

  /** `should_split_sentence` */
  method ShouldSplitSentence(s: string) returns (should: bool)
    ensures should == ShouldSplit(s)
  {
    if |s| < 60 {
      return false;
    }
    if Problematic(s) {
      return false;
    }
    var points := FindSplitPoints(s);
    should := |points| > 0;
  }

  /** the checks of `split_sentence` and its choice of cut before it recurses */
  method DecidePlan(s: string, depth: int) returns (plan: Plan)
    ensures plan == SplitterPlan()(s, depth)
  {
    assert SplitterPlan()(s, depth) == SmartPlan(s, depth);
    if depth > 3 {
      return Keep;
    }
    var should := ShouldSplitSentence(s);
    if !should {
      return Keep;
    }
    var points := FindSplitPoints(s);
    if points == [] {
      return Keep;
    }
    SplitPointsInRange(s);
    var p := AdjustCut(s, Best(points).pos);
    var part1 := s[..p];
    var part2 := s[p..];
    if LowerStart(part2) {
      if ImportantStart(part2) {
        return Both(p);
      }
      if |Strip(part2)| > 20 {
        if |Strip(part2)| > 80 {
          return Tail(p);
        }
        return Pair(p);
      }
      return Keep;
    }
    if |Strip(part1)| < 5 || |Strip(part2)| < 5 {
      return Keep;
    }
    return Both(p);
  }

  /** the fragments of one half after a cut */
  ghost function PieceOf(part: string, depth: int): seq<string> {
    SplitterPlanInside();
    Piece(SplitterPlan(), part, depth)
  }

  /** `split_sentence` */
  method SplitSentence(s: string, depth: int) returns (result: seq<string>)
    ensures result == Fragments(s, depth)
    decreases Budget(depth), 0
  {
    var plan := DecidePlan(s, depth);
    SplitterPlanInside();
    match plan
    case Keep =>
      result := [s];
    case Pair(p) =>
      result := [s[..p], s[p..]];
    case Tail(p) =>
      var rest := SplitSentence(s[p..], depth + 1);
      if |rest| > 1 {
        result := [s[..p]] + rest;
      } else {
        result := [s[..p], s[p..]];
      }
    case Both(p) =>
      var r1 := SplitPart(s[..p], depth + 1);
      var r2 := SplitPart(s[p..], depth + 1);
      result := r1 + r2;
      if result == [] {
        result := [s];
      }
  }

  /** one half in `split_sentence`: split again when longer than 15, kept when non-empty */
  method SplitPart(part: string, depth: int) returns (result: seq<string>)
    ensures result == PieceOf(part, depth)
    decreases Budget(depth), 1
  {
    SplitterPlanInside();
    if part != [] && |part| > 15 {
      result := SplitSentence(part, depth);
    } else if part != [] {
      result := [part];
    } else {
      result := [];
    }
  }

  /** `process_sentences` */
  method ProcessSentences(sentences: seq<string>) returns (result: seq<string>)
    ensures result == ProcessedSentences(sentences)
  {
    result := [];
    var i := 0;
    while i < |sentences|
      invariant 0 <= i <= |sentences|
      invariant result == ProcessedSentences(sentences[..i])
    {
      ProcessedSentencesStep(sentences, i);
      var pieces := ProcessSentence(sentences[i]);
      result := result + pieces;
      i := i + 1;
    }
    assert sentences[..i] == sentences;
  }

  /** one sentence of `process_sentences`: stripped, skipped when blank, split otherwise */
  method ProcessSentence(sentence: string) returns (pieces: seq<string>)
    ensures pieces == SentencePieces(sentence)
  {
    var stripped := Strip(sentence);
    if stripped != [] {
      pieces := SplitSentence(stripped, 0);
    } else {
      pieces := [];
    }
  }

  lemma ProcessedSentencesStep(ss: seq<string>, i: int)
    requires 0 <= i < |ss|
    ensures ProcessedSentences(ss[..i + 1]) == ProcessedSentences(ss[..i]) + SentencePieces(ss[i])
  {
    assert ss[..i + 1][..i] == ss[..i];
  }
}
