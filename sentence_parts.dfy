/**
 * What the two regex-based sentence splitters share: `pattern.split(text)`
 * for the pattern `([E]+)\s+` with one capture group, where `E` is a set of
 * ending characters, and the loop that glues the returned parts back into
 * sentences. The split returns the text between matches at even positions
 * and the captured marks at odd ones; the whitespace after each mark is
 * matched but not captured, so it disappears from the parts.
 */
module SentenceParts {
  import opened PyText
  import Seqs

  /** the run of ending characters at the start of `t` */
  function EndRun(ends: set<char>, t: string): (n: nat)
    ensures n <= |t|
  {
    if t != [] && t[0] in ends then 1 + EndRun(ends, t[1..]) else 0
  }

  lemma {:induction false} EndRunFacts(ends: set<char>, t: string)
    ensures forall i :: 0 <= i < EndRun(ends, t) ==> t[i] in ends
    ensures EndRun(ends, t) == |t| || t[EndRun(ends, t)] !in ends
  {
    if t != [] && t[0] in ends {
      EndRunFacts(ends, t[1..]);
    }
  }

  /** the largest `m <= k`, `m > 0`, with `t[m]` whitespace, or 0 */
  function BackOff(t: string, k: nat): (m: nat)
    ensures m <= k
  {
    if k == 0 then 0 else if k < |t| && IsSpace(t[k]) then k else BackOff(t, k - 1)
  }

  lemma {:induction false} BackOffFacts(t: string, k: nat)
    ensures BackOff(t, k) > 0 ==> BackOff(t, k) < |t| && IsSpace(t[BackOff(t, k)])
    ensures forall j :: BackOff(t, k) < j <= k && j < |t| ==> !IsSpace(t[j])
  {
    if k > 0 && !(k < |t| && IsSpace(t[k])) {
      BackOffFacts(t, k - 1);
    }
  }

  /**
   * How much of `t` the group `([E]+)` captures when the pattern matches at
   * the start of `t`, or 0 when it does not match there: the greedy run of
   * ending characters gives back characters until whitespace follows.
   */
  function MarkLen(ends: set<char>, t: string): (m: nat)
    ensures m <= |t|
  {
    BackOff(t, EndRun(ends, t))
  }

  /** A captured mark is made of ending characters and followed by whitespace. */
  lemma MarkLenFacts(ends: set<char>, t: string)
    ensures var m := MarkLen(ends, t);
      m > 0 ==> m < |t| && IsSpace(t[m]) && forall i :: 0 <= i < m ==> t[i] in ends
  {
    EndRunFacts(ends, t);
    BackOffFacts(t, EndRun(ends, t));
  }

  /** the run of whitespace `\s+` takes */
  function SpaceRun(t: string): (n: nat)
    ensures n <= |t|
  {
    if t != [] && IsSpace(t[0]) then 1 + SpaceRun(t[1..]) else 0
  }

  lemma {:induction false} SpaceRunFacts(t: string)
    ensures AllSpace(t[..SpaceRun(t)])
    ensures t != [] && IsSpace(t[0]) ==> SpaceRun(t) > 0
  {
    if t != [] && IsSpace(t[0]) {
      SpaceRunFacts(t[1..]);
      assert t[..SpaceRun(t)] == [t[0]] + t[1..][..SpaceRun(t[1..])];
    }
  }

  /** the pattern matches at position `j` of `t` */
  predicate MatchesAt(ends: set<char>, t: string, j: nat)
    requires j <= |t|
  {
    MarkLen(ends, t[j..]) > 0
  }

  /** the pattern matches nowhere in `i..p` */
  predicate NoMatchIn(ends: set<char>, t: string, i: nat, p: nat)
    requires i <= p <= |t|
  {
    forall j :: i <= j < p ==> !MatchesAt(ends, t, j)
  }

  /** the leftmost position at or after `i` where the pattern matches, or `|t|` */
  function FirstMatch(ends: set<char>, t: string, i: nat): (p: nat)
    requires i <= |t|
    ensures i <= p <= |t|
    decreases |t| - i
  {
    if i == |t| then |t| else if MatchesAt(ends, t, i) then i else FirstMatch(ends, t, i + 1)
  }

  /** `FirstMatch` finds a match, and the leftmost one. */
  lemma {:induction false} FirstMatchFacts(ends: set<char>, t: string, i: nat)
    requires i <= |t|
    ensures FirstMatch(ends, t, i) < |t| ==> MatchesAt(ends, t, FirstMatch(ends, t, i))
    ensures NoMatchIn(ends, t, i, FirstMatch(ends, t, i))
    decreases |t| - i
  {
    if i < |t| && !MatchesAt(ends, t, i) {
      FirstMatchFacts(ends, t, i + 1);
    }
  }

  /**
   * The first match of the pattern in a text, taken apart: the text before
   * it, the captured mark, the whitespace matched after the mark, and the
   * rest of the text, where the split goes on.
   */
  datatype Cut = NoMatch | Found(before: string, mark: string, gap: string, rest: string)

  function FirstCut(ends: set<char>, t: string): (c: Cut)
    ensures c.Found? ==> |c.rest| < |t|
  {
    var p := FirstMatch(ends, t, 0);
    if p == |t| then NoMatch
    else
      var k := MarkLen(ends, t[p..]);
      var n := Next(ends, t);
      Found(t[..p], t[p..p + k], t[p + k..n], t[n..])
  }

  /** `re.split(r"([E]+)\s+", t)` */
  function SplitParts(ends: set<char>, t: string): (parts: seq<string>)
    decreases |t|
  {
    match FirstCut(ends, t)
    case NoMatch => [t]
    case Found(before, mark, _, rest) => [before, mark] + SplitParts(ends, rest)
  }

  /** the whitespace each match consumed without capturing it */
  function SplitGaps(ends: set<char>, t: string): (gaps: seq<string>)
    decreases |t|
  {
    match FirstCut(ends, t)
    case NoMatch => []
    case Found(_, _, gap, rest) => [gap] + SplitGaps(ends, rest)
  }

  /** the parts with the gaps put back after each mark */
  function Weave(parts: seq<string>, gaps: seq<string>): string
    requires |parts| == 2 * |gaps| + 1
  {
    if gaps == [] then parts[0] else parts[0] + parts[1] + gaps[0] + Weave(parts[2..], gaps[1..])
  }

  /** The match found at `p` captures a mark and is followed by whitespace. */
  lemma MatchShape(ends: set<char>, t: string, p: nat)
    requires p < |t| && MatchesAt(ends, t, p)
    ensures var k := MarkLen(ends, t[p..]); p + k < |t| && SpaceRun(t[p + k..]) > 0
  {
    var k := MarkLen(ends, t[p..]);
    MarkLenFacts(ends, t[p..]);
    assert t[p..][k] == t[p + k];
    assert t[p + k..][0] == t[p + k];
    SpaceRunFacts(t[p + k..]);
  }

  /** The mark captured at `p` consists of ending characters and is followed by whitespace. */
  lemma MatchMark(ends: set<char>, t: string, p: nat)
    requires p < |t| && MatchesAt(ends, t, p)
    ensures var k := MarkLen(ends, t[p..]);
      p + k < |t| && IsSpace(t[p + k]) && IsMarkPart(ends, t[p..p + k]) && t[p + k - 1] in ends
  {
    var k := MarkLen(ends, t[p..]);
    MarkLenFacts(ends, t[p..]);
    assert t[p..][k] == t[p + k];
    assert t[p..p + k] == t[p..][..k];
  }

  /** where the split resumes after the first match of `t` */
  function Next(ends: set<char>, t: string): (n: nat)
    requires FirstMatch(ends, t, 0) < |t|
    ensures 0 < n <= |t|
  {
    var p := FirstMatch(ends, t, 0);
    var k := MarkLen(ends, t[p..]);
    p + k + SpaceRun(t[p + k..])
  }

  /** The first match captures a mark and some whitespace after it. */
  lemma StepBounds(ends: set<char>, t: string)
    requires FirstMatch(ends, t, 0) < |t|
    ensures var p := FirstMatch(ends, t, 0); var k := MarkLen(ends, t[p..]); 0 < k && p + k < Next(ends, t)
  {
    FirstMatchFacts(ends, t, 0);
    MatchShape(ends, t, FirstMatch(ends, t, 0));
  }

  /** A cut puts the text back together. */
  lemma CutJoins(ends: set<char>, t: string)
    ensures var c := FirstCut(ends, t); c.Found? ==> t == c.before + c.mark + c.gap + c.rest
  {
    var p := FirstMatch(ends, t, 0);
    if p < |t| {
      var k := MarkLen(ends, t[p..]);
      var n := Next(ends, t);
      assert p + k < n by {
        StepBounds(ends, t);
      }
      SliceJoin(t, p, p + k, n);
    }
  }

  lemma SliceJoin(t: string, p: nat, q: nat, n: nat)
    requires p <= q <= n <= |t|
    ensures t == t[..p] + t[p..q] + t[q..n] + t[n..]
  {
    assert t[..q] == t[..p] + t[p..q];
    assert t[..n] == t[..q] + t[q..n];
  }

  /** The mark of a cut is a non-empty run of ending characters. */
  lemma CutMark(ends: set<char>, t: string)
    ensures var c := FirstCut(ends, t); c.Found? ==> IsMarkPart(ends, c.mark)
  {
    var p := FirstMatch(ends, t, 0);
    if p < |t| {
      FirstMatchFacts(ends, t, 0);
      MatchMark(ends, t, p);
    }
  }

  /** The gap of a cut is non-empty whitespace. */
  lemma CutGap(ends: set<char>, t: string)
    ensures var c := FirstCut(ends, t); c.Found? ==> c.gap != [] && AllSpace(c.gap)
  {
    var p := FirstMatch(ends, t, 0);
    if p < |t| {
      var k := MarkLen(ends, t[p..]);
      var n := Next(ends, t);
      assert p + k < n by {
        StepBounds(ends, t);
      }
      SpaceRunFacts(t[p + k..]);
      assert t[p + k..n] == t[p + k..][..n - p - k];
    }
  }

  lemma WeaveCons(a: string, b: string, g: string, ps: seq<string>, gs: seq<string>)
    requires |ps| == 2 * |gs| + 1
    ensures Weave([a, b] + ps, [g] + gs) == a + b + g + Weave(ps, gs)
  {
    assert ([a, b] + ps)[2..] == ps;
    assert ([g] + gs)[1..] == gs;
  }

  /**
   * The split loses nothing but the gaps: there is one gap per mark, and
   * weaving the gaps back in gives the text.
   */
  lemma {:induction false} SplitWeave(ends: set<char>, t: string)
    ensures |SplitParts(ends, t)| == 2 * |SplitGaps(ends, t)| + 1
    ensures Weave(SplitParts(ends, t), SplitGaps(ends, t)) == t
    decreases |t|
  {
    var c := FirstCut(ends, t);
    if c.Found? {
      var a, m, g, rest := c.before, c.mark, c.gap, c.rest;
      CutJoins(ends, t);
      SplitWeave(ends, rest);
      WeaveCons(a, m, g, SplitParts(ends, rest), SplitGaps(ends, rest));
    }
  }

  /** every gap is a non-empty run of whitespace */
  predicate SpaceGaps(gaps: seq<string>) {
    forall j :: 0 <= j < |gaps| ==> gaps[j] != [] && AllSpace(gaps[j])
  }

  lemma SpaceGapsCons(g: string, gaps: seq<string>)
    requires g != [] && AllSpace(g) && SpaceGaps(gaps)
    ensures SpaceGaps([g] + gaps)
  {
    forall j | 0 < j <= |gaps| ensures ([g] + gaps)[j] == gaps[j - 1] { }
  }

  /** Every gap is non-empty whitespace. */
  lemma {:induction false} SplitGapsSpace(ends: set<char>, t: string)
    ensures SpaceGaps(SplitGaps(ends, t))
    decreases |t|
  {
    var c := FirstCut(ends, t);
    if c.Found? {
      var a, m, g, rest := c.before, c.mark, c.gap, c.rest;
      CutGap(ends, t);
      SplitGapsSpace(ends, rest);
      SpaceGapsCons(g, SplitGaps(ends, rest));
    }
  }

  /** every odd part is a captured mark */
  predicate OddMarks(ends: set<char>, parts: seq<string>) {
    forall j :: 0 <= j < |parts| && j % 2 == 1 ==> IsMarkPart(ends, parts[j])
  }

  lemma OddMarksCons(ends: set<char>, a: string, m: string, parts: seq<string>)
    requires IsMarkPart(ends, m) && OddMarks(ends, parts)
    ensures OddMarks(ends, [a, m] + parts)
  {
    var all := [a, m] + parts;
    forall j | 2 <= j < |all| && j % 2 == 1 ensures IsMarkPart(ends, all[j]) {
      assert all[j] == parts[j - 2];
    }
  }

  /** Every captured mark is a non-empty run of ending characters. */
  lemma {:induction false} SplitMarks(ends: set<char>, t: string)
    ensures OddMarks(ends, SplitParts(ends, t))
    decreases |t|
  {
    var c := FirstCut(ends, t);
    if c.Found? {
      var a, m, g, rest := c.before, c.mark, c.gap, c.rest;
      CutMark(ends, t);
      SplitMarks(ends, rest);
      OddMarksCons(ends, a, m, SplitParts(ends, rest));
    }
  }

  /** a captured mark: a non-empty run of ending characters */
  predicate IsMarkPart(ends: set<char>, m: string) {
    m != [] && forall i :: 0 <= i < |m| ==> m[i] in ends
  }

  /** Wherever the pattern matches, the split returns a mark. */
  lemma MatchSplits(ends: set<char>, t: string, j: nat)
    requires j <= |t| && MatchesAt(ends, t, j)
    ensures |SplitParts(ends, t)| >= 2
  {
    FirstMatchFacts(ends, t, 0);
    assert FirstCut(ends, t).Found?;
  }

  /** Without an ending character followed by whitespace, the split returns the text alone. */
  lemma NoMatchOnePart(ends: set<char>, t: string)
    requires forall i :: 0 <= i < |t| - 1 ==> !(t[i] in ends && IsSpace(t[i + 1]))
    ensures SplitParts(ends, t) == [t]
  {
    var p := FirstMatch(ends, t, 0);
    if p < |t| {
      FirstMatchFacts(ends, t, 0);
      MatchMark(ends, t, p);
      assert false;
    }
  }

  // ------------------------------------------------------------------
  // Gluing parts into sentences

  /** how the splitter decides that a sentence is not finished after a mark */
  datatype Abbreviations =
    | NoAbbreviations                 // every mark ends a sentence
    | Patterns(patterns: seq<string>) // a listed ending, or " X." with X upper case

  /** some pattern of `ps` ends the text, tried in order */
  predicate EndsInAny(ps: seq<string>, text: string) {
    ps != [] && (EndsWith(text, ps[0]) || EndsInAny(ps[1..], text))
  }

  /** Trying the patterns in order finds one exactly when some pattern ends the text. */
  lemma {:induction false} EndsInAnyIff(ps: seq<string>, text: string)
    ensures EndsInAny(ps, text) <==> exists j :: 0 <= j < |ps| && EndsWith(text, ps[j])
  {
    if ps != [] {
      EndsInAnyIff(ps[1..], text);
      if j :| 0 <= j < |ps| && EndsWith(text, ps[j]) {
        if j > 0 {
          assert ps[1..][j - 1] == ps[j];
        }
      }
      if EndsInAny(ps[1..], text) {
        var k :| 0 <= k < |ps| - 1 && EndsWith(text, ps[1..][k]);
        assert ps[k + 1] == ps[1..][k];
      }
    }
  }

  /** `_is_abbreviation(current_sentence)` of the plugin; never true for the script */
  predicate IsAbbreviation(ab: Abbreviations, text: string) {
    match ab
    case NoAbbreviations => false
    case Patterns(ps) =>
      EndsInAny(ps, text)
      || (|text| >= 3 && text[|text| - 1] == '.' && IsUpper(text[|text| - 2]) && text[|text| - 3] == ' ')
  }

  /** the sentences closed so far and the one being built */
  datatype Acc = Acc(groups: seq<string>, current: string)

  /**
   * The state of the loop after the first `n` parts: every part is appended
   * to the current sentence, and after a mark the sentence is closed unless
   * it ends in an abbreviation.
   */
  function Gather(ab: Abbreviations, parts: seq<string>, n: nat): Acc
    requires n <= |parts|
  {
    if n == 0 then Acc([], "")
    else
      var a := Gather(ab, parts, n - 1);
      var c := a.current + parts[n - 1];
      if (n - 1) % 2 == 0 || IsAbbreviation(ab, c) then Acc(a.groups, c) else Acc(a.groups + [c], "")
  }

  /** the sentences the splitter returns for the given parts */
  function Sentences(ab: Abbreviations, parts: seq<string>): seq<string> {
    var a := Gather(ab, parts, |parts|);
    Kept(a.groups + [a.current])
  }

  /** The closed sentences and the open one are the parts, in order, with nothing added or lost. */
  lemma {:induction false} GatherCovers(ab: Abbreviations, parts: seq<string>, n: nat)
    requires n <= |parts|
    ensures Concat(Gather(ab, parts, n).groups) + Gather(ab, parts, n).current == Concat(parts[..n])
  {
    if n > 0 {
      GatherCovers(ab, parts, n - 1);
      var a := Gather(ab, parts, n - 1);
      var x := parts[n - 1];
      assert Concat(parts[..n]) == Concat(parts[..n - 1]) + x by {
        assert parts[..n] == parts[..n - 1] + [x];
        ConcatAppend(parts[..n - 1], [x]);
        ConcatOne(x);
      }
      var c := a.current + x;
      if !((n - 1) % 2 == 0 || IsAbbreviation(ab, c)) {
        assert Concat(a.groups + [c]) == Concat(a.groups) + c by {
          ConcatAppend(a.groups, [c]);
          ConcatOne(c);
        }
      }
    }
  }

  lemma ConcatOne(x: string)
    ensures Concat([x]) == x
  {
    assert [x][1..] == [];
  }

  /**
   * Every closed sentence ends in its last mark and was not taken for an
   * abbreviation.
   */
  lemma {:induction false} GatherClosed(ends: set<char>, ab: Abbreviations, parts: seq<string>, n: nat)
    requires n <= |parts|
    requires OddMarks(ends, parts)
    ensures forall j :: 0 <= j < |Gather(ab, parts, n).groups| ==>
      EndsIn(ends, Gather(ab, parts, n).groups[j]) && !IsAbbreviation(ab, Gather(ab, parts, n).groups[j])
  {
    if n > 0 {
      GatherClosed(ends, ab, parts, n - 1);
      var a := Gather(ab, parts, n - 1);
      var c := a.current + parts[n - 1];
      if !((n - 1) % 2 == 0 || IsAbbreviation(ab, c)) {
        assert IsMarkPart(ends, parts[n - 1]);
        assert c[|c| - 1] == parts[n - 1][|parts[n - 1]| - 1];
      }
    }
  }

  /** The splitter's sentences are stripped, non-empty, and the stripped non-blank groups in order. */
  lemma SentencesStripped(ab: Abbreviations, parts: seq<string>)
    ensures forall x :: x in Sentences(ab, parts) ==> x != [] && Strip(x) == x
  {
    var a := Gather(ab, parts, |parts|);
    KeptStripped(a.groups + [a.current]);
  }

  lemma {:induction false} KeptAppend(a: seq<string>, b: seq<string>)
    ensures Kept(a + b) == Kept(a) + Kept(b)
    decreases |b|
  {
    if b == [] {
      assert a + b == a;
    } else {
      var front, x := b[..|b| - 1], b[|b| - 1];
      Seqs.SplitLast(b);
      Seqs.AppendAssoc(a, front, [x]);
      KeptSnoc(a + front, x);
      KeptAppend(a, front);
      KeptSnoc(front, x);
      Seqs.AppendAssoc(Kept(a), Kept(front), KeptLine(x));
    }
  }

  /** Each kept line is the stripped form of some line. */
  lemma {:induction false} KeptFrom(lines: seq<string>)
    ensures forall x :: x in Kept(lines) ==> exists l :: l in lines && Strip(l) == x
  {
    if lines != [] {
      KeptFrom(lines[..|lines| - 1]);
      forall x | x in Kept(lines) ensures exists l :: l in lines && Strip(l) == x {
        if x in Kept(lines[..|lines| - 1]) {
          var l :| l in lines[..|lines| - 1] && Strip(l) == x;
          assert l in lines;
        } else {
          assert Strip(lines[|lines| - 1]) == x;
        }
      }
    }
  }

  /** `x` ends in one of the ending characters */
  predicate EndsIn(ends: set<char>, x: string) {
    x != [] && x[|x| - 1] in ends
  }

  /**
   * With ending characters that are not whitespace, every sentence but the
   * last ends in an ending character.
   */
  lemma SentencesEndInMarks(ends: set<char>, ab: Abbreviations, parts: seq<string>)
    requires forall c :: c in ends ==> !IsSpace(c)
    requires OddMarks(ends, parts)
    ensures forall i :: 0 <= i < |Sentences(ab, parts)| - 1 ==> EndsIn(ends, Sentences(ab, parts)[i])
  {
    var a := Gather(ab, parts, |parts|);
    var closed := Kept(a.groups);
    assert Sentences(ab, parts) == closed + KeptLine(a.current) by {
      KeptAppend(a.groups, [a.current]);
      assert [a.current][..0] == [];
    }
    GatherClosed(ends, ab, parts, |parts|);
    KeptEndIn(ends, a.groups);
  }

  /** Kept lines of lines ending in a non-space ending character end in it too. */
  lemma {:induction false} KeptEndIn(ends: set<char>, gs: seq<string>)
    requires forall c :: c in ends ==> !IsSpace(c)
    requires forall j :: 0 <= j < |gs| ==> EndsIn(ends, gs[j])
    ensures forall i :: 0 <= i < |Kept(gs)| ==> EndsIn(ends, Kept(gs)[i])
  {
    if gs != [] {
      var init := gs[..|gs| - 1];
      var g := gs[|gs| - 1];
      KeptEndIn(ends, init);
      assert Kept(gs) == Kept(init) + KeptLine(g);
      if Strip(g) != [] {
        assert EndsIn(ends, g);
        StripKeepsLast(g);
        assert EndsIn(ends, Strip(g));
      }
    }
  }

  /** Stripping a string that ends in a non-space keeps that last character. */
  lemma StripKeepsLast(g: string)
    requires g != [] && !IsSpace(g[|g| - 1])
    ensures Strip(g) != [] && Strip(g)[|Strip(g)| - 1] == g[|g| - 1]
  {
    var l := LStrip(g);
    assert l != [] && l[|l| - 1] == g[|g| - 1];
    var r := RStrip(l);
    assert |r| == |l|;
  }

  // ------------------------------------------------------------------
  // Characters the text lacks

  /** no string of `xs` contains `c` */
  predicate NoneContain(xs: seq<string>, c: char) {
    forall i :: 0 <= i < |xs| ==> !ContainsChar(xs[i], c)
  }

  /** A character absent from a cut text is absent from each of its pieces. */
  lemma CutPiecesLack(a: string, m: string, g: string, rest: string, c: char)
    requires !ContainsChar(a + m + g + rest, c)
    ensures !ContainsChar(a, c) && !ContainsChar(m, c) && !ContainsChar(rest, c)
  {
    ContainsCharConcat(a + m + g, rest, c);
    ContainsCharConcat(a + m, g, c);
    ContainsCharConcat(a, m, c);
  }

  /** Two strings lacking `c` in front of strings lacking `c`. */
  lemma NoneContainCons2(a: string, m: string, ps: seq<string>, c: char)
    requires !ContainsChar(a, c) && !ContainsChar(m, c) && NoneContain(ps, c)
    ensures NoneContain([a, m] + ps, c)
  {
    forall i | 0 <= i < |ps| + 2 ensures !ContainsChar(([a, m] + ps)[i], c) {
      if i >= 2 {
        assert ([a, m] + ps)[i] == ps[i - 2];
      }
    }
  }

  /** A character the text lacks is in no part of its split. */
  lemma {:induction false} PartsKeepAbsent(ends: set<char>, t: string, c: char)
    requires !ContainsChar(t, c)
    ensures NoneContain(SplitParts(ends, t), c)
    decreases |t|
  {
    var cut := FirstCut(ends, t);
    if cut.Found? {
      CutJoins(ends, t);
      CutPiecesLack(cut.before, cut.mark, cut.gap, cut.rest, c);
      PartsKeepAbsent(ends, cut.rest, c);
      NoneContainCons2(cut.before, cut.mark, SplitParts(ends, cut.rest), c);
    }
  }

  /** A character no part holds is in no group and not in the open sentence. */
  lemma {:induction false} GatherKeepsAbsent(ab: Abbreviations, parts: seq<string>, n: nat, c: char)
    requires n <= |parts| && NoneContain(parts, c)
    ensures NoneContain(Gather(ab, parts, n).groups, c) && !ContainsChar(Gather(ab, parts, n).current, c)
  {
    if n > 0 {
      GatherKeepsAbsent(ab, parts, n - 1, c);
      var a := Gather(ab, parts, n - 1);
      ContainsCharConcat(a.current, parts[n - 1], c);
      assert !ContainsChar("", c);
    }
  }

  /** Stripping and dropping lines adds no character. */
  lemma {:induction false} KeptKeepsAbsent(lines: seq<string>, c: char)
    requires NoneContain(lines, c)
    ensures NoneContain(Kept(lines), c)
  {
    if lines != [] {
      var init := lines[..|lines| - 1];
      var l := lines[|lines| - 1];
      KeptKeepsAbsent(init, c);
      StripKeepsAbsent(l, c);
    }
  }

  /** A character no part holds is in no sentence. */
  lemma SentencesKeepAbsent(ab: Abbreviations, parts: seq<string>, c: char)
    requires NoneContain(parts, c)
    ensures NoneContain(Sentences(ab, parts), c)
  {
    var a := Gather(ab, parts, |parts|);
    GatherKeepsAbsent(ab, parts, |parts|, c);
    KeptKeepsAbsent(a.groups + [a.current], c);
  }
}
