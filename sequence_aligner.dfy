/**
 * The word-level diff of scripts/text_diff: a longest-common-subsequence
 * matrix filled by two nested loops, a backtracking walk from its far corner
 * that emits an alignment, the translation of the alignment into difference
 * records tagged with word positions, and the counts derived from those.
 * The similarity ratio, a float, is not modelled.
 */
module SequenceAligner {

  /** The kinds of step of an alignment and of a difference record (`DiffType`). */
  datatype DiffType = Equal | Insert | Delete | Replace

  /** one alignment step `(operation, word1, word2)` */
  datatype Step = Step(op: DiffType, oldWord: string, newWord: string)

  /** a word's position entry: its line and column */
  datatype Pos = Pos(line: int, column: int)

  datatype WordDifference = WordDifference(
    kind: DiffType,
    oldWord: string, newWord: string,
    oldPosition: int, newPosition: int,
    oldLine: int, newLine: int,
    oldColumn: int, newColumn: int)

  /** `ComparisonResult` without the similarity ratio */
  datatype ComparisonResult = ComparisonResult(
    differences: seq<WordDifference>,
    totalDifferences: int, insertions: int, deletions: int, replacements: int, equalWords: int)

  function Max(x: int, y: int): int { if x >= y then x else y }
  function Min(x: int, y: int): int { if x <= y then x else y }

  // ------------------------------------------------------------------
  // The longest common subsequence

  /** the length of a longest common subsequence of `a` and `b`, by the recurrence on their last words */
  function Lcs(a: seq<string>, b: seq<string>): nat
    decreases |a| + |b|
  {
    if |a| == 0 || |b| == 0 then 0
    else if a[|a| - 1] == b[|b| - 1] then Lcs(a[..|a| - 1], b[..|b| - 1]) + 1
    else Max(Lcs(a[..|a| - 1], b), Lcs(a, b[..|b| - 1]))
  }

  /** Dropping the last word of either side lowers the LCS by at most one and never raises it. */
  lemma {:induction false} LcsBounds(a: seq<string>, b: seq<string>)
    ensures |a| > 0 ==> Lcs(a[..|a| - 1], b) <= Lcs(a, b) <= Lcs(a[..|a| - 1], b) + 1
    ensures |b| > 0 ==> Lcs(a, b[..|b| - 1]) <= Lcs(a, b) <= Lcs(a, b[..|b| - 1]) + 1
    decreases |a| + |b|
  {
    if |a| > 0 && |b| > 0 {
      var a', b' := a[..|a| - 1], b[..|b| - 1];
      LcsBounds(a', b);
      LcsBounds(a, b');
      if |a'| > 0 {
        assert a'[..|a'| - 1] == a[..|a| - 2];
      }
      LcsBounds(a', b');
    }
  }

  /** an alignment: equal steps pair a word with itself */
  predicate Aligned(al: seq<Step>) {
    forall k :: 0 <= k < |al| && al[k].op == Equal ==> al[k].oldWord == al[k].newWord
  }

  /** the old side of an alignment: the words of its equal, delete and replace steps */
  function Olds(al: seq<Step>): seq<string> {
    if al == [] then []
    else Olds(al[..|al| - 1]) + (if al[|al| - 1].op == Insert then [] else [al[|al| - 1].oldWord])
  }

  /** the new side of an alignment: the words of its equal, insert and replace steps */
  function News(al: seq<Step>): seq<string> {
    if al == [] then []
    else News(al[..|al| - 1]) + (if al[|al| - 1].op == Delete then [] else [al[|al| - 1].newWord])
  }

  /** the number of steps of kind `op` */
  function CountOp(al: seq<Step>, op: DiffType): nat {
    if al == [] then 0
    else CountOp(al[..|al| - 1], op) + (if al[|al| - 1].op == op then 1 else 0)
  }

  /** The old side has one word per equal, delete and replace step; the new side one per equal, insert and replace step. */
  lemma {:induction false} SideLengths(al: seq<Step>)
    ensures |Olds(al)| == CountOp(al, Equal) + CountOp(al, Delete) + CountOp(al, Replace)
    ensures |News(al)| == CountOp(al, Equal) + CountOp(al, Insert) + CountOp(al, Replace)
  {
    if al != [] {
      SideLengths(al[..|al| - 1]);
    }
  }

  /** No alignment of two word lists has more equal steps than their LCS. */
  lemma {:induction false} EqualStepsBound(al: seq<Step>)
    requires Aligned(al)
    ensures CountOp(al, Equal) <= Lcs(Olds(al), News(al))
  {
    if al != [] {
      var init, last := al[..|al| - 1], al[|al| - 1];
      assert Aligned(init) by {
        forall k | 0 <= k < |init| && init[k].op == Equal ensures init[k].oldWord == init[k].newWord {
          assert init[k] == al[k];
        }
      }
      EqualStepsBound(init);
      var o, n := Olds(init), News(init);
      match last.op
      case Equal =>
        assert Olds(al) == o + [last.oldWord] && News(al) == n + [last.newWord];
        assert (o + [last.oldWord])[..|o|] == o;
        assert (n + [last.newWord])[..|n|] == n;
      case Delete =>
        assert Olds(al) == o + [last.oldWord] && News(al) == n;
        assert (o + [last.oldWord])[..|o|] == o;
        LcsBounds(o + [last.oldWord], n);
      case Insert =>
        assert Olds(al) == o && News(al) == n + [last.newWord];
        assert (n + [last.newWord])[..|n|] == n;
        LcsBounds(o, n + [last.newWord]);
      case Replace =>
        assert Olds(al) == o + [last.oldWord] && News(al) == n + [last.newWord];
        assert (o + [last.oldWord])[..|o|] == o;
        assert (n + [last.newWord])[..|n|] == n;
        LcsBounds(o + [last.oldWord], n + [last.newWord]);
        LcsBounds(o, n + [last.newWord]);
    }
  }

  // ------------------------------------------------------------------
  // The backtracking walk

  /** one move of the backtracking walk: the step it emits and the corner it reaches */
  datatype Move = Move(restA: seq<string>, restB: seq<string>, step: Step)

  /**
   * The walk's move from corner (|a|, |b|): a match is taken first, then a
   * deletion when the cell above is at least the cell to the left, else an
   * insertion. The step consumes the last word of each side it names, pairs
   * equal words only, and the LCS drops by one on a match and not otherwise.
   */
  function LastMove(a: seq<string>, b: seq<string>): (m: Move)
    requires |a| > 0 || |b| > 0
    ensures m.step.op != Replace
    ensures m.step.op == Equal ==> m.step.oldWord == m.step.newWord
    ensures a == m.restA + (if m.step.op == Insert then [] else [m.step.oldWord])
    ensures b == m.restB + (if m.step.op == Delete then [] else [m.step.newWord])
    ensures Lcs(a, b) == Lcs(m.restA, m.restB) + (if m.step.op == Equal then 1 else 0)
  {
    if |a| > 0 && |b| > 0 && a[|a| - 1] == b[|b| - 1] then
      assert a == a[..|a| - 1] + [a[|a| - 1]] && b == b[..|b| - 1] + [b[|b| - 1]];
      Move(a[..|a| - 1], b[..|b| - 1], Step(Equal, a[|a| - 1], b[|b| - 1]))
    else if |a| > 0 && (|b| == 0 || Lcs(a[..|a| - 1], b) >= Lcs(a, b[..|b| - 1])) then
      assert a == a[..|a| - 1] + [a[|a| - 1]];
      Move(a[..|a| - 1], b, Step(Delete, a[|a| - 1], ""))
    else
      assert b == b[..|b| - 1] + [b[|b| - 1]];
      Move(a, b[..|b| - 1], Step(Insert, "", b[|b| - 1]))
  }

  /** the alignment `_backtrack_alignment` returns, in forward order */
  function Backtrack(a: seq<string>, b: seq<string>): seq<Step>
    decreases |a| + |b|
  {
    if |a| == 0 && |b| == 0 then []
    else
      var m := LastMove(a, b);
      Backtrack(m.restA, m.restB) + [m.step]
  }

  /** Appending one step extends each side by that step's word, if it has one. */
  lemma SidesSnoc(rest: seq<Step>, step: Step)
    ensures Olds(rest + [step]) == Olds(rest) + (if step.op == Insert then [] else [step.oldWord])
    ensures News(rest + [step]) == News(rest) + (if step.op == Delete then [] else [step.newWord])
    ensures CountOp(rest + [step], Equal) == CountOp(rest, Equal) + (if step.op == Equal then 1 else 0)
    ensures CountOp(rest + [step], Replace) == CountOp(rest, Replace) + (if step.op == Replace then 1 else 0)
    ensures Aligned(rest) && (step.op == Equal ==> step.oldWord == step.newWord) ==> Aligned(rest + [step])
  {
    assert (rest + [step])[..|rest|] == rest;
    if Aligned(rest) && (step.op == Equal ==> step.oldWord == step.newWord) {
      forall k | 0 <= k < |rest + [step]| && (rest + [step])[k].op == Equal
        ensures (rest + [step])[k].oldWord == (rest + [step])[k].newWord
      {
        if k < |rest| {
          assert (rest + [step])[k] == rest[k];
        }
      }
    }
  }

  /** Backtracking pairs equal words only, and its two sides spell `a` and `b`, in order. */
  lemma {:induction false} BacktrackSides(a: seq<string>, b: seq<string>)
    ensures Aligned(Backtrack(a, b))
    ensures Olds(Backtrack(a, b)) == a && News(Backtrack(a, b)) == b
    decreases |a| + |b|
  {
    if |a| > 0 || |b| > 0 {
      var m := LastMove(a, b);
      BacktrackSides(m.restA, m.restB);
      SidesSnoc(Backtrack(m.restA, m.restB), m.step);
    }
  }

  /** Backtracking emits no replace step, and its equal steps number exactly the LCS. */
  lemma {:induction false} BacktrackCounts(a: seq<string>, b: seq<string>)
    ensures CountOp(Backtrack(a, b), Replace) == 0
    ensures CountOp(Backtrack(a, b), Equal) == Lcs(a, b)
    decreases |a| + |b|
  {
    if |a| > 0 || |b| > 0 {
      var m := LastMove(a, b);
      BacktrackCounts(m.restA, m.restB);
      SidesSnoc(Backtrack(m.restA, m.restB), m.step);
    }
  }

  /**
   * The backtracking emits only equal, delete and insert steps; its old side
   * spells `a` and its new side spells `b`, in order; and its equal steps
   * number exactly the LCS, which by `EqualStepsBound` no alignment exceeds.
   */
  lemma BacktrackSpec(a: seq<string>, b: seq<string>)
    ensures Aligned(Backtrack(a, b))
    ensures Olds(Backtrack(a, b)) == a && News(Backtrack(a, b)) == b
    ensures CountOp(Backtrack(a, b), Replace) == 0
    ensures CountOp(Backtrack(a, b), Equal) == Lcs(a, b)
    ensures |Backtrack(a, b)| == |a| + |b| - Lcs(a, b)
  {
    BacktrackSides(a, b);
    BacktrackCounts(a, b);
    SideLengths(Backtrack(a, b));
    StepKinds(Backtrack(a, b));
  }

  /** Every step is of one of the four kinds. */
  lemma {:induction false} StepKinds(al: seq<Step>)
    ensures |al| == CountOp(al, Equal) + CountOp(al, Delete) + CountOp(al, Insert) + CountOp(al, Replace)
  {
    if al != [] {
      StepKinds(al[..|al| - 1]);
    }
  }

  /** `Backtrack` finds a best alignment: no alignment of `a` and `b` has more equal steps. */
  lemma BacktrackOptimal(a: seq<string>, b: seq<string>, al: seq<Step>)
    requires Aligned(al) && Olds(al) == a && News(al) == b
    ensures CountOp(al, Equal) <= CountOp(Backtrack(a, b), Equal)
  {
    EqualStepsBound(al);
    BacktrackSpec(a, b);
  }

  function Reverse<T>(s: seq<T>): (r: seq<T>)
    ensures |r| == |s| && forall k :: 0 <= k < |s| ==> r[k] == s[|s| - 1 - k]
  {
    if s == [] then [] else [s[|s| - 1]] + Reverse(s[..|s| - 1])
  }

  // ------------------------------------------------------------------
  // Differences and statistics

  /** the difference record (if any) of one step, given the running indices into both sides */
  function DiffOf(s: Step, oldIdx: nat, newIdx: nat, oldPos: seq<Pos>, newPos: seq<Pos>): seq<WordDifference> {
    match s.op
    case Equal => []
    case Delete =>
      if oldIdx < |oldPos| then
        [WordDifference(Delete, s.oldWord, "", oldIdx, -1, oldPos[oldIdx].line, -1, oldPos[oldIdx].column, -1)]
      else []
    case Insert =>
      if newIdx < |newPos| then
        [WordDifference(Insert, "", s.newWord, -1, newIdx, -1, newPos[newIdx].line, -1, newPos[newIdx].column)]
      else []
    case Replace =>
      [WordDifference(Replace, s.oldWord, s.newWord, oldIdx, newIdx,
         if oldIdx < |oldPos| then oldPos[oldIdx].line else -1,
         if newIdx < |newPos| then newPos[newIdx].line else -1,
         if oldIdx < |oldPos| then oldPos[oldIdx].column else -1,
         if newIdx < |newPos| then newPos[newIdx].column else -1)]
  }

  /** `_analyze_alignment`: each step's record, the indices counting the words consumed so far */
  function Analyze(al: seq<Step>, oldPos: seq<Pos>, newPos: seq<Pos>): seq<WordDifference> {
    if al == [] then []
    else
      var init := al[..|al| - 1];
      Analyze(init, oldPos, newPos) + DiffOf(al[|al| - 1], |Olds(init)|, |News(init)|, oldPos, newPos)
  }

  /** the number of records of kind `k` */
  function CountKind(ds: seq<WordDifference>, k: DiffType): nat {
    if ds == [] then 0 else CountKind(ds[..|ds| - 1], k) + (if ds[|ds| - 1].kind == k then 1 else 0)
  }

  lemma {:induction false} CountKindAppend(x: seq<WordDifference>, y: seq<WordDifference>, k: DiffType)
    ensures CountKind(x + y, k) == CountKind(x, k) + CountKind(y, k)
    decreases |y|
  {
    if y == [] {
      assert x + y == x;
    } else {
      assert (x + y)[..|x + y| - 1] == x + y[..|y| - 1];
      assert (x + y)[|x + y| - 1] == y[|y| - 1];
      CountKindAppend(x, y[..|y| - 1], k);
    }
  }

  /**
   * Equal steps yield no record. Each delete and each insert step yields one
   * record when its position entry exists (so exactly one when the position
   * lists cover both sides), and each replace step yields one.
   */
  lemma {:induction false} AnalyzeCounts(al: seq<Step>, oldPos: seq<Pos>, newPos: seq<Pos>)
    ensures CountKind(Analyze(al, oldPos, newPos), Equal) == 0
    ensures CountKind(Analyze(al, oldPos, newPos), Replace) == CountOp(al, Replace)
    ensures CountKind(Analyze(al, oldPos, newPos), Delete) <= CountOp(al, Delete)
    ensures CountKind(Analyze(al, oldPos, newPos), Insert) <= CountOp(al, Insert)
    ensures |Olds(al)| <= |oldPos| ==> CountKind(Analyze(al, oldPos, newPos), Delete) == CountOp(al, Delete)
    ensures |News(al)| <= |newPos| ==> CountKind(Analyze(al, oldPos, newPos), Insert) == CountOp(al, Insert)
  {
    if al != [] {
      var init, last := al[..|al| - 1], al[|al| - 1];
      AnalyzeCounts(init, oldPos, newPos);
      var prev := Analyze(init, oldPos, newPos);
      var d := DiffOf(last, |Olds(init)|, |News(init)|, oldPos, newPos);
      assert Analyze(al, oldPos, newPos) == prev + d;
      CountKindAppend(prev, d, Equal);
      CountKindAppend(prev, d, Replace);
      CountKindAppend(prev, d, Delete);
      CountKindAppend(prev, d, Insert);
      DiffOfCounts(last, |Olds(init)|, |News(init)|, oldPos, newPos);
      assert al == init + [last];
      SidesSnoc(init, last);
      CountSnoc(init, last);
    }
  }

  /** The counts of the steps but equal and replace ones, one step at a time. */
  lemma CountSnoc(rest: seq<Step>, step: Step)
    ensures CountOp(rest + [step], Delete) == CountOp(rest, Delete) + (if step.op == Delete then 1 else 0)
    ensures CountOp(rest + [step], Insert) == CountOp(rest, Insert) + (if step.op == Insert then 1 else 0)
  {
    assert (rest + [step])[..|rest|] == rest;
  }

  /** the records of one step, by kind */
  lemma DiffOfCounts(s: Step, oldIdx: nat, newIdx: nat, oldPos: seq<Pos>, newPos: seq<Pos>)
    ensures CountKind(DiffOf(s, oldIdx, newIdx, oldPos, newPos), Equal) == 0
    ensures CountKind(DiffOf(s, oldIdx, newIdx, oldPos, newPos), Replace) == if s.op == Replace then 1 else 0
    ensures CountKind(DiffOf(s, oldIdx, newIdx, oldPos, newPos), Delete) == if s.op == Delete && oldIdx < |oldPos| then 1 else 0
    ensures CountKind(DiffOf(s, oldIdx, newIdx, oldPos, newPos), Insert) == if s.op == Insert && newIdx < |newPos| then 1 else 0
  {
    var d := DiffOf(s, oldIdx, newIdx, oldPos, newPos);
    if d != [] {
      assert d[..0] == [];
    }
  }

  /**
   * Every delete record names the word of the old side at its recorded index,
   * with that word's line and column; every insert record likewise on the new
   * side; the other side's fields are -1.
   */
  lemma {:induction false} AnalyzeTags(al: seq<Step>, oldPos: seq<Pos>, newPos: seq<Pos>)
    ensures forall d :: d in Analyze(al, oldPos, newPos) && d.kind == Delete ==>
      0 <= d.oldPosition < |Olds(al)| && d.oldPosition < |oldPos| && d.oldWord == Olds(al)[d.oldPosition]
      && d.oldLine == oldPos[d.oldPosition].line && d.oldColumn == oldPos[d.oldPosition].column
      && d.newPosition == -1 && d.newLine == -1 && d.newColumn == -1 && d.newWord == ""
    ensures forall d :: d in Analyze(al, oldPos, newPos) && d.kind == Insert ==>
      0 <= d.newPosition < |News(al)| && d.newPosition < |newPos| && d.newWord == News(al)[d.newPosition]
      && d.newLine == newPos[d.newPosition].line && d.newColumn == newPos[d.newPosition].column
      && d.oldPosition == -1 && d.oldLine == -1 && d.oldColumn == -1 && d.oldWord == ""
  {
    if al != [] {
      var init, last := al[..|al| - 1], al[|al| - 1];
      AnalyzeTags(init, oldPos, newPos);
      var o, n := Olds(init), News(init);
      assert Olds(al)[..|o|] == o;
      assert News(al)[..|n|] == n;
    }
  }

  /** `_calculate_statistics` without the similarity ratio */
  function Statistics(ds: seq<WordDifference>, oldLen: int, newLen: int): ComparisonResult {
    var ins := CountKind(ds, Insert);
    var del := CountKind(ds, Delete);
    var rep := CountKind(ds, Replace);
    ComparisonResult(ds, ins + del + rep, ins, del, rep, Min(oldLen, newLen) - rep)
  }

  /** `align_sequences` */
  function Align(a: seq<string>, b: seq<string>, oldPos: seq<Pos>, newPos: seq<Pos>): ComparisonResult {
    Statistics(Analyze(Backtrack(a, b), oldPos, newPos), |a|, |b|)
  }

  /**
   * With a position entry for every word, the comparison of `a` and `b` counts
   * |a| - LCS deletions, |b| - LCS insertions and no replacement, so the
   * differences total |a| + |b| - 2 LCS and the equal words are min(|a|, |b|).
   */
  lemma AlignCounts(a: seq<string>, b: seq<string>, oldPos: seq<Pos>, newPos: seq<Pos>)
    requires |oldPos| == |a| && |newPos| == |b|
    ensures var r := Align(a, b, oldPos, newPos);
      r.deletions == |a| - Lcs(a, b) && r.insertions == |b| - Lcs(a, b) && r.replacements == 0
      && r.totalDifferences == |a| + |b| - 2 * Lcs(a, b) && r.equalWords == Min(|a|, |b|)
  {
    var al := Backtrack(a, b);
    BacktrackSpec(a, b);
    SideLengths(al);
    AnalyzeCounts(al, oldPos, newPos);
  }

  // ------------------------------------------------------------------
  // The aligner's loops

  /** the recurrence `Lcs` follows, on prefixes */
  lemma LcsStep(a: seq<string>, b: seq<string>, i: int, j: int)
    requires 0 < i <= |a| && 0 < j <= |b|
    ensures Lcs(a[..i], b[..j]) ==
      if a[i - 1] == b[j - 1] then Lcs(a[..i - 1], b[..j - 1]) + 1
      else Max(Lcs(a[..i - 1], b[..j]), Lcs(a[..i], b[..j - 1]))
  {
    assert a[..i][..i - 1] == a[..i - 1];
    assert b[..j][..j - 1] == b[..j - 1];
  }

  /** `_build_lcs_matrix`: cell [i, j] holds the LCS of the first i and the first j words */
  method BuildLcsMatrix(a: seq<string>, b: seq<string>) returns (matrix: array2<nat>)
    ensures fresh(matrix)
    ensures matrix.Length0 == |a| + 1 && matrix.Length1 == |b| + 1
    ensures forall i, j :: 0 <= i <= |a| && 0 <= j <= |b| ==> matrix[i, j] == Lcs(a[..i], b[..j])
  {
    matrix := new nat[|a| + 1, |b| + 1]((_, _) => 0);
    var i := 1;
    while i <= |a|
      invariant 1 <= i <= |a| + 1
      invariant forall r, c :: 0 <= r < i && 0 <= c <= |b| ==> matrix[r, c] == Lcs(a[..r], b[..c])
      invariant forall r, c :: i <= r <= |a| && 0 <= c <= |b| ==> matrix[r, c] == 0
    {
      var j := 1;
      while j <= |b|
        invariant 1 <= j <= |b| + 1
        invariant forall r, c :: 0 <= r < i && 0 <= c <= |b| ==> matrix[r, c] == Lcs(a[..r], b[..c])
        invariant forall c :: 0 <= c < j ==> matrix[i, c] == Lcs(a[..i], b[..c])
        invariant forall r, c :: i < r <= |a| && 0 <= c <= |b| ==> matrix[r, c] == 0
      {
        LcsStep(a, b, i, j);
        if a[i - 1] == b[j - 1] {
          matrix[i, j] := matrix[i - 1, j - 1] + 1;
        } else {
          matrix[i, j] := Max(matrix[i - 1, j], matrix[i, j - 1]);
        }
        j := j + 1;
      }
      i := i + 1;
    }
  }

  /** the walk's move from corner (i, j), read on prefixes */
  lemma MovePrefix(a: seq<string>, b: seq<string>, i: int, j: int)
    requires 0 <= i <= |a| && 0 <= j <= |b| && (i > 0 || j > 0)
    ensures LastMove(a[..i], b[..j]) ==
      if i > 0 && j > 0 && a[i - 1] == b[j - 1] then Move(a[..i - 1], b[..j - 1], Step(Equal, a[i - 1], b[j - 1]))
      else if i > 0 && (j == 0 || Lcs(a[..i - 1], b[..j]) >= Lcs(a[..i], b[..j - 1])) then Move(a[..i - 1], b[..j], Step(Delete, a[i - 1], ""))
      else Move(a[..i], b[..j - 1], Step(Insert, "", b[j - 1]))
  {
    if i > 0 {
      assert a[..i][..i - 1] == a[..i - 1];
    }
    if j > 0 {
      assert b[..j][..j - 1] == b[..j - 1];
    }
  }

  /** Moving a step from the front of the walk's remainder to its reversed output. */
  lemma ReverseSnoc(x: seq<Step>, step: Step, steps: seq<Step>)
    ensures (x + [step]) + Reverse(steps) == x + Reverse(steps + [step])
  {
    assert Reverse(steps + [step]) == [step] + Reverse(steps);
  }

  /** `_backtrack_alignment`: walk back from the far corner, then reverse */
  method BacktrackAlignment(matrix: array2<nat>, a: seq<string>, b: seq<string>) returns (alignment: seq<Step>)
    requires matrix.Length0 == |a| + 1 && matrix.Length1 == |b| + 1
    requires forall i, j :: 0 <= i <= |a| && 0 <= j <= |b| ==> matrix[i, j] == Lcs(a[..i], b[..j])
    ensures alignment == Backtrack(a, b)
  {
    var steps: seq<Step> := [];
    var i, j := |a|, |b|;
    assert a[..i] == a && b[..j] == b;
    while i > 0 || j > 0
      invariant 0 <= i <= |a| && 0 <= j <= |b|
      invariant Backtrack(a[..i], b[..j]) + Reverse(steps) == Backtrack(a, b)
      decreases i + j
    {
      MovePrefix(a, b, i, j);
      var step;
      var i', j' := i, j;
      if i > 0 && j > 0 && a[i - 1] == b[j - 1] {
        step := Step(Equal, a[i - 1], b[j - 1]);
        i', j' := i - 1, j - 1;
      } else if i > 0 && (j == 0 || matrix[i - 1, j] >= matrix[i, j - 1]) {
        step := Step(Delete, a[i - 1], "");
        i' := i - 1;
      } else {
        step := Step(Insert, "", b[j - 1]);
        j' := j - 1;
      }
      assert Backtrack(a[..i], b[..j]) == Backtrack(a[..i'], b[..j']) + [step];
      ReverseSnoc(Backtrack(a[..i'], b[..j']), step, steps);
      steps := steps + [step];
      i, j := i', j';
    }
    alignment := Reverse(steps);
    assert a[..0] == [] && b[..0] == [];
  }

  /** the record of one step of `_analyze_alignment` */
  lemma AnalyzeStep(al: seq<Step>, k: int, oldPos: seq<Pos>, newPos: seq<Pos>)
    requires 0 <= k < |al|
    ensures Analyze(al[..k + 1], oldPos, newPos) ==
      Analyze(al[..k], oldPos, newPos) + DiffOf(al[k], |Olds(al[..k])|, |News(al[..k])|, oldPos, newPos)
    ensures |Olds(al[..k + 1])| == |Olds(al[..k])| + (if al[k].op == Insert then 0 else 1)
    ensures |News(al[..k + 1])| == |News(al[..k])| + (if al[k].op == Delete then 0 else 1)
  {
    assert al[..k + 1][..k] == al[..k];
  }

  /** `_analyze_alignment` */
  method AnalyzeAlignment(alignment: seq<Step>, oldPos: seq<Pos>, newPos: seq<Pos>) returns (differences: seq<WordDifference>)
    ensures differences == Analyze(alignment, oldPos, newPos)
  {
    differences := [];
    var oldIdx, newIdx := 0, 0;
    var k := 0;
    while k < |alignment|
      invariant 0 <= k <= |alignment|
      invariant differences == Analyze(alignment[..k], oldPos, newPos)
      invariant oldIdx == |Olds(alignment[..k])| && newIdx == |News(alignment[..k])|
    {
      AnalyzeStep(alignment, k, oldPos, newPos);
      var s := alignment[k];
      match s.op {
      case Equal =>
        oldIdx, newIdx := oldIdx + 1, newIdx + 1;
      case Delete =>
        if oldIdx < |oldPos| {
          var pos := oldPos[oldIdx];
          differences := differences + [WordDifference(Delete, s.oldWord, "", oldIdx, -1, pos.line, -1, pos.column, -1)];
        }
        oldIdx := oldIdx + 1;
      case Insert =>
        if newIdx < |newPos| {
          var pos := newPos[newIdx];
          differences := differences + [WordDifference(Insert, "", s.newWord, -1, newIdx, -1, pos.line, -1, pos.column)];
        }
        newIdx := newIdx + 1;
      case Replace =>
        differences := differences + DiffOf(s, oldIdx, newIdx, oldPos, newPos);
        oldIdx, newIdx := oldIdx + 1, newIdx + 1;
      }
      k := k + 1;
    }
    assert alignment[..k] == alignment;
  }

  /** `align_sequences` */
  method AlignSequences(a: seq<string>, b: seq<string>, oldPos: seq<Pos>, newPos: seq<Pos>) returns (result: ComparisonResult)
    ensures result == Align(a, b, oldPos, newPos)
  {
    var matrix := BuildLcsMatrix(a, b);
    var alignment := BacktrackAlignment(matrix, a, b);
    var differences := AnalyzeAlignment(alignment, oldPos, newPos);
    result := Statistics(differences, |a|, |b|);
  }
}
