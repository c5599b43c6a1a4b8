/**
 * The line breaker with smart wrapping switched off: sentences that fit the
 * maximum width stay whole, longer ones are wrapped greedily at whitespace,
 * and all lines are joined with line breaks.
 */
module LineBreaker {
  import opened PyText

  /** the total length of the words */
  function Sum(ws: seq<string>): nat
    decreases |ws|
  {
    if ws == [] then 0 else Sum(ws[..|ws| - 1]) + |ws[|ws| - 1]|
  }

  lemma {:induction false} SumCons(w: string, ws: seq<string>)
    ensures Sum([w] + ws) == |w| + Sum(ws)
    decreases |ws|
  {
    if ws != [] {
      var init := ws[..|ws| - 1];
      assert ([w] + ws)[..|ws|] == [w] + init;
      SumCons(w, init);
    } else {
      assert ([w] + ws)[..0] == [];
    }
  }

  lemma SumSnoc(ws: seq<string>, w: string)
    ensures Sum(ws + [w]) == Sum(ws) + |w|
  {
    assert (ws + [w])[..|ws|] == ws;
  }

  /** the length of the words joined by single spaces */
  function Width(g: seq<string>): int {
    Sum(g) + |g| - 1
  }

  lemma {:induction false} JoinWidth(g: seq<string>)
    requires g != []
    ensures |Join(g, " ")| == Width(g)
    decreases |g|
  {
    SumCons(g[0], g[1..]);
    assert [g[0]] + g[1..] == g;
    if |g| > 1 {
      JoinWidth(g[1..]);
    } else {
      assert g[1..] == [];
    }
  }

  /** the test `current_length + word_length + len(current_line) <= max_width`: the word still fits on the line */
  predicate Fits(width: int, line: seq<string>, w: string) {
    Sum(line) + |w| + |line| <= width
  }

  /** the lines closed so far and the words of the line being filled */
  datatype Fill = Fill(closed: seq<seq<string>>, current: seq<string>)

  /** one pass of the loop in `_simple_wrap` */
  function Step(width: int, f: Fill, w: string): Fill {
    if Fits(width, f.current, w) then Fill(f.closed, f.current + [w])
    else Fill(f.closed + (if f.current != [] then [f.current] else []), [w])
  }

  /** the state after the loop has seen `words` */
  function Filled(width: int, words: seq<string>): Fill
    decreases |words|
  {
    if words == [] then Fill([], []) else Step(width, Filled(width, words[..|words| - 1]), words[|words| - 1])
  }

  /** the lines' words: the closed lines, then the last one if it has words */
  function Groups(width: int, words: seq<string>): seq<seq<string>> {
    var f := Filled(width, words);
    f.closed + (if f.current != [] then [f.current] else [])
  }

  /** each group of words joined by single spaces */
  function JoinEach(gs: seq<seq<string>>): (r: seq<string>)
    ensures |r| == |gs|
  {
    seq(|gs|, k requires 0 <= k < |gs| => Join(gs[k], " "))
  }

  lemma JoinEachSnoc(gs: seq<seq<string>>, g: seq<string>)
    ensures JoinEach(gs + [g]) == JoinEach(gs) + [Join(g, " ")]
  {
  }

  lemma FilledStep(width: int, words: seq<string>, i: nat)
    requires i < |words|
    ensures Filled(width, words[..i + 1]) == Step(width, Filled(width, words[..i]), words[i])
  {
    assert words[..i + 1][..i] == words[..i];
  }

  /** `_simple_wrap`'s lines for a sentence */
  function WrapLines(width: int, sentence: string): seq<string> {
    JoinEach(Groups(width, SplitWs(sentence)))
  }

  /** the words of the groups, in order */
  function Flatten(gs: seq<seq<string>>): seq<string>
    decreases |gs|
  {
    if gs == [] then [] else Flatten(gs[..|gs| - 1]) + gs[|gs| - 1]
  }

  /** a line keeps to the width, or it holds a single word */
  predicate Within(width: int, g: seq<string>) {
    |g| == 1 || Width(g) <= width
  }

  /** every group has words and keeps to the width */
  predicate Bounded(width: int, gs: seq<seq<string>>) {
    forall k :: 0 <= k < |gs| ==> gs[k] != [] && Within(width, gs[k])
  }

  /** the next line has words and its first word did not fit on the line before */
  predicate Overflows(width: int, line: seq<string>, next: seq<string>) {
    next != [] && !Fits(width, line, next[0])
  }

  /** every line was closed because the first word of the next did not fit */
  predicate Greedy(width: int, gs: seq<seq<string>>) {
    forall k :: 0 <= k < |gs| - 1 ==> Overflows(width, gs[k], gs[k + 1])
  }

  lemma BoundedSnoc(width: int, gs: seq<seq<string>>, g: seq<string>)
    requires Bounded(width, gs) && g != [] && Within(width, g)
    ensures Bounded(width, gs + [g])
  {
  }

  lemma GreedySnoc(width: int, gs: seq<seq<string>>, g: seq<string>)
    requires Greedy(width, gs) && g != []
    requires gs != [] ==> Overflows(width, gs[|gs| - 1], g)
    ensures Greedy(width, gs + [g])
  {
    var b := gs + [g];
    forall k | 0 <= k < |b| - 1 ensures Overflows(width, b[k], b[k + 1]) {
      assert b[k] == gs[k];
      if k + 1 < |gs| {
        assert b[k + 1] == gs[k + 1];
      }
    }
  }

  /** Adding a word to a line it fits keeps the line to the width. */
  lemma FitsWithin(width: int, g: seq<string>, w: string)
    requires g != [] && Fits(width, g, w)
    ensures Within(width, g + [w])
  {
    assert (g + [w])[..|g|] == g;
  }

  /**
   * What the loop keeps: the words seen are the closed lines' words followed
   * by the current line's; every line has words and keeps to the width or is
   * one word; and each closed line was closed only because the next word did
   * not fit.
   */
  predicate FillInvariant(width: int, f: Fill, words: seq<string>) {
    Flatten(f.closed) + f.current == words &&
    (f.current == [] <==> words == []) &&
    Bounded(width, f.closed) && (f.current != [] ==> Within(width, f.current)) &&
    Greedy(width, f.closed + [f.current])
  }

  lemma {:induction false} FilledFacts(width: int, words: seq<string>)
    ensures FillInvariant(width, Filled(width, words), words)
    decreases |words|
  {
    if words != [] {
      var init := words[..|words| - 1];
      FilledFacts(width, init);
      StepKeeps(width, Filled(width, init), init, words[|words| - 1]);
      assert init + [words[|words| - 1]] == words;
    }
  }

  lemma StepKeeps(width: int, f: Fill, words: seq<string>, w: string)
    requires FillInvariant(width, f, words)
    ensures FillInvariant(width, Step(width, f, w), words + [w])
  {
    if Fits(width, f.current, w) {
      StepFits(width, f, words, w);
    } else if f.current != [] {
      StepCloses(width, f, words, w);
    } else {
      assert f.closed == [] by {
        FlattenEmpty(width, f.closed);
      }
      assert Step(width, f, w) == Fill([], [w]);
      assert Flatten([]) + [w] == words + [w];
    }
  }

  /** Lines that all have words flatten to nothing only when there are none. */
  lemma FlattenEmpty(width: int, gs: seq<seq<string>>)
    requires Bounded(width, gs) && Flatten(gs) == []
    ensures gs == []
  {
  }

  lemma StepFits(width: int, f: Fill, words: seq<string>, w: string)
    requires FillInvariant(width, f, words) && Fits(width, f.current, w)
    ensures FillInvariant(width, Step(width, f, w), words + [w])
  {
    if f.current != [] {
      FitsWithin(width, f.current, w);
    } else {
      assert f.closed == [] by {
        FlattenEmpty(width, f.closed);
      }
    }
    assert Flatten(f.closed) + (f.current + [w]) == words + [w];
    GreedyLastGrows(width, f.closed, f.current, w);
  }

  lemma StepCloses(width: int, f: Fill, words: seq<string>, w: string)
    requires FillInvariant(width, f, words) && !Fits(width, f.current, w) && f.current != []
    ensures FillInvariant(width, Step(width, f, w), words + [w])
  {
    var closed := f.closed + [f.current];
    assert Step(width, f, w) == Fill(closed, [w]);
    BoundedSnoc(width, f.closed, f.current);
    FlattenSnoc(f.closed, f.current);
    GreedySnoc(width, closed, [w]);
  }

  /** Growing the last line keeps the closed lines greedy. */
  lemma GreedyLastGrows(width: int, closed: seq<seq<string>>, cur: seq<string>, w: string)
    requires Greedy(width, closed + [cur])
    requires closed != [] ==> cur != []
    ensures Greedy(width, closed + [cur + [w]])
  {
    var a, b := closed + [cur], closed + [cur + [w]];
    forall k | 0 <= k < |b| - 1
      ensures Overflows(width, b[k], b[k + 1])
    {
      assert b[k] == a[k];
      if k + 1 < |closed| {
        assert b[k + 1] == a[k + 1];
      } else {
        assert a[k + 1] == cur && b[k + 1] == cur + [w];
        assert Overflows(width, a[k], a[k + 1]);
      }
    }
  }

  lemma FlattenSnoc(gs: seq<seq<string>>, g: seq<string>)
    ensures Flatten(gs + [g]) == Flatten(gs) + g
  {
    assert (gs + [g])[..|gs|] == gs;
  }

  /**
   * The wrapped lines hold every word, in order: their groups, flattened,
   * are the words; every group has words and keeps to the width unless it
   * is one word; and a line ends only where the next word would not fit.
   */
  lemma GroupsFacts(width: int, words: seq<string>)
    ensures var gs := Groups(width, words);
      Flatten(gs) == words && Bounded(width, gs) && Greedy(width, gs)
  {
    FilledFacts(width, words);
    var f := Filled(width, words);
    if f.current != [] {
      FlattenSnoc(f.closed, f.current);
      BoundedSnoc(width, f.closed, f.current);
    } else {
      assert f.closed == [] by {
        FlattenEmpty(width, f.closed);
      }
      assert f.closed + [] == f.closed;
    }
  }

  /** Joining the joined groups with spaces joins all their words with spaces. */
  lemma {:induction false} JoinEachFlatten(gs: seq<seq<string>>)
    requires forall k :: 0 <= k < |gs| ==> gs[k] != []
    ensures Join(JoinEach(gs), " ") == Join(Flatten(gs), " ")
    decreases |gs|
  {
    if gs != [] {
      var init := gs[..|gs| - 1];
      var g := gs[|gs| - 1];
      JoinEachFlatten(init);
      assert JoinEach(gs) == JoinEach(init) + [Join(g, " ")];
      if init == [] {
        assert Flatten(gs) == g by {
          assert Flatten(init) == [];
        }
        assert JoinEach(gs) == [Join(g, " ")];
      } else {
        FlattenNonEmpty(init);
        JoinAppend(JoinEach(init), [Join(g, " ")], " ");
        JoinAppend(Flatten(init), g, " ");
      }
    }
  }

  lemma FlattenNonEmpty(gs: seq<seq<string>>)
    requires gs != [] && gs[|gs| - 1] != []
    ensures Flatten(gs) != []
  {
  }

  /** `_simple_wrap` keeps every word in order: its lines joined by spaces are the words joined by spaces. */
  lemma WrapKeepsWords(width: int, sentence: string)
    ensures Join(WrapLines(width, sentence), " ") == Join(SplitWs(sentence), " ")
  {
    var words := SplitWs(sentence);
    GroupsFacts(width, words);
    JoinEachFlatten(Groups(width, words));
  }

  /**
   * No wrapped line is empty, and each is at most `width` long unless it is
   * a single word of the sentence; a line ends only where a space and the
   * next line's first word would overflow it.
   */
  lemma WrapWidth(width: int, sentence: string)
    ensures var lines := WrapLines(width, sentence);
      var gs := Groups(width, SplitWs(sentence));
      forall k :: 0 <= k < |lines| ==>
        lines[k] != [] && (|lines[k]| <= width || (|gs[k]| == 1 && lines[k] == gs[k][0] && lines[k] in SplitWs(sentence)))
  {
    var words := SplitWs(sentence);
    var gs := Groups(width, words);
    var lines := WrapLines(width, sentence);
    GroupsFacts(width, words);
    forall k | 0 <= k < |lines|
      ensures lines[k] != [] && (|lines[k]| <= width || (|gs[k]| == 1 && lines[k] == gs[k][0] && lines[k] in words))
    {
      JoinWidth(gs[k]);
      if |gs[k]| == 1 {
        assert lines[k] == gs[k][0];
        FlattenHas(gs, k);
      } else {
        assert gs[k][0] != [] by {
          FlattenHas(gs, k);
        }
      }
    }
  }

  /** The first word of each group is a word of the flattened list. */
  lemma {:induction false} FlattenHas(gs: seq<seq<string>>, k: nat)
    requires k < |gs| && gs[k] != []
    ensures gs[k][0] in Flatten(gs)
    decreases |gs|
  {
    var init := gs[..|gs| - 1];
    if k < |init| {
      FlattenHas(init, k);
    }
  }

  /** Greedy, read on the lines: a line plus a space plus the next line's first word is wider than `width`. */
  lemma WrapGreedy(width: int, sentence: string, k: nat)
    requires k + 1 < |WrapLines(width, sentence)|
    ensures var lines := WrapLines(width, sentence);
      var gs := Groups(width, SplitWs(sentence));
      gs[k + 1] != [] && |lines[k]| + 1 + |gs[k + 1][0]| > width
  {
    var gs := Groups(width, SplitWs(sentence));
    GroupsFacts(width, SplitWs(sentence));
    assert Overflows(width, gs[k], gs[k + 1]);
    JoinWidth(gs[k]);
  }

  /** the lines `process` collects: short sentences whole, long ones wrapped */
  function Formatted(width: int, sentences: seq<string>): seq<string>
    decreases |sentences|
  {
    if sentences == [] then []
    else
      var s := sentences[|sentences| - 1];
      Formatted(width, sentences[..|sentences| - 1]) + (if |s| <= width then [s] else WrapLines(width, s))
  }

  /** Sentences that all fit come out unchanged, one per line. */
  lemma {:induction false} ShortSentencesKept(width: int, sentences: seq<string>)
    requires forall k :: 0 <= k < |sentences| ==> |sentences[k]| <= width
    ensures Formatted(width, sentences) == sentences
    decreases |sentences|
  {
    if sentences != [] {
      ShortSentencesKept(width, sentences[..|sentences| - 1]);
    }
  }

  class LineBreaker {
    const maxWidth: int

    /** `__init__` with `smart_wrap` off: only the width matters */
    constructor(maxWidth: int)
      ensures this.maxWidth == maxWidth
    {
      this.maxWidth := maxWidth;
    }

    /** `_simple_wrap` */
    method SimpleWrap(sentence: string) returns (lines: seq<string>)
      ensures lines == WrapLines(maxWidth, sentence)
    {
      var words := SplitWs(sentence);
      lines := [];
      var currentLine: seq<string> := [];
      var currentLength := 0;
      assert words[..0] == [];
      for i := 0 to |words|
        invariant lines == JoinEach(Filled(maxWidth, words[..i]).closed)
        invariant currentLine == Filled(maxWidth, words[..i]).current
        invariant currentLength == Sum(currentLine)
      {
        var word := words[i];
        FilledStep(maxWidth, words, i);
        var wordLength := |word|;
        if currentLength + wordLength + |currentLine| <= maxWidth {
          SumSnoc(currentLine, word);
          currentLine := currentLine + [word];
          currentLength := currentLength + wordLength;
        } else {
          if currentLine != [] {
            JoinEachSnoc(Filled(maxWidth, words[..i]).closed, currentLine);
            lines := lines + [Join(currentLine, " ")];
          }
          currentLine := [word];
          currentLength := wordLength;
          SumSnoc([], word);
        }
      }
      assert words[..|words|] == words;
      if currentLine != [] {
        JoinEachSnoc(Filled(maxWidth, words).closed, currentLine);
        lines := lines + [Join(currentLine, " ")];
      }
    }

    /** `process` with smart wrapping off */
    method Process(sentences: seq<string>) returns (text: string)
      ensures text == Join(Formatted(maxWidth, sentences), "\n")
    {
      var formattedLines: seq<string> := [];
      assert sentences[..0] == [];
      for i := 0 to |sentences|
        invariant formattedLines == Formatted(maxWidth, sentences[..i])
      {
        var sent := sentences[i];
        assert sentences[..i + 1][..i] == sentences[..i];
        if |sent| <= maxWidth {
          formattedLines := formattedLines + [sent];
        } else {
          var lines := SimpleWrap(sent);
          formattedLines := formattedLines + lines;
        }
      }
      assert sentences[..|sentences|] == sentences;
      text := Join(formattedLines, "\n");
    }
  }
}
