/**
 * The stand-alone sentence splitter script: line breaks become spaces, the
 * text is split after every run of `.`, `!` and `?` followed by
 * whitespace, and each stripped non-blank piece is one sentence. Its
 * abbreviation check exists but the splitter never calls it.
 */
module SentenceScript {
  import opened Wrappers
  import opened PyText
  import opened SentenceParts

  /** the class `[.!?]` of the pattern `([.!?]+)\s+` */
  const Ends: set<char> := {'.', '!', '?'}

  /** the abbreviations `_is_abbreviation` knows, in its order */
  const AbbreviationPatterns: seq<string> := ["Mr.", "Mrs.", "Dr.", "Prof.", "Inc.", "Ltd.", "Co.", "Corp."]

  /** `text.replace("\r\n", " ").replace("\r", " ").replace("\n", " ")` */
  function Unbroken(text: string): string {
    ReplaceAll(ReplaceAll(ReplaceAll(text, "\r\n", " "), "\r", " "), "\n", " ")
  }

  /** what `split_sentences` returns */
  function SplitText(text: string): seq<string> {
    if Strip(text) == [] then [] else Sentences(NoAbbreviations, SplitParts(Ends, Unbroken(text)))
  }

  /** `split_sentences`: every mark closes the sentence being built */
  method SplitSentences(text: string) returns (sentences: seq<string>)
    ensures sentences == SplitText(text)
  {
    if Strip(text) == [] {
      return [];
    }
    var t := Unbroken(text);
    var parts := SplitParts(Ends, t);
    sentences := [];
    var current := "";
    var i := 0;
    while i < |parts|
      invariant 0 <= i <= |parts|
      invariant current == Gather(NoAbbreviations, parts, i).current
      invariant sentences == Kept(Gather(NoAbbreviations, parts, i).groups)
    {
      GatherStep(parts, i);
      if i % 2 == 0 {
        current := current + parts[i];
      } else {
        current := current + parts[i];
        KeptSnoc(Gather(NoAbbreviations, parts, i).groups, current);
        if Strip(current) != [] {
          sentences := sentences + [Strip(current)];
        }
        current := "";
      }
      i := i + 1;
    }
    KeptSnoc(Gather(NoAbbreviations, parts, i).groups, current);
    if Strip(current) != [] {
      sentences := sentences + [Strip(current)];
    }
  }

  /** one more step of the loop: a mark always closes the sentence */
  lemma GatherStep(parts: seq<string>, i: nat)
    requires i < |parts|
    ensures var a := Gather(NoAbbreviations, parts, i); var c := a.current + parts[i];
      Gather(NoAbbreviations, parts, i + 1) == if i % 2 == 0 then Acc(a.groups, c) else Acc(a.groups + [c], "")
  {
  }

  lemma KeptSnoc(lines: seq<string>, l: string)
    ensures Kept(lines + [l]) == Kept(lines) + KeptLine(l)
  {
    assert (lines + [l])[..|lines|] == lines;
  }

  /** A blank text has no sentences. */
  lemma BlankNoSentences(text: string)
    requires AllSpace(text)
    ensures SplitText(text) == []
  {
    StripEmptyIffAllSpace(text);
  }

  /** The text the pattern sees has no line break. */
  lemma UnbrokenHasNoBreaks(text: string)
    ensures !ContainsChar(Unbroken(text), '\n') && !ContainsChar(Unbroken(text), '\r')
  {
    var a := ReplaceAll(text, "\r\n", " ");
    var b := ReplaceAll(a, "\r", " ");
    assert !ContainsChar(" ", '\r') && !ContainsChar(" ", '\n');
    ReplaceCharRemoves(a, '\r', " ");
    ReplaceCharRemoves(b, '\n', " ");
    ReplaceAllKeepsAbsent(b, "\n", " ", '\r');
  }

  /** No sentence holds a line break; every sentence is stripped and non-empty. */
  lemma SentencesAreLines(text: string)
    ensures forall i :: 0 <= i < |SplitText(text)| ==>
      var x := SplitText(text)[i];
      x != [] && Strip(x) == x && !ContainsChar(x, '\n') && !ContainsChar(x, '\r')
  {
    if Strip(text) != [] {
      var t := Unbroken(text);
      var parts := SplitParts(Ends, t);
      UnbrokenHasNoBreaks(text);
      PartsKeepAbsent(Ends, t, '\n');
      PartsKeepAbsent(Ends, t, '\r');
      SentencesKeepAbsent(NoAbbreviations, parts, '\n');
      SentencesKeepAbsent(NoAbbreviations, parts, '\r');
      SentencesStripped(NoAbbreviations, parts);
      var ss := SplitText(text);
      assert forall i :: 0 <= i < |ss| ==> ss[i] in ss;
    }
  }

  /** Every sentence but the last ends in `.`, `!` or `?`. */
  lemma SentencesEndInMarksOfText(text: string)
    ensures forall i :: 0 <= i < |SplitText(text)| - 1 ==> EndsIn(Ends, SplitText(text)[i])
  {
    if Strip(text) != [] {
      var t := Unbroken(text);
      forall c | c in Ends ensures !IsSpace(c) {
      }
      SplitMarks(Ends, t);
      SentencesEndInMarks(Ends, NoAbbreviations, SplitParts(Ends, t));
    }
  }

  /** after `n` parts: the text part and mark pairs are closed groups, and an unpaired text part is open */
  predicate MarksClosed(parts: seq<string>, n: nat)
    requires n <= |parts|
  {
    var a := Gather(NoAbbreviations, parts, n);
    && |a.groups| == n / 2
    && (forall k :: 0 <= k < n / 2 ==> a.groups[k] == parts[2 * k] + parts[2 * k + 1])
    && a.current == if n % 2 == 1 then parts[n - 1] else ""
  }

  /** One more part keeps the groups closed at every mark. */
  lemma MarksClosedStep(parts: seq<string>, m: nat)
    requires m < |parts| && MarksClosed(parts, m)
    ensures MarksClosed(parts, m + 1)
  {
    GatherStep(parts, m);
    if m % 2 == 0 {
      TextPartOpens(parts, m);
    } else {
      MarkCloses(parts, m);
    }
  }

  /** A text part opens a new piece. */
  lemma TextPartOpens(parts: seq<string>, m: nat)
    requires m < |parts| && m % 2 == 0 && MarksClosed(parts, m)
    requires var a := Gather(NoAbbreviations, parts, m);
      Gather(NoAbbreviations, parts, m + 1) == Acc(a.groups, a.current + parts[m])
    ensures MarksClosed(parts, m + 1)
  {
    assert "" + parts[m] == parts[m];
    assert (m + 1) / 2 == m / 2 && (m + 1) % 2 == 1;
  }

  /** A mark closes the open piece into a group. */
  lemma MarkCloses(parts: seq<string>, m: nat)
    requires m < |parts| && m % 2 == 1 && MarksClosed(parts, m)
    requires var a := Gather(NoAbbreviations, parts, m);
      Gather(NoAbbreviations, parts, m + 1) == Acc(a.groups + [a.current + parts[m]], "")
    ensures MarksClosed(parts, m + 1)
  {
    var a := Gather(NoAbbreviations, parts, m);
    var g := Gather(NoAbbreviations, parts, m + 1).groups;
    assert m / 2 + 1 == (m + 1) / 2 && 2 * (m / 2) == m - 1 && (m + 1) % 2 == 0;
    assert g == a.groups + [parts[m - 1] + parts[m]];
    forall k | 0 <= k < (m + 1) / 2 ensures g[k] == parts[2 * k] + parts[2 * k + 1] {
      if k < m / 2 {
        assert g[k] == a.groups[k];
      }
    }
  }

  /**
   * The splitter never asks whether a mark ends an abbreviation: after `n`
   * parts, each text part and the mark after it form one closed group, and
   * only a text part with no mark after it is still open.
   */
  lemma {:induction false} EveryMarkCloses(parts: seq<string>, n: nat)
    requires n <= |parts|
    ensures var a := Gather(NoAbbreviations, parts, n);
      && |a.groups| == n / 2
      && (forall k :: 0 <= k < n / 2 ==> a.groups[k] == parts[2 * k] + parts[2 * k + 1])
      && a.current == if n % 2 == 1 then parts[n - 1] else ""
  {
    if n > 0 {
      EveryMarkCloses(parts, n - 1);
      MarksClosedStep(parts, n - 1);
    }
  }

  // ------------------------------------------------------------------
  // `_is_abbreviation`, which the splitter never calls

  /** whether one of the patterns equals `text[pos - len(p) + 1 : pos + 1]`, in order */
  function AnyPatternAt(text: string, pos: int, patterns: seq<string>): bool {
    if patterns == [] then false
    else PySlice(text, pos - |patterns[0]| + 1, pos + 1) == patterns[0] || AnyPatternAt(text, pos, patterns[1..])
  }

  /**
   * `_is_abbreviation(text, pos)`: `None` stands for the `IndexError`
   * raised when `text[pos - 1]` is past the end.
   */
  function IsAbbreviationAt(text: string, pos: int): (r: Option<bool>)
    ensures pos < 2 ==> r == Some(false)
    ensures pos >= 2 ==> (r.None? <==> pos > |text|)
  {
    if pos < 2 then Some(false)
    else if pos - 1 >= |text| then None
    else if IsUpper(text[pos - 1]) && text[pos - 2] == ' ' then Some(true)
    else Some(AnyPatternAt(text, pos, AbbreviationPatterns))
  }

  /** the pattern `p` ends at index `pos` (the mark) of the text */
  predicate EndsAt(text: string, pos: int, p: string) {
    0 <= pos + 1 - |p| && pos + 1 <= |text| && text[pos + 1 - |p|..pos + 1] == p
  }

  /** The Python slice equals a non-empty pattern exactly when the pattern ends at `pos`. */
  lemma PySliceAt(text: string, pos: int, p: string)
    requires p != [] && 1 <= pos <= |text|
    ensures PySlice(text, pos - |p| + 1, pos + 1) == p <==> EndsAt(text, pos, p)
  {
    var lo := pos - |p| + 1;
    var a := PyBound(|text|, lo);
    var b := PyBound(|text|, pos + 1);
    if lo < 0 {
      assert b <= pos + 1 && b <= |text|;
      assert |PySlice(text, lo, pos + 1)| < |p|;
    } else if pos + 1 > |text| {
      assert |PySlice(text, lo, pos + 1)| < |p|;
    }
  }

  lemma {:induction false} AnyPatternAtIff(text: string, pos: int, patterns: seq<string>)
    requires 1 <= pos <= |text| && forall j :: 0 <= j < |patterns| ==> patterns[j] != []
    ensures AnyPatternAt(text, pos, patterns) <==> exists j :: 0 <= j < |patterns| && EndsAt(text, pos, patterns[j])
  {
    if patterns != [] {
      PySliceAt(text, pos, patterns[0]);
      AnyPatternAtIff(text, pos, patterns[1..]);
      if exists j :: 0 <= j < |patterns| && EndsAt(text, pos, patterns[j]) {
        var j :| 0 <= j < |patterns| && EndsAt(text, pos, patterns[j]);
        if j > 0 {
          assert patterns[1..][j - 1] == patterns[j];
        }
      }
    }
  }

  /**
   * Within the text, a mark at `pos` belongs to an abbreviation exactly when
   * it follows a space and an upper-case letter, or ends a listed pattern.
   */
  lemma IsAbbreviationAtIff(text: string, pos: int)
    requires 2 <= pos <= |text|
    ensures IsAbbreviationAt(text, pos) == Some(true) <==>
      (IsUpper(text[pos - 1]) && text[pos - 2] == ' ')
      || exists j :: 0 <= j < |AbbreviationPatterns| && EndsAt(text, pos, AbbreviationPatterns[j])
  {
    AnyPatternAtIff(text, pos, AbbreviationPatterns);
  }

  /**
   * A text the pattern cuts into a part, a mark and a last part is split
   * after the mark, whether or not the first sentence ends in one of the
   * abbreviations: the loop never consults the abbreviation check.
   */
  lemma MarkAlwaysCloses(text: string, a: string, m: string, b: string)
    requires Strip(text) != [] && SplitParts(Ends, Unbroken(text)) == [a, m, b]
    requires a + m != [] && Strip(a + m) == a + m && b != [] && Strip(b) == b
    ensures SplitText(text) == [a + m, b]
  {
    ThreeParts(a, m, b);
    KeptTwo(a + m, b);
  }

  /** The script's own check does take "Mr." for an abbreviation. */
  lemma MrIsAbbreviation()
    ensures IsAbbreviationAt("Mr. Smith", 2) == Some(true)
  {
    var t := "Mr. Smith";
    assert EndsAt(t, 2, AbbreviationPatterns[0]) by {
      assert t[0..3] == "Mr.";
    }
    IsAbbreviationAtIff(t, 2);
  }

  /** A text part, a mark and a last part: the mark closes the first sentence. */
  lemma ThreeParts(a: string, m: string, b: string)
    ensures Sentences(NoAbbreviations, [a, m, b]) == Kept([a + m, b])
  {
    GatherThree(a, m, b);
    assert [a + m] + [b] == [a + m, b];
  }

  lemma GatherOne(a: string, m: string, b: string)
    ensures Gather(NoAbbreviations, [a, m, b], 1) == Acc([], a)
  {
    GatherStep([a, m, b], 0);
    assert "" + a == a;
  }

  lemma GatherTwo(a: string, m: string, b: string)
    ensures Gather(NoAbbreviations, [a, m, b], 2) == Acc([a + m], "")
  {
    GatherOne(a, m, b);
    GatherStep([a, m, b], 1);
  }

  lemma GatherThree(a: string, m: string, b: string)
    ensures Gather(NoAbbreviations, [a, m, b], 3) == Acc([a + m], b)
  {
    GatherTwo(a, m, b);
    GatherStep([a, m, b], 2);
    assert "" + b == b;
  }

  /** Two lines that are already stripped and non-blank are kept as they are. */
  lemma KeptTwo(x: string, y: string)
    requires x != [] && Strip(x) == x && y != [] && Strip(y) == y
    ensures Kept([x, y]) == [x, y]
  {
    KeptSnoc([], x);
    assert [] + [x] == [x];
    KeptSnoc([x], y);
    assert [x] + [y] == [x, y];
  }

  /** A text without line breaks is left as it is. */
  lemma UnbrokenKeeps(t: string)
    requires forall j :: 0 <= j < |t| ==> t[j] != '\r' && t[j] != '\n'
    ensures Unbroken(t) == t
  {
    forall j | 0 <= j <= |t| ensures !OccursAt(t, "\r\n", j) && !OccursAt(t, "\r", j) && !OccursAt(t, "\n", j) {
      if j < |t| {
        assert t[j] != "\r\n"[0];
      }
    }
    ReplaceAllAbsent(t, "\r\n", " ");
    ReplaceAllAbsent(t, "\r", " ");
    ReplaceAllAbsent(t, "\n", " ");
  }

}
