/**
 * The two writers of the transcript converter, `_write_srt_file` and
 * `_write_txt_file` (the same code as the script's `write_srt_file` and
 * `write_txt_file`): each builds the text of its file one `write` at a time.
 * The file itself is left out; a writer returns the text it would hold.
 */
module TranscriptWriters {
  import opened PyText
  import SentenceParts
  import T = Transcript

  /** lines each followed by a newline: what one `f.write(f"{line}\n")` per line leaves in a file */
  function Terminated(lines: seq<string>): string
    decreases |lines|
  {
    if lines == [] then "" else Terminated(lines[..|lines| - 1]) + lines[|lines| - 1] + "\n"
  }

  lemma {:induction false} TerminatedAppend(a: seq<string>, b: seq<string>)
    ensures Terminated(a + b) == Terminated(a) + Terminated(b)
    decreases |b|
  {
    if b != [] {
      var b' := b[..|b| - 1];
      assert (a + b)[..|a + b| - 1] == a + b';
      TerminatedAppend(a, b');
    } else {
      assert a + b == a;
    }
  }

  /** The terminated lines are the lines joined by newlines, with one more newline at the end. */
  lemma {:induction false} TerminatedJoin(lines: seq<string>)
    ensures Terminated(lines) == Join(lines + [""], "\n")
    decreases |lines|
  {
    if lines != [] {
      var r := lines[1..];
      TerminatedJoin(r);
      TerminatedAppend([lines[0]], r);
      assert [lines[0]] + r == lines;
      assert Terminated([lines[0]]) == lines[0] + "\n" by {
        assert [lines[0]][..0] == [];
      }
      assert (lines + [""])[1..] == r + [""];
    }
  }

  /** Splitting the text at its newlines gives the lines back, and an empty piece after the last newline. */
  lemma TerminatedReadBack(lines: seq<string>)
    requires SentenceParts.NoneContain(lines, '\n')
    ensures SplitOn(Terminated(lines), '\n') == lines + [""]
  {
    TerminatedJoin(lines);
    var parts := lines + [""];
    assert forall k :: 0 <= k < |parts| ==> !ContainsChar(parts[k], '\n') by {
      forall k | 0 <= k < |parts|
        ensures !ContainsChar(parts[k], '\n')
      {
        if k < |lines| {
          assert parts[k] == lines[k];
        }
      }
    }
    SplitOnJoin(parts, '\n');
  }

  // ------------------------------------------------------------------
  // SRT

  /** the four lines written for the `n`-th subtitle: its number, its times, its text and a blank line */
  function SrtBlock(n: nat, s: T.Subtitle): seq<string> {
    [T.Decimal(n), s.start + " --> " + s.end, s.text, ""]
  }

  /** the lines of the SRT file, blocks numbered from 1 */
  function SrtLines(subs: seq<T.Subtitle>): (r: seq<string>)
    ensures |r| == 4 * |subs|
    decreases |subs|
  {
    if subs == [] then [] else SrtLines(subs[..|subs| - 1]) + SrtBlock(|subs|, subs[|subs| - 1])
  }

  /** The `k`-th block (from 0) holds the number `k + 1` and the `k`-th subtitle. */
  lemma {:induction false} SrtLinesAt(subs: seq<T.Subtitle>, k: nat)
    requires k < |subs|
    ensures SrtLines(subs)[4 * k..4 * k + 4] == SrtBlock(k + 1, subs[k])
    decreases |subs|
  {
    var init := subs[..|subs| - 1];
    if k < |init| {
      SrtLinesAt(init, k);
      assert SrtLines(subs)[4 * k..4 * k + 4] == SrtLines(init)[4 * k..4 * k + 4];
    } else {
      assert SrtLines(subs)[4 * k..4 * k + 4] == SrtBlock(|subs|, subs[|subs| - 1]);
    }
  }

  /** `_write_srt_file`: four writes per subtitle, numbered by `enumerate(subtitles, 1)` */
  method WriteSrt(subs: seq<T.Subtitle>) returns (content: string)
    ensures content == Terminated(SrtLines(subs))
  {
    content := "";
    for i := 0 to |subs|
      invariant content == Terminated(SrtLines(subs[..i]))
    {
      var s := subs[i];
      var before := content;
      content := content + T.Decimal(i + 1) + "\n";
      content := content + s.start + " --> " + s.end + "\n";
      content := content + s.text + "\n";
      content := content + "\n";
      SrtStep(subs, i, before);
    }
    assert subs[..|subs|] == subs;
  }

  lemma TerminatedFour(a: string, b: string, c: string, d: string)
    ensures Terminated([a, b, c, d]) == a + "\n" + b + "\n" + c + "\n" + d + "\n"
  {
    assert [a][..0] == [];
    assert Terminated([a]) == a + "\n";
    assert [a, b][..1] == [a];
    assert Terminated([a, b]) == a + "\n" + b + "\n";
    assert [a, b, c][..2] == [a, b];
    assert Terminated([a, b, c]) == a + "\n" + b + "\n" + c + "\n";
    assert [a, b, c, d][..3] == [a, b, c];
  }

  /** the text one pass of the SRT loop appends is the block's lines, terminated */
  lemma SrtStep(subs: seq<T.Subtitle>, i: nat, before: string)
    requires i < |subs| && before == Terminated(SrtLines(subs[..i]))
    ensures before + T.Decimal(i + 1) + "\n" + (subs[i].start + " --> " + subs[i].end) + "\n"
      + subs[i].text + "\n" + "\n" == Terminated(SrtLines(subs[..i + 1]))
  {
    var s := subs[i];
    var b := SrtBlock(i + 1, s);
    assert subs[..i + 1][..i] == subs[..i] && subs[..i + 1][i] == s;
    TerminatedAppend(SrtLines(subs[..i]), b);
    TerminatedFour(T.Decimal(i + 1), s.start + " --> " + s.end, s.text, "");
  }

  /** No line of a subtitle's block holds a line break when its fields hold none. */
  lemma SrtBlockOneLine(n: nat, s: T.Subtitle)
    requires T.OneLine(s)
    ensures SentenceParts.NoneContain(SrtBlock(n, s), '\n')
  {
    T.DigitsLack(T.Decimal(n), '\n');
    assert !ContainsChar(" --> ", '\n');
    ContainsCharConcat(s.start, " --> ", '\n');
    ContainsCharConcat(s.start + " --> ", s.end, '\n');
    assert !ContainsChar("", '\n');
  }

  lemma NoneContainAppend(a: seq<string>, b: seq<string>, c: char)
    requires SentenceParts.NoneContain(a, c) && SentenceParts.NoneContain(b, c)
    ensures SentenceParts.NoneContain(a + b, c)
  {
    forall k | 0 <= k < |a + b|
      ensures !ContainsChar((a + b)[k], c)
    {
      if k >= |a| {
        assert (a + b)[k] == b[k - |a|];
      }
    }
  }

  lemma {:induction false} SrtLinesOneLine(subs: seq<T.Subtitle>)
    requires forall s :: s in subs ==> T.OneLine(s)
    ensures SentenceParts.NoneContain(SrtLines(subs), '\n')
    decreases |subs|
  {
    if subs != [] {
      var init := subs[..|subs| - 1];
      assert forall s :: s in init ==> s in subs;
      SrtLinesOneLine(init);
      assert subs[|subs| - 1] in subs;
      SrtBlockOneLine(|subs|, subs[|subs| - 1]);
      NoneContainAppend(SrtLines(init), SrtBlock(|subs|, subs[|subs| - 1]), '\n');
    }
  }

  /**
   * Read back line by line, an SRT file of one-line subtitles holds, for the
   * `k`-th subtitle (from 0), the number `k + 1`, its start and end around
   * ` --> `, its text and a blank line; after the last block nothing follows.
   */
  lemma SrtReadBack(subs: seq<T.Subtitle>, k: nat)
    requires forall s :: s in subs ==> T.OneLine(s)
    requires k < |subs|
    ensures var lines := SplitOn(Terminated(SrtLines(subs)), '\n');
      |lines| == 4 * |subs| + 1 && lines[4 * |subs|] == "" &&
      lines[4 * k] == T.Decimal(k + 1) && lines[4 * k + 1] == subs[k].start + " --> " + subs[k].end &&
      lines[4 * k + 2] == subs[k].text && lines[4 * k + 3] == ""
  {
    var lines := SrtLines(subs);
    SrtLinesOneLine(subs);
    TerminatedReadBack(lines);
    SrtLinesAt(subs, k);
    var block := lines[4 * k..4 * k + 4];
    assert (lines + [""])[4 * k] == block[0] && (lines + [""])[4 * k + 1] == block[1];
    assert (lines + [""])[4 * k + 2] == block[2] && (lines + [""])[4 * k + 3] == block[3];
  }

  // ------------------------------------------------------------------
  // TXT

  /** `_write_txt_file`: the stripped text of each subtitle whose text is not blank, one per line */
  method WriteTxt(subs: seq<T.Subtitle>) returns (content: string)
    ensures content == Terminated(Kept(T.Texts(subs)))
  {
    content := "";
    assert subs[..0] == [];
    for i := 0 to |subs|
      invariant content == Terminated(Kept(T.Texts(subs[..i])))
    {
      var text := subs[i].text;
      TxtStep(subs, i);
      TerminatedKeptLine(text);
      var stripped := Strip(text);
      if stripped != [] {
        content := content + (stripped + "\n");
      } else {
        assert Terminated(KeptLine(text)) == "";
        assert content + "" == content;
      }
    }
    assert subs[..|subs|] == subs;
  }

  lemma TerminatedKeptLine(text: string)
    ensures Terminated(KeptLine(text)) == if Strip(text) != [] then Strip(text) + "\n" else ""
  {
    if Strip(text) != [] {
      assert [Strip(text)][..0] == [];
    }
  }

  /** one pass of the TXT loop appends the kept form of the subtitle's text */
  lemma TxtStep(subs: seq<T.Subtitle>, i: nat)
    requires i < |subs|
    ensures Terminated(Kept(T.Texts(subs[..i + 1])))
      == Terminated(Kept(T.Texts(subs[..i]))) + Terminated(KeptLine(subs[i].text))
  {
    var texts := T.Texts(subs[..i]);
    var text := subs[i].text;
    assert subs[..i + 1][..i] == subs[..i];
    assert T.Texts(subs[..i + 1]) == texts + [text];
    assert (texts + [text])[..|texts|] == texts;
    TerminatedAppend(Kept(texts), KeptLine(text));
  }

  /**
   * Read back line by line, a TXT file of one-line subtitles holds exactly
   * the stripped non-blank texts, in order, each non-empty and stripped.
   */
  lemma TxtReadBack(subs: seq<T.Subtitle>)
    requires forall s :: s in subs ==> T.OneLine(s)
    ensures SplitOn(Terminated(Kept(T.Texts(subs))), '\n') == Kept(T.Texts(subs)) + [""]
    ensures forall x :: x in Kept(T.Texts(subs)) ==> x != [] && Strip(x) == x
  {
    var texts := T.Texts(subs);
    TextsOneLine(subs);
    SentenceParts.KeptKeepsAbsent(texts, '\n');
    TerminatedReadBack(Kept(texts));
    KeptStripped(texts);
  }

  lemma TextsOneLine(subs: seq<T.Subtitle>)
    requires forall s :: s in subs ==> T.OneLine(s)
    ensures SentenceParts.NoneContain(T.Texts(subs), '\n')
  {
    forall k | 0 <= k < |subs|
      ensures !ContainsChar(T.Texts(subs)[k], '\n')
    {
      assert subs[k] in subs;
    }
  }
}
