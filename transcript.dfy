/**
 * The transcript converter's core, shared by the plugin and the stand-alone
 * script: `m:ss` timestamps turned into SRT clocks, the end-time rules, the
 * grouping of a timestamp line with the text lines after it, and the SRT and
 * plain-text serialisations. Files are read and written elsewhere: here the
 * input is the file's text and the outputs are the strings written.
 */
module Transcript {
  import opened Wrappers
  import opened PyText
  import SentenceParts

  // ------------------------------------------------------------------
  // Decimal numerals (ASCII digits only)

  predicate AllDigits(s: string) {
    forall i :: 0 <= i < |s| ==> IsDigit(s[i])
  }

  function DigitChar(d: nat): (c: char)
    requires d < 10
    ensures IsDigit(c)
  {
    ('0' as int + d) as char
  }

  function DigitValue(c: char): (d: nat)
    requires IsDigit(c)
    ensures d < 10
  {
    c as int - '0' as int
  }

  /** `str(n)` */
  function Decimal(n: nat): (r: string)
    ensures |r| >= 1 && AllDigits(r)
    ensures n < 10 <==> |r| == 1
    decreases n
  {
    if n < 10 then [DigitChar(n)] else Decimal(n / 10) + [DigitChar(n % 10)]
  }

  /** `int(s)` for a string of digits */
  function Value(s: string): nat
    requires AllDigits(s)
  {
    if s == [] then 0 else Value(s[..|s| - 1]) * 10 + DigitValue(s[|s| - 1])
  }

  /** Reading a numeral back gives the number. */
  lemma {:induction false} ValueOfDecimal(n: nat)
    ensures Value(Decimal(n)) == n
    decreases n
  {
    if n >= 10 {
      ValueOfDecimal(n / 10);
      var r := Decimal(n);
      assert r[..|r| - 1] == Decimal(n / 10);
    }
  }

  /** `f"{n:02d}"`: the numeral, zero-padded to two digits */
  function Pad2(n: nat): string {
    if n < 10 then ['0', DigitChar(n)] else Decimal(n)
  }

  /** A padded numeral has at least two digits, exactly two below 100, and reads back as the number. */
  lemma Pad2Reads(n: nat)
    ensures |Pad2(n)| >= 2 && AllDigits(Pad2(n)) && Value(Pad2(n)) == n
    ensures n < 100 ==> |Pad2(n)| == 2
  {
    var r := Pad2(n);
    if n < 10 {
      assert r[..1] == ['0'] && ['0'][..0] == [];
      assert Value(['0']) == 0;
    } else {
      ValueOfDecimal(n);
      assert n < 100 ==> |Decimal(n / 10)| == 1;
    }
  }

  // ------------------------------------------------------------------
  // Timestamps

  /** the length of the run of digits that starts `t` */
  function DigitRun(t: string): (n: nat)
    ensures n <= |t| && (n == |t| || !IsDigit(t[n]))
  {
    if t != [] && IsDigit(t[0]) then 1 + DigitRun(t[1..]) else 0
  }

  lemma {:induction false} DigitRunDigits(t: string)
    ensures forall i :: 0 <= i < DigitRun(t) ==> IsDigit(t[i])
  {
    if t != [] && IsDigit(t[0]) {
      DigitRunDigits(t[1..]);
      assert forall i :: 1 <= i < DigitRun(t) ==> t[i] == t[1..][i - 1];
    }
  }

  /** The pattern `(\d+):(\d{2})` matches the start of `t` with `d` digits before the colon. */
  predicate MatchesWith(t: string, d: nat) {
    1 <= d && d + 3 <= |t| && AllDigits(t[..d]) && t[d] == ':' && IsDigit(t[d + 1]) && IsDigit(t[d + 2])
  }

  /**
   * `re.match(r"(\d+):(\d{2})", t)`: the minutes and the seconds, or no match.
   * The digit run is greedy; the colon after it is the only place the
   * pattern can go on.
   */
  function MatchClock(t: string): Option<(nat, nat)> {
    var d := DigitRun(t);
    if MatchesWith(t, d) then Some((Value(t[..d]), Value(t[d + 1..d + 3]))) else None
  }

  /** The greedy scan matches exactly when some digit count does, and reads that one. */
  lemma MatchClockIff(t: string)
    ensures MatchClock(t).Some? <==> exists d :: MatchesWith(t, d)
    ensures forall d: nat :: MatchesWith(t, d) ==> MatchClock(t) == Some((Value(t[..d]), Value(t[d + 1..d + 3])))
  {
    var n := DigitRun(t);
    DigitRunDigits(t);
    forall d: nat | MatchesWith(t, d) ensures d == n {
    }
  }

  /** the whole seconds a timestamp stands for, when it matches */
  function Seconds(t: string): Option<nat> {
    match MatchClock(t)
    case None => None
    case Some(ms) => Some(60 * ms.0 + ms.1)
  }

  /** `f"{h:02d}:{m:02d}:{s:02d},000"` with `h`, `m`, `s` the hours, minutes and seconds of `total` */
  function Clock(total: nat): string {
    Pad2(total / 3600) + ":" + Pad2(total % 3600 / 60) + ":" + Pad2(total % 60) + ",000"
  }

  /** reading an SRT clock `HH:MM:SS,000` back into seconds */
  function ReadClock(r: string): Option<nat> {
    var parts := SplitOn(r, ':');
    if |parts| == 3 && AllDigits(parts[0]) && AllDigits(parts[1]) && |parts[2]| >= 4
      && parts[2][|parts[2]| - 4..] == ",000" && AllDigits(parts[2][..|parts[2]| - 4])
    then Some(3600 * Value(parts[0]) + 60 * Value(parts[1]) + Value(parts[2][..|parts[2]| - 4]))
    else None
  }

  /** A numeral holds no character but digits. */
  lemma DigitsLack(s: string, c: char)
    requires AllDigits(s) && !IsDigit(c)
    ensures !ContainsChar(s, c)
  {
  }

  lemma ClockIsJoin(total: nat)
    ensures Clock(total) == Join([Pad2(total / 3600), Pad2(total % 3600 / 60), Pad2(total % 60) + ",000"], ":")
  {
    var a, b, c := Pad2(total / 3600), Pad2(total % 3600 / 60), Pad2(total % 60) + ",000";
    assert [a, b, c][1..] == [b, c];
    assert [b, c][1..] == [c];
    assert Join([c], ":") == c;
    assert Join([b, c], ":") == b + ":" + c;
    assert Join([a, b, c], ":") == a + ":" + (b + ":" + c);
  }

  lemma AddSixties(k: nat, r: nat)
    ensures (60 * k + r) % 60 == r % 60
    decreases k
  {
    if k > 0 {
      AddSixties(k - 1, r);
      assert 60 * k + r == 60 + (60 * (k - 1) + r);
    }
  }

  lemma ClockArithmetic(total: nat)
    ensures 3600 * (total / 3600) + 60 * (total % 3600 / 60) + total % 60 == total
  {
    var h, r := total / 3600, total % 3600;
    assert total == 3600 * h + r;
    assert r == 60 * (r / 60) + r % 60;
    assert 3600 * h == 60 * (60 * h);
    AddSixties(60 * h, r);
  }

  /** A clock reads back as the seconds it was made from. */
  lemma ClockRoundTrip(total: nat)
    ensures ReadClock(Clock(total)) == Some(total)
  {
    var a, b, s := Pad2(total / 3600), Pad2(total % 3600 / 60), Pad2(total % 60);
    var c := s + ",000";
    Pad2Reads(total / 3600);
    Pad2Reads(total % 3600 / 60);
    Pad2Reads(total % 60);
    ClockIsJoin(total);
    DigitsLack(a, ':');
    DigitsLack(b, ':');
    DigitsLack(s, ':');
    ContainsCharConcat(s, ",000", ':');
    assert !ContainsChar(",000", ':');
    SplitOnJoin([a, b, c], ':');
    assert c[..|c| - 4] == s && c[|c| - 4..] == ",000";
    ClockArithmetic(total);
  }

  /** Different seconds give different clocks. */
  lemma ClockInjective(x: nat, y: nat)
    ensures Clock(x) == Clock(y) <==> x == y
  {
    ClockRoundTrip(x);
    ClockRoundTrip(y);
  }

  /** A timestamp written as minutes, a colon and two-digit seconds matches with those values. */
  lemma StampRoundTrip(m: nat, sec: nat, rest: string)
    requires sec < 100
    ensures MatchClock(Decimal(m) + ":" + Pad2(sec) + rest) == Some((m, sec))
  {
    var a, p := Decimal(m), Pad2(sec);
    var t := a + ":" + p + rest;
    Pad2Reads(sec);
    assert t[..|a|] == a;
    assert t[|a|] == ':';
    assert t[|a| + 1..|a| + 3] == p;
    assert MatchesWith(t, |a|);
    MatchClockIff(t);
    ValueOfDecimal(m);
  }

  /** `_parse_timestamp` / `parse_timestamp`: a `ValueError` unless the text starts with `m:ss` */
  function ParseTimestamp(t: string): (r: Result<string>)
    ensures r.Success? <==> Seconds(t).Some?
  {
    match Seconds(t)
    case None => Failure("无法解析时间戳格式: " + t)
    case Some(total) => Success(Clock(total))
  }

  /** A parsed timestamp is the SRT clock of `60 * minutes + seconds`. */
  lemma ParseTimestampReads(t: string)
    requires MatchClock(t).Some?
    ensures ParseTimestamp(t).Success?
    ensures ReadClock(ParseTimestamp(t).value) == Some(60 * MatchClock(t).value.0 + MatchClock(t).value.1)
  {
    var m := MatchClock(t).value;
    var total := 60 * m.0 + m.1;
    assert Seconds(t) == Some(total);
    assert ParseTimestamp(t).value == Clock(total);
    ClockRoundTrip(total);
  }

  /** `_calculate_end_time` of the plugin: the next timestamp, else the start plus 3 s, else 3 s */
  function PluginEndTime(start: string, next: string): string {
    Clock(
      if Seconds(next).Some? then Seconds(next).value
      else if Seconds(start).Some? then Seconds(start).value + 3
      else 3)
  }

  /**
   * `calculate_end_time` of the script: the next timestamp when both parse,
   * otherwise the start (0 when it does not parse) plus 3 s.
   */
  function ScriptEndTime(start: string, next: string): string {
    Clock(
      if Seconds(start).Some? && Seconds(next).Some? then Seconds(next).value
      else (if Seconds(start).Some? then Seconds(start).value else 0) + 3)
  }

  /** With a parsing next timestamp, the plugin ends there; without, it adds 3 s to the start or to 0. */
  lemma PluginEndTimeReads(start: string, next: string)
    ensures Seconds(next).Some? ==> PluginEndTime(start, next) == ParseTimestamp(next).value
    ensures Seconds(next).None? ==>
      ReadClock(PluginEndTime(start, next)) == Some(if Seconds(start).Some? then Seconds(start).value + 3 else 3)
  {
    if Seconds(next).None? {
      ClockRoundTrip(if Seconds(start).Some? then Seconds(start).value + 3 else 3);
    }
  }

  /** The script ends at the next timestamp only when both parse, otherwise 3 s after the start or after 0. */
  lemma ScriptEndTimeReads(start: string, next: string)
    ensures Seconds(start).Some? && Seconds(next).Some? ==> ScriptEndTime(start, next) == ParseTimestamp(next).value
    ensures Seconds(start).None? || Seconds(next).None? ==>
      ReadClock(ScriptEndTime(start, next)) == Some((if Seconds(start).Some? then Seconds(start).value else 0) + 3)
  {
    if Seconds(start).None? || Seconds(next).None? {
      ClockRoundTrip((if Seconds(start).Some? then Seconds(start).value else 0) + 3);
    }
  }

  /**
   * The two rules give the same end time except when the start does not
   * parse and the next timestamp does (and is not itself 0:03).
   */
  lemma EndTimesAgree(start: string, next: string)
    ensures PluginEndTime(start, next) == ScriptEndTime(start, next) <==>
      !(Seconds(start).None? && Seconds(next).Some? && Seconds(next).value != 3)
  {
    if Seconds(start).None? && Seconds(next).Some? {
      ClockInjective(Seconds(next).value, 3);
    }
  }

  /** A timestamp ends at itself under both rules. */
  lemma EndOfOwnStamp(ts: string)
    requires Seconds(ts).Some?
    ensures PluginEndTime(ts, ts) == ParseTimestamp(ts).value
    ensures ScriptEndTime(ts, ts) == ParseTimestamp(ts).value
  {
  }

  // ------------------------------------------------------------------
  // Grouping the lines of a transcript

  /** which `calculate_end_time` a converter uses */
  datatype EndRule = PluginRule | ScriptRule

  function EndTime(rule: EndRule, start: string, next: string): string {
    match rule
    case PluginRule => PluginEndTime(start, next)
    case ScriptRule => ScriptEndTime(start, next)
  }

  /** one subtitle: start clock, end clock and text */
  datatype Subtitle = Subtitle(start: string, end: string, text: string)

  /** `re.match(r"\d+:\d{2}", line)`: the timestamp pattern without its groups */
  predicate IsStamp(line: string) {
    MatchClock(line).Some?
  }

  /**
   * The text a file opened in text mode reads as: universal newlines turn
   * both `\r\n` and a lone `\r` into `\n`.
   */
  function UniversalNewlines(content: string): (r: string)
    ensures !ContainsChar(r, '\r')
    ensures |r| <= |content|
    decreases |content|
  {
    if content == [] then []
    else if content[0] == '\r' then
      "\n" + UniversalNewlines(if |content| > 1 && content[1] == '\n' then content[2..] else content[1..])
    else [content[0]] + UniversalNewlines(content[1..])
  }

  /** Text without a carriage return reads as it is stored. */
  lemma {:induction false} UniversalNewlinesPlain(content: string)
    requires !ContainsChar(content, '\r')
    ensures UniversalNewlines(content) == content
    decreases |content|
  {
    if content != [] {
      assert content[0] != '\r';
      assert !ContainsChar(content[1..], '\r') by {
        forall i | 0 <= i < |content[1..]| ensures content[1..][i] != '\r' {
          assert content[1..][i] == content[i + 1];
        }
      }
      UniversalNewlinesPlain(content[1..]);
      assert content == [content[0]] + content[1..];
    }
  }

  /**
   * `[line.strip() for line in f.readlines() if line.strip()]` for a file
   * whose stored text is `content`: `strip` removes the line ending
   * `readlines` keeps, so the lines are the pieces between the newlines of
   * the text as read.
   */
  function FileLines(content: string): seq<string> {
    Kept(SplitOn(UniversalNewlines(content), '\n'))
  }

  /** for each line, whether it is a timestamp line */
  function Marks(lines: seq<string>): (m: seq<bool>)
    ensures |m| == |lines| && forall k :: 0 <= k < |lines| ==> m[k] == IsStamp(lines[k])
  {
    seq(|lines|, k requires 0 <= k < |lines| => IsStamp(lines[k]))
  }

  // The grouping depends only on which lines are timestamps; the functions
  // and lemmas below up to `Subtitles` take those marks as a `seq<bool>`.

  /** the first index at or after `j` holding a timestamp, or the end */
  function TextEnd(marks: seq<bool>, j: nat): (k: nat)
    requires j <= |marks|
    ensures j <= k <= |marks|
    ensures k == |marks| || marks[k]
    decreases |marks| - j
  {
    if j == |marks| || marks[j] then j else TextEnd(marks, j + 1)
  }

  /** Between `j` and the text end there is no timestamp. */
  lemma {:induction false} TextEndNoStamp(marks: seq<bool>, j: nat, x: nat)
    requires j <= |marks| && j <= x < TextEnd(marks, j)
    ensures !marks[x]
    decreases |marks| - j
  {
    if x > j {
      TextEndNoStamp(marks, j + 1, x);
    }
  }

  /** a timestamp at `s.0` whose text lines run from `s.0 + 1` up to the next timestamp or the end, `s.1` */
  predicate SpanIn(marks: seq<bool>, s: (nat, nat)) {
    s.0 + 1 < s.1 <= |marks| && marks[s.0] && (s.1 == |marks| || marks[s.1])
  }

  /**
   * The timestamp-and-text spans `parse_subtitle_file` turns into subtitles
   * from index `i` on: a timestamp line and the text lines after it, up to
   * the next timestamp; a timestamp with no text and a text line with no
   * timestamp before it are skipped.
   */
  function Spans(marks: seq<bool>, i: nat): (r: seq<(nat, nat)>)
    requires i <= |marks|
    ensures forall k :: 0 <= k < |r| ==> i <= r[k].0 && SpanIn(marks, r[k])
    decreases |marks| - i
  {
    if i == |marks| then []
    else if !marks[i] then Spans(marks, i + 1)
    else
      var j := TextEnd(marks, i + 1);
      if j == i + 1 then Spans(marks, j) else [(i, j)] + Spans(marks, j)
  }

  lemma SpansSkip(marks: seq<bool>, i: nat)
    requires i < |marks| && !marks[i]
    ensures Spans(marks, i) == Spans(marks, i + 1)
    ensures TextEnd(marks, i) == TextEnd(marks, i + 1)
  {
  }

  lemma SpansOpen(marks: seq<bool>, i: nat, j: nat)
    requires i < |marks| && marks[i] && j == TextEnd(marks, i + 1)
    ensures j == i + 1 ==> Spans(marks, i) == Spans(marks, j)
    ensures j > i + 1 ==> Spans(marks, i) == [(i, j)] + Spans(marks, j)
  {
  }

  /** the subtitle a timestamp at `i` opens when its text lines run up to `j` */
  function SubtitleOf(rule: EndRule, lines: seq<string>, i: nat, j: nat): Subtitle
    requires i + 1 < j <= |lines| && IsStamp(lines[i])
  {
    var ts := lines[i];
    var end := if j < |lines| then EndTime(rule, ts, lines[j]) else EndTime(rule, ts, ts);
    Subtitle(ParseTimestamp(ts).value, end, Join(lines[i + 1..j], " "))
  }

  lemma SubtitleOfText(rule: EndRule, lines: seq<string>, i: nat, j: nat)
    requires i + 1 < j <= |lines| && IsStamp(lines[i])
    ensures SubtitleOf(rule, lines, i, j).text == Join(lines[i + 1..j], " ")
  {
  }

  /** the subtitles the spans make, one each, in order */
  function SubtitlesOf(rule: EndRule, lines: seq<string>, spans: seq<(nat, nat)>): (r: seq<Subtitle>)
    requires forall k :: 0 <= k < |spans| ==> spans[k].0 + 1 < spans[k].1 <= |lines| && IsStamp(lines[spans[k].0])
    ensures |r| == |spans|
    ensures forall k :: 0 <= k < |spans| ==> r[k] == SubtitleOf(rule, lines, spans[k].0, spans[k].1)
    decreases |spans|
  {
    if spans == [] then []
    else [SubtitleOf(rule, lines, spans[0].0, spans[0].1)] + SubtitlesOf(rule, lines, spans[1..])
  }

  /** the subtitles `parse_subtitle_file` finds from index `i` on */
  function Subtitles(rule: EndRule, lines: seq<string>, i: nat): seq<Subtitle>
    requires i <= |lines|
  {
    SubtitlesOf(rule, lines, Spans(Marks(lines), i))
  }

  lemma SubtitlesSkip(rule: EndRule, lines: seq<string>, i: nat)
    requires i < |lines| && !IsStamp(lines[i])
    ensures Subtitles(rule, lines, i) == Subtitles(rule, lines, i + 1)
    ensures TextEnd(Marks(lines), i) == TextEnd(Marks(lines), i + 1)
  {
    SpansSkip(Marks(lines), i);
  }

  lemma SubtitlesOpen(rule: EndRule, lines: seq<string>, i: nat, j: nat)
    requires i < |lines| && IsStamp(lines[i]) && j == TextEnd(Marks(lines), i + 1)
    ensures j == i + 1 ==> Subtitles(rule, lines, i) == Subtitles(rule, lines, j)
    ensures j > i + 1 ==> Subtitles(rule, lines, i) == [SubtitleOf(rule, lines, i, j)] + Subtitles(rule, lines, j)
  {
    var marks := Marks(lines);
    SpansOpen(marks, i, j);
    if j > i + 1 {
      var sp := Spans(marks, i);
      assert sp[1..] == Spans(marks, j);
    }
  }

  /** `_parse_subtitle_file` / `parse_subtitle_file` on the file's text */
  method ParseSubtitleFile(rule: EndRule, content: string) returns (subtitles: seq<Subtitle>)
    ensures subtitles == Subtitles(rule, FileLines(content), 0)
  {
    subtitles := GroupLines(rule, FileLines(content));
  }

  lemma SubtitleOfParts(rule: EndRule, lines: seq<string>, i: nat, j: nat)
    requires i + 1 < j <= |lines| && IsStamp(lines[i])
    ensures SubtitleOf(rule, lines, i, j) == Subtitle(ParseTimestamp(lines[i]).value,
      if j < |lines| then EndTime(rule, lines[i], lines[j]) else EndTime(rule, lines[i], lines[i]),
      Join(lines[i + 1..j], " "))
  {
  }

  /** the inner loop of `parse_subtitle_file`: the text lines from `start` up to the next timestamp */
  method CollectText(lines: seq<string>, start: nat) returns (textLines: seq<string>, i: nat)
    requires start <= |lines|
    ensures i == TextEnd(Marks(lines), start) && textLines == lines[start..i]
  {
    textLines := [];
    i := start;
    while i < |lines| && !IsStamp(lines[i])
      invariant start <= i <= |lines|
      invariant textLines == lines[start..i]
      invariant TextEnd(Marks(lines), i) == TextEnd(Marks(lines), start)
      decreases |lines| - i
    {
      assert lines[start..i + 1] == lines[start..i] + [lines[i]];
      textLines := textLines + [lines[i]];
      i := i + 1;
    }
  }

  /** the loop of `parse_subtitle_file` over the stripped, non-blank lines */
  method GroupLines(rule: EndRule, lines: seq<string>) returns (subtitles: seq<Subtitle>)
    ensures subtitles == Subtitles(rule, lines, 0)
  {
    subtitles := [];
    var i := 0;
    while i < |lines|
      invariant 0 <= i <= |lines|
      invariant subtitles + Subtitles(rule, lines, i) == Subtitles(rule, lines, 0)
      decreases |lines| - i
    {
      subtitles, i := GroupStep(rule, lines, subtitles, i);
    }
  }

  /** the body of the `if text_lines:` branch: the subtitle of a timestamp and its text lines */
  method MakeSubtitle(rule: EndRule, lines: seq<string>, i: nat, next: nat, textLines: seq<string>)
    returns (sub: Subtitle)
    requires i + 1 < next <= |lines| && IsStamp(lines[i]) && textLines == lines[i + 1..next]
    requires next == |lines| || IsStamp(lines[next])
    ensures sub == SubtitleOf(rule, lines, i, next)
  {
    var timestamp := lines[i];
    var text := Join(textLines, " ");
    var endTime;
    if next < |lines| && IsStamp(lines[next]) {
      endTime := EndTime(rule, timestamp, lines[next]);
    } else {
      endTime := EndTime(rule, timestamp, timestamp);
    }
    var startTime := ParseTimestamp(timestamp).value;
    sub := Subtitle(startTime, endTime, text);
    SubtitleOfParts(rule, lines, i, next);
  }

  /**
   * One pass of the outer loop: a timestamp line with its text lines, or a
   * line skipped.
   */
  method GroupStep(rule: EndRule, lines: seq<string>, done: seq<Subtitle>, i: nat)
    returns (subtitles: seq<Subtitle>, next: nat)
    requires i < |lines|
    ensures i < next <= |lines|
    ensures subtitles + Subtitles(rule, lines, next) == done + Subtitles(rule, lines, i)
  {
    subtitles := done;
    if IsStamp(lines[i]) {
      var textLines;
      textLines, next := CollectText(lines, i + 1);
      SubtitlesOpen(rule, lines, i, next);
      if textLines != [] {
        var sub := MakeSubtitle(rule, lines, i, next, textLines);
        assert (subtitles + [sub]) + Subtitles(rule, lines, next) == subtitles + ([sub] + Subtitles(rule, lines, next));
        subtitles := subtitles + [sub];
      }
    } else {
      SubtitlesSkip(rule, lines, i);
      next := i + 1;
    }
  }

  // ------------------------------------------------------------------
  // What the grouping promises

  /** A subtitle starts at its own timestamp and ends at the next one, or at its own when it is the last. */
  lemma SubtitleTimes(rule: EndRule, lines: seq<string>, i: nat, j: nat)
    requires i + 1 < j <= |lines| && IsStamp(lines[i])
    requires j == |lines| || IsStamp(lines[j])
    ensures SubtitleOf(rule, lines, i, j).start == ParseTimestamp(lines[i]).value
    ensures SubtitleOf(rule, lines, i, j).end ==
      if j < |lines| then ParseTimestamp(lines[j]).value else ParseTimestamp(lines[i]).value
  {
    if j < |lines| {
      PluginEndTimeReads(lines[i], lines[j]);
      ScriptEndTimeReads(lines[i], lines[j]);
    } else {
      EndOfOwnStamp(lines[i]);
    }
  }

  /** The plugin's and the script's end-time rules never differ inside the grouping. */
  lemma SubtitlesRuleFree(lines: seq<string>, i: nat)
    requires i <= |lines|
    ensures Subtitles(PluginRule, lines, i) == Subtitles(ScriptRule, lines, i)
  {
    var sp := Spans(Marks(lines), i);
    var p, s := Subtitles(PluginRule, lines, i), Subtitles(ScriptRule, lines, i);
    forall k | 0 <= k < |sp|
      ensures p[k] == s[k]
    {
      SubtitleTimes(PluginRule, lines, sp[k].0, sp[k].1);
      SubtitleTimes(ScriptRule, lines, sp[k].0, sp[k].1);
    }
  }

  /** Text lines before the first timestamp are skipped. */
  lemma {:induction false} LeadingTextSkipped(marks: seq<bool>, i: nat)
    requires i <= |marks|
    ensures Spans(marks, i) == Spans(marks, TextEnd(marks, i))
    decreases |marks| - i
  {
    if i < |marks| && !marks[i] {
      LeadingTextSkipped(marks, i + 1);
    }
  }

  /** timestamps at `k >= i` directly followed by a text line: the subtitles the file holds */
  function Opened(marks: seq<bool>, i: nat): nat
    requires i <= |marks|
    decreases |marks| - i
  {
    if i + 1 >= |marks| then 0
    else (if marks[i] && !marks[i + 1] then 1 else 0) + Opened(marks, i + 1)
  }

  /** Inside a run of text lines no subtitle is opened. */
  lemma {:induction false} OpenedInText(marks: seq<bool>, a: nat, j: nat)
    requires a <= j <= |marks| && j == TextEnd(marks, a)
    ensures Opened(marks, a) == Opened(marks, j)
    decreases j - a
  {
    if a < j {
      OpenedInText(marks, a + 1, j);
    }
  }

  /** There is one span per timestamp that is directly followed by a text line. */
  lemma {:induction false} SpanCount(marks: seq<bool>, i: nat)
    requires i <= |marks|
    ensures |Spans(marks, i)| == Opened(marks, i)
    decreases |marks| - i
  {
    if i < |marks| {
      if !marks[i] {
        SpanCount(marks, i + 1);
      } else {
        var j := TextEnd(marks, i + 1);
        SpanCount(marks, j);
        OpenedInText(marks, i + 1, j);
        if j > i + 1 {
          TextEndNoStamp(marks, i + 1, i + 1);
        }
      }
    }
  }

  /** the text lines from index `i` on, wherever they stand */
  function NonStamps(lines: seq<string>, marks: seq<bool>, i: nat): seq<string>
    requires |marks| == |lines| && i <= |lines|
    decreases |lines| - i
  {
    if i == |lines| then [] else (if marks[i] then [] else [lines[i]]) + NonStamps(lines, marks, i + 1)
  }

  /** the text of each span: its lines joined by single spaces */
  function SpanTexts(lines: seq<string>, spans: seq<(nat, nat)>): (r: seq<string>)
    requires forall k :: 0 <= k < |spans| ==> spans[k].0 < spans[k].1 <= |lines|
    ensures |r| == |spans|
  {
    seq(|spans|, k requires 0 <= k < |spans| => Join(lines[spans[k].0 + 1..spans[k].1], " "))
  }

  /** the subtitles' texts, in order */
  function Texts(subs: seq<Subtitle>): (r: seq<string>)
    ensures |r| == |subs|
  {
    seq(|subs|, k requires 0 <= k < |subs| => subs[k].text)
  }

  lemma SpanTextsCons(lines: seq<string>, s: (nat, nat), r: seq<(nat, nat)>)
    requires s.0 < s.1 <= |lines|
    requires forall k :: 0 <= k < |r| ==> r[k].0 < r[k].1 <= |lines|
    ensures SpanTexts(lines, [s] + r) == [Join(lines[s.0 + 1..s.1], " ")] + SpanTexts(lines, r)
  {
  }

  lemma {:induction false} NonStampsRun(lines: seq<string>, marks: seq<bool>, a: nat, j: nat)
    requires |marks| == |lines| && a <= j <= |lines| && j == TextEnd(marks, a)
    ensures NonStamps(lines, marks, a) == lines[a..j] + NonStamps(lines, marks, j)
    decreases j - a
  {
    if a < j {
      NonStampsRun(lines, marks, a + 1, j);
      assert lines[a..j] == [lines[a]] + lines[a + 1..j];
    }
  }

  /** a text in front of the texts, against its lines in front of the lines */
  lemma JoinCover(x: string, t: seq<string>, a: seq<string>, n: seq<string>)
    requires a != [] && x == Join(a, " ")
    requires (t == [] <==> n == []) && Join(t, " ") == Join(n, " ")
    ensures Join([x] + t, " ") == Join(a + n, " ")
  {
    if t == [] {
      assert [x] + t == [x] && a + n == a;
    } else {
      JoinAppend([x], t, " ");
      JoinAppend(a, n, " ");
    }
  }

  /**
   * No text line after the first timestamp is lost or reordered: the spans'
   * texts, joined by spaces, are those lines joined by spaces.
   */
  lemma {:induction false} SpansCover(lines: seq<string>, marks: seq<bool>, i: nat)
    requires |marks| == |lines| && (i == |lines| || (i < |lines| && marks[i]))
    ensures Spans(marks, i) == [] <==> NonStamps(lines, marks, i) == []
    ensures Join(SpanTexts(lines, Spans(marks, i)), " ") == Join(NonStamps(lines, marks, i), " ")
    decreases |lines| - i
  {
    if i < |lines| {
      var j := TextEnd(marks, i + 1);
      SpansCover(lines, marks, j);
      SpansCoverStep(lines, marks, i, j);
    }
  }

  /** One span more: what `SpansCover` states at the next timestamp carries back to this one. */
  lemma SpansCoverStep(lines: seq<string>, marks: seq<bool>, i: nat, j: nat)
    requires |marks| == |lines| && i < |lines| && marks[i] && j == TextEnd(marks, i + 1)
    requires Spans(marks, j) == [] <==> NonStamps(lines, marks, j) == []
    requires Join(SpanTexts(lines, Spans(marks, j)), " ") == Join(NonStamps(lines, marks, j), " ")
    ensures Spans(marks, i) == [] <==> NonStamps(lines, marks, i) == []
    ensures Join(SpanTexts(lines, Spans(marks, i)), " ") == Join(NonStamps(lines, marks, i), " ")
  {
    var a, n := lines[i + 1..j], NonStamps(lines, marks, j);
    assert NonStamps(lines, marks, i) == a + n by {
      NonStampsRun(lines, marks, i + 1, j);
    }
    SpansOpen(marks, i, j);
    if j > i + 1 {
      SpanTextsOpen(lines, marks, i, j);
      JoinCover(Join(a, " "), SpanTexts(lines, Spans(marks, j)), a, n);
    } else {
      assert a + n == n;
    }
  }

  /** the texts of the spans from a timestamp whose text runs up to `j > i + 1` */
  lemma SpanTextsOpen(lines: seq<string>, marks: seq<bool>, i: nat, j: nat)
    requires |marks| == |lines| && i < |lines| && marks[i] && j == TextEnd(marks, i + 1) && j > i + 1
    ensures SpanTexts(lines, Spans(marks, i))
         == [Join(lines[i + 1..j], " ")] + SpanTexts(lines, Spans(marks, j))
  {
    SpansOpen(marks, i, j);
    SpanTextsCons(lines, (i, j), Spans(marks, j));
  }

  /** The subtitles' texts are the texts of their spans. */
  lemma SubtitlesOfTexts(rule: EndRule, lines: seq<string>, spans: seq<(nat, nat)>)
    requires forall k :: 0 <= k < |spans| ==> spans[k].0 + 1 < spans[k].1 <= |lines| && IsStamp(lines[spans[k].0])
    ensures Texts(SubtitlesOf(rule, lines, spans)) == SpanTexts(lines, spans)
  {
    var subs := SubtitlesOf(rule, lines, spans);
    forall k | 0 <= k < |spans|
      ensures Texts(subs)[k] == SpanTexts(lines, spans)[k]
    {
      SubtitleOfText(rule, lines, spans[k].0, spans[k].1);
    }
  }

  /**
   * No text line after the first timestamp is lost or reordered: there is
   * a subtitle exactly when there is a text line, and the subtitles' texts,
   * joined by spaces, are the text lines joined by spaces.
   */
  lemma TextsCover(rule: EndRule, lines: seq<string>, i: nat)
    requires i == |lines| || (i < |lines| && IsStamp(lines[i]))
    ensures Subtitles(rule, lines, i) == [] <==> NonStamps(lines, Marks(lines), i) == []
    ensures Join(Texts(Subtitles(rule, lines, i)), " ") == Join(NonStamps(lines, Marks(lines), i), " ")
  {
    var marks := Marks(lines);
    SpansCover(lines, marks, i);
    SubtitlesOfTexts(rule, lines, Spans(marks, i));
  }

  /** There is one subtitle per timestamp that is directly followed by a text line. */
  lemma SubtitleCount(rule: EndRule, lines: seq<string>, i: nat)
    requires i <= |lines|
    ensures |Subtitles(rule, lines, i)| == Opened(Marks(lines), i)
  {
    SpanCount(Marks(lines), i);
  }

  /** a subtitle whose fields hold no line break */
  predicate OneLine(s: Subtitle) {
    !ContainsChar(s.start, '\n') && !ContainsChar(s.end, '\n') && !ContainsChar(s.text, '\n')
  }

  /** a subtitle on one line each field, whose clocks read back */
  predicate Readable(s: Subtitle) {
    OneLine(s) && ReadClock(s.start).Some? && ReadClock(s.end).Some?
  }

  lemma ClockOneLine(total: nat)
    ensures !ContainsChar(Clock(total), '\n')
  {
    ClockIsJoin(total);
    var a, b, s := Pad2(total / 3600), Pad2(total % 3600 / 60), Pad2(total % 60);
    Pad2Reads(total / 3600);
    Pad2Reads(total % 3600 / 60);
    Pad2Reads(total % 60);
    ContainsCharConcat(s, ",000", '\n');
    JoinKeepsAbsent([a, b, s + ",000"], ":", '\n');
  }

  /** The subtitle of one span has clocks that read back, and no line break when its lines have none. */
  lemma SubtitleWellFormed(rule: EndRule, lines: seq<string>, i: nat, j: nat)
    requires i + 1 < j <= |lines| && IsStamp(lines[i])
    requires j == |lines| || IsStamp(lines[j])
    requires SentenceParts.NoneContain(lines, '\n')
    ensures Readable(SubtitleOf(rule, lines, i, j))
  {
    assert SentenceParts.NoneContain(lines[i + 1..j], '\n');
    SubtitleTimes(rule, lines, i, j);
    var e := if j < |lines| then lines[j] else lines[i];
    ClockOneLine(Seconds(lines[i]).value);
    ClockOneLine(Seconds(e).value);
    ClockRoundTrip(Seconds(lines[i]).value);
    ClockRoundTrip(Seconds(e).value);
    JoinKeepsAbsent(lines[i + 1..j], " ", '\n');
  }

  /** Every subtitle has clocks that read back, and no field with a line break when no line has one. */
  lemma SubtitlesWellFormed(rule: EndRule, lines: seq<string>, i: nat)
    requires i <= |lines|
    requires SentenceParts.NoneContain(lines, '\n')
    ensures forall s :: s in Subtitles(rule, lines, i) ==> Readable(s)
  {
    var sp := Spans(Marks(lines), i);
    SubtitlesOfWellFormed(rule, lines, sp);
  }

  lemma {:induction false} SubtitlesOfWellFormed(rule: EndRule, lines: seq<string>, spans: seq<(nat, nat)>)
    requires forall k :: 0 <= k < |spans| ==> spans[k].0 + 1 < spans[k].1 <= |lines| && IsStamp(lines[spans[k].0])
    requires forall k :: 0 <= k < |spans| ==> spans[k].1 == |lines| || IsStamp(lines[spans[k].1])
    requires SentenceParts.NoneContain(lines, '\n')
    ensures forall s :: s in SubtitlesOf(rule, lines, spans) ==> Readable(s)
    decreases |spans|
  {
    if spans != [] {
      SubtitleWellFormed(rule, lines, spans[0].0, spans[0].1);
      SubtitlesOfWellFormed(rule, lines, spans[1..]);
    }
  }

  /** The lines of a file hold no line break. */
  lemma FileLinesOneLine(content: string)
    ensures SentenceParts.NoneContain(FileLines(content), '\n')
  {
    SentenceParts.KeptKeepsAbsent(SplitOn(UniversalNewlines(content), '\n'), '\n');
  }
}
