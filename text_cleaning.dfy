/**
 * The text-cleaning plugin and the older stand-alone cleaner it replaced.
 * Both run the same fixed sequence of rewrites: the byte-order mark, line
 * endings, the punctuation and full-width digit tables, ellipses and
 * repeated marks, the whitespace block (special blanks, spaces between Han
 * and Latin letters and after marks, blanks inside parentheses, trailing
 * blanks, runs of blanks), sentence breaks and blank lines. The plugin can
 * switch most steps off; the old cleaner always runs all of them and also
 * returns a statistics counter.
 */
module TextCleaning {
  import opened PyText
  import opened Scan
  import opened Values
  import opened Wrappers
  import PluginBase
  import TN = TextNormalizer

  // ------------------------------------------------------------------
  // The tables

  /**
   * The key that the two lines written with triple quotes evaluate to: the
   * first `"""` opens a string that the second one closes, so the key is
   * everything in between, comment and line break included.
   */
  const OddKey: string :=
    ": \"'\",   # \U{4e2d}\U{6587}\U{5355}\U{5f15}\U{53f7}\U{8f6c}\U{82f1}\U{6587}\U{5355}\U{5f15}\U{53f7}\n            "

  /**
   * The punctuation map in the order the dictionary literal builds it: the
   * two entries written with straight double quotes collapse into one
   * identity entry, and the odd key keeps the eighth place.
   */
  const CleaningTable: seq<TN.Rule> := [
    TN.Entry("\U{ff1a}", ":"), TN.Entry("\U{ff1b}", ";"), TN.Entry("\U{ff0c}", ","), TN.Entry("\U{3002}", "."),
    TN.Entry("\U{ff01}", "!"), TN.Entry("\U{ff1f}", "?"), TN.Entry("\"", "\""), TN.Entry(OddKey, "'"),
    TN.Entry("\U{3010}", "["), TN.Entry("\U{3011}", "]"), TN.Entry("\U{ff08}", "("), TN.Entry("\U{ff09}", ")"),
    TN.Entry("\U{300a}", "<"), TN.Entry("\U{300b}", ">"), TN.Entry("\U{3008}", "<"), TN.Entry("\U{3009}", ">"),
    TN.Entry("\U{300c}", "\""), TN.Entry("\U{300d}", "\""), TN.Entry("\U{300e}", "'"), TN.Entry("\U{300f}", "'"),
    TN.Entry("\U{3001}", ",")]

  /** `for old, new in table.items(): text = text.replace(old, new)`, without a membership test */
  function ReplaceEach(s: string, t: seq<TN.Rule>): string {
    if t == [] then s else ReplaceAll(ReplaceEach(s, t[..|t| - 1]), t[|t| - 1].key, t[|t| - 1].value)
  }

  /** The unguarded loop computes what the normalizer's guarded loop computes. */
  lemma {:induction false} ReplaceEachIsApply(s: string, t: seq<TN.Rule>)
    ensures ReplaceEach(s, t) == TN.ApplyTable(s, t)
  {
    if t != [] {
      ReplaceEachIsApply(s, t[..|t| - 1]);
      var u := ReplaceEach(s, t[..|t| - 1]);
      if !Contains(u, t[|t| - 1].key) {
        ReplaceAllAbsent(u, t[|t| - 1].key, t[|t| - 1].value);
      }
    }
  }

  /** Running two tables one after the other is running their concatenation. */
  lemma {:induction false} ReplaceEachSplit(s: string, a: seq<TN.Rule>, b: seq<TN.Rule>)
    ensures ReplaceEach(s, a + b) == ReplaceEach(ReplaceEach(s, a), b)
  {
    if b == [] {
      assert a + b == a;
    } else {
      ReplaceEachSplit(s, a, b[..|b| - 1]);
      assert (a + b)[..|a + b| - 1] == a + b[..|b| - 1];
      assert (a + b)[|a + b| - 1] == b[|b| - 1];
    }
  }

  /** every key as long as its value */
  predicate OneForOne(t: seq<TN.Rule>) {
    forall j :: 0 <= j < |t| ==> |t[j].key| == |t[j].value|
  }

  /** A table of one-for-one entries never changes the length. */
  lemma {:induction false} OneForOneLength(s: string, t: seq<TN.Rule>)
    requires OneForOne(t)
    ensures |ReplaceEach(s, t)| == |s|
  {
    if t != [] {
      assert OneForOne(t[..|t| - 1]);
      OneForOneLength(s, t[..|t| - 1]);
      ReplaceAllLength(ReplaceEach(s, t[..|t| - 1]), t[|t| - 1].key, t[|t| - 1].value);
    }
  }

  lemma CleaningTableShape()
    ensures OneForOne(CleaningTable[..7]) && OneForOne(CleaningTable[8..])
    ensures CleaningTable[7] == TN.Entry(OddKey, "'") && |OddKey| == 35
    ensures TN.PlainValues(CleaningTable)
  {
    CleaningValuesPlain();
  }

  lemma CleaningValuesPlain()
    ensures TN.PlainValues(CleaningTable)
  {
    forall j | 0 <= j < |CleaningTable| ensures TN.Plain(CleaningTable[j].value) {
      assert |CleaningTable[j].value| == 1;
    }
  }

  /**
   * The punctuation table shortens the text by 34 characters for each odd
   * key it meets after the first seven entries, and by nothing else.
   */
  lemma CleaningTableDrop(s: string)
    ensures |ReplaceEach(s, CleaningTable)| + 34 * CountOcc(ReplaceEach(s, CleaningTable[..7]), OddKey) == |s|
  {
    CleaningTableShape();
    var t := CleaningTable;
    assert t == t[..7] + [t[7]] + t[8..];
    OneChangingEntry(s, t[..7], t[7], t[8..]);
  }

  /** Between one-for-one entries, an entry with a one-character value shortens by its key's excess per match. */
  lemma OneChangingEntry(s: string, a: seq<TN.Rule>, e: TN.Rule, b: seq<TN.Rule>)
    requires OneForOne(a) && OneForOne(b) && |e.value| == 1
    ensures |ReplaceEach(s, a + [e] + b)| + (|e.key| - 1) * CountOcc(ReplaceEach(s, a), e.key) == |s|
  {
    var u := ReplaceEach(s, a);
    var v := ReplaceAll(u, e.key, e.value);
    ReplaceEachSnoc(s, a, e);
    ReplaceEachSplit(s, a + [e], b);
    OneForOneLength(s, a);
    OneEntryLength(u, e);
    OneForOneLength(v, b);
  }

  lemma ReplaceEachSnoc(s: string, a: seq<TN.Rule>, e: TN.Rule)
    ensures ReplaceEach(s, a + [e]) == ReplaceAll(ReplaceEach(s, a), e.key, e.value)
  {
    assert (a + [e])[..|a + [e]| - 1] == a;
  }

  lemma OneEntryLength(u: string, e: TN.Rule)
    requires |e.value| == 1
    ensures |ReplaceAll(u, e.key, e.value)| + (|e.key| - 1) * CountOcc(u, e.key) == |u|
  {
    ReplaceAllLength(u, e.key, e.value);
  }

  /** one `for old, new in table.items()` loop */
  method ReplaceTable(s: string, table: seq<TN.Rule>) returns (r: string)
    ensures r == ReplaceEach(s, table)
  {
    r := s;
    var i := 0;
    while i < |table|
      invariant 0 <= i <= |table|
      invariant r == ReplaceEach(s, table[..i])
    {
      assert table[..i + 1][..i] == table[..i];
      r := ReplaceAll(r, table[i].key, table[i].value);
      i := i + 1;
    }
    assert table[..i] == table;
  }

  // ------------------------------------------------------------------
  // The settings

  /** the plugin's switches, each read with `config.get(key, True)` and tested for truth */
  datatype Settings = Settings(enabled: bool, punctuation: bool, numbers: bool, whitespace: bool,
                               emptyLines: bool, punctSpaces: bool, bom: bool)

  /** every step on: what the old cleaner always runs */
  const AllOn := Settings(true, true, true, true, true, true, true)

  predicate Flag(config: Dict, key: string) {
    Truthy(Get(config, key, VBool(true)))
  }

  /** the seven switches of `config_schema`, each optional and typed `bool` */
  const FieldTypes: seq<(string, PyType)> :=
    [("enabled", TBool), ("normalize_punctuation", TBool), ("normalize_numbers", TBool),
     ("normalize_whitespace", TBool), ("clean_empty_lines", TBool), ("add_spaces_around_punctuation", TBool),
     ("remove_bom", TBool)]

  const Schema := PluginBase.Schema([], set p | p in FieldTypes :: p.0, FieldTypes, [], map[])

  /**
   * The constructor: the base class refuses a configuration with a field
   * outside the schema or a switch that is not a `bool`; otherwise a switch
   * is on when its key is missing and follows the value's truth otherwise.
   */
  function SettingsOf(config: Dict): (r: Result<Settings>)
    ensures r.Success? <==> PluginBase.Validate(Schema, config).None?
    ensures r.Success? ==> var st := r.value;
      && (st.enabled <==> "enabled" !in config || Truthy(config["enabled"]))
      && (st.punctuation <==> "normalize_punctuation" !in config || Truthy(config["normalize_punctuation"]))
      && (st.numbers <==> "normalize_numbers" !in config || Truthy(config["normalize_numbers"]))
      && (st.whitespace <==> "normalize_whitespace" !in config || Truthy(config["normalize_whitespace"]))
      && (st.emptyLines <==> "clean_empty_lines" !in config || Truthy(config["clean_empty_lines"]))
      && (st.punctSpaces <==>
          ("add_spaces_around_punctuation" !in config || Truthy(config["add_spaces_around_punctuation"])))
      && (st.bom <==> "remove_bom" !in config || Truthy(config["remove_bom"]))
  {
    if PluginBase.Validate(Schema, config).Some? then Failure("Configuration validation failed")
    else
      Success(Settings(Flag(config, "enabled"), Flag(config, "normalize_punctuation"), Flag(config, "normalize_numbers"),
        Flag(config, "normalize_whitespace"), Flag(config, "clean_empty_lines"),
        Flag(config, "add_spaces_around_punctuation"), Flag(config, "remove_bom")))
  }

  /** The empty configuration builds the plugin with every step on. */
  lemma DefaultSettings()
    ensures SettingsOf(map[]) == Success(AllOn)
  {
    PluginBase.ValidateIff(Schema, map[]);
  }

  /** A field the schema does not name makes the constructor fail. */
  lemma UnknownFieldRejected(config: Dict, f: string)
    requires f in config && f !in Schema.optional
    ensures SettingsOf(config).Failure?
  {
    PluginBase.UnknownReported(Schema, config, f);
  }

  /** A present switch that is not a `bool`, such as `"enabled": 0`, makes the constructor fail. */
  lemma NonBoolSwitchRejected(config: Dict, k: nat)
    requires k < |FieldTypes| && FieldTypes[k].0 in config && !config[FieldTypes[k].0].VBool?
    ensures SettingsOf(config).Failure?
  {
    var m := PluginBase.MissingErrors(Schema.required, config);
    var t := PluginBase.TypeErrors(FieldTypes, config);
    var v := PluginBase.ValidatorErrors(Schema.validators, config);
    PluginBase.TypeErrorsEmpty(FieldTypes, config);
    assert !IsInstance(config[FieldTypes[k].0], FieldTypes[k].1);
    assert |PluginBase.ErrorsOf(Schema, config)| == |m| + |t| + |v|;
  }

  // ------------------------------------------------------------------
  // The steps

  /** step 1: one leading byte-order mark, when enabled */
  function Debommed(text: string, removeBom: bool): string {
    if removeBom then TN.Unmarked(text) else text
  }

  /** Exactly one mark goes: a second one stays in front. */
  lemma OneBomRemoved(text: string)
    ensures |Debommed(text, true)| + (if StartsWith(text, [TN.Bom]) then 1 else 0) == |text|
    ensures Debommed(text, true) == text[|text| - |Debommed(text, true)|..]
    ensures StartsWith(text, [TN.Bom, TN.Bom]) ==> StartsWith(Debommed(text, true), [TN.Bom])
    ensures Debommed(text, false) == text
  {
    if StartsWith(text, [TN.Bom, TN.Bom]) {
      assert text[1..][..1] == [text[1]];
    }
  }

  /** steps 1 to 4: the mark, line endings and the two tables */
  function Tabled(text: string, st: Settings): string {
    var u := TN.Unixed(Debommed(text, st.bom));
    var p := if st.punctuation then ReplaceEach(u, CleaningTable) else u;
    if st.numbers then ReplaceEach(p, TN.NumberTable) else p
  }

  /** `_clean_line_endings`: split into lines, strip each on the right, join with "\n" */
  function CleanLineEndings(s: string): string {
    Join(RStripped(SplitLines(s)), "\n")
  }

  function RStripped(lines: seq<string>): seq<string> {
    if lines == [] then [] else [RStrip(lines[0])] + RStripped(lines[1..])
  }

  /** `_normalize_spaces`: `re.sub(" +", " ", text)` */
  function NormalizeSpaces(s: string): string {
    RunSub(s, Blank, 1, Fixed(" "))
  }

  /** `_clean_empty_lines`: `re.sub(r"\n\s*\n", "\n\n", text).strip()` */
  function CleanEmptyLines(s: string): string {
    Strip(BlankLines(s))
  }

  /** step 7, the whitespace block */
  function Spaced(s: string, punctSpaces: bool): string {
    var m := MapClass(s, Listed, ' ');
    var g := InsertGaps(InsertGaps(m, HanLatin), LatinHan);
    var p := if punctSpaces then InsertGaps(g, PunctHan) else g;
    NormalizeSpaces(CleanLineEndings(CloseParens(OpenParens(p))))
  }

  /** steps 5 to 9 */
  function Tidied(t: string, st: Settings): string {
    var m := Marks(t);
    var w := if st.whitespace then Spaced(m, st.punctSpaces) else m;
    var b := SentenceBreaks(w);
    if st.emptyLines then CleanEmptyLines(b) else b
  }

  /** all nine steps */
  function Cleaned(text: string, st: Settings): string {
    Tidied(Tabled(text, st), st)
  }

  /** `_process_single_text`: anything but a non-empty string is returned as it is */
  function CleanSingle(v: Value, st: Settings): (r: Value)
    ensures !(v.VStr? && v.s != "") ==> r == v
    ensures v.VStr? && v.s != "" ==> r == VStr(Cleaned(v.s, st))
  {
    if v.VStr? && v.s != "" then VStr(Cleaned(v.s, st)) else v
  }

  /** `process`: a disabled plugin returns its input, a list is cleaned item by item */
  function ProcessValue(st: Settings, v: Value): (r: Value)
    ensures !st.enabled ==> r == v
    ensures st.enabled && v.VList? ==>
      r.VList? && |r.items| == |v.items| && forall i :: 0 <= i < |v.items| ==> r.items[i] == CleanSingle(v.items[i], st)
    ensures v == VNone || v == VStr("") ==> r == v
  {
    if !st.enabled then v
    else if v.VList? then VList(seq(|v.items|, i requires 0 <= i < |v.items| => CleanSingle(v.items[i], st)))
    else CleanSingle(v, st)
  }

  // ------------------------------------------------------------------
  // What the steps promise

  /** After `_normalize_spaces` no two blanks stand together, and running it again changes nothing. */
  lemma NormalizeSpacesFacts(s: string)
    ensures NoRun(NormalizeSpaces(s), Blank, 2)
    ensures NormalizeSpaces(NormalizeSpaces(s)) == NormalizeSpaces(s)
  {
    RunSubNoRun(s, Blank, 1, Fixed(" "), 2);
    SquashFixed(NormalizeSpaces(s));
  }

  lemma RStripFixed(s: string)
    ensures RStrip(RStrip(s)) == RStrip(s)
  {
  }

  /** The stripped lines are free of line breaks and end in no whitespace. */
  lemma {:induction false} RStrippedFacts(lines: seq<string>)
    requires forall j, i :: 0 <= j < |lines| && 0 <= i < |lines[j]| ==> !IsLineBoundary(lines[j][i])
    ensures |RStripped(lines)| == |lines|
    ensures forall j :: 0 <= j < |lines| ==> !ContainsChar(RStripped(lines)[j], '\n')
    ensures forall j :: 0 <= j < |lines| ==> RStrip(RStripped(lines)[j]) == RStripped(lines)[j]
  {
    if lines != [] {
      RStrippedFacts(lines[1..]);
      var r := RStrip(lines[0]);
      RStripFixed(lines[0]);
      assert forall i :: 0 <= i < |r| ==> r[i] == lines[0][i];
      assert RStripped(lines) == [r] + RStripped(lines[1..]);
    }
  }

  /** Every line of `_clean_line_endings`' result ends in no whitespace. */
  lemma CleanLineEndingsFacts(s: string)
    ensures forall line :: line in SplitOn(CleanLineEndings(s), '\n') ==> RStrip(line) == line
  {
    var parts := RStripped(SplitLines(s));
    RStrippedFacts(SplitLines(s));
    if parts == [] {
      assert CleanLineEndings(s) == "";
    } else {
      SplitOnJoin(parts, '\n');
    }
  }

  lemma {:induction false} RStrippedKeepsAbsent(lines: seq<string>, c: char)
    requires forall j :: 0 <= j < |lines| ==> !ContainsChar(lines[j], c)
    ensures forall j :: 0 <= j < |RStripped(lines)| ==> !ContainsChar(RStripped(lines)[j], c)
  {
    if lines != [] {
      RStrippedKeepsAbsent(lines[1..], c);
      SliceKeepsAbsent(lines[0], 0, |RStrip(lines[0])|, c);
      assert RStripped(lines) == [RStrip(lines[0])] + RStripped(lines[1..]);
    }
  }

  /** `_clean_line_endings` creates no character but '\n'. */
  lemma CleanLineEndingsKeepsAbsent(s: string, c: char)
    requires c != '\n' && !ContainsChar(s, c)
    ensures !ContainsChar(CleanLineEndings(s), c)
  {
    SplitLinesKeepsAbsent(s, c);
    RStrippedKeepsAbsent(SplitLines(s), c);
    JoinKeepsAbsent(RStripped(SplitLines(s)), "\n", c);
  }

  /** The whitespace block creates no character but ' ' and '\n'. */
  lemma SpacedKeepsAbsent(s: string, punctSpaces: bool, c: char)
    requires c != ' ' && c != '\n' && !ContainsChar(s, c)
    ensures !ContainsChar(Spaced(s, punctSpaces), c)
  {
    var m := MapClass(s, Listed, ' ');
    MapClassKeepsAbsent(s, Listed, ' ', c);
    InsertGapsKeepsAbsent(m, HanLatin, c);
    var g := InsertGaps(InsertGaps(m, HanLatin), LatinHan);
    InsertGapsKeepsAbsent(InsertGaps(m, HanLatin), LatinHan, c);
    var p := if punctSpaces then InsertGaps(g, PunctHan) else g;
    if punctSpaces {
      InsertGapsKeepsAbsent(g, PunctHan, c);
    }
    OpenParensKeepsAbsent(p, c);
    CloseParensKeepsAbsent(OpenParens(p), c);
    CleanLineEndingsKeepsAbsent(CloseParens(OpenParens(p)), c);
    RunSubKeepsAbsent(CleanLineEndings(CloseParens(OpenParens(p))), Blank, 1, Fixed(" "), c);
  }

  /** Steps 5 to 9 create no character but '.', ' ' and '\n'. */
  lemma TidiedKeepsAbsent(t: string, st: Settings, c: char)
    requires c != '.' && c != ' ' && c != '\n' && !ContainsChar(t, c)
    ensures !ContainsChar(Tidied(t, st), c)
  {
    var m := Marks(t);
    MarksKeepsAbsent(t, c);
    var w := if st.whitespace then Spaced(m, st.punctSpaces) else m;
    if st.whitespace {
      SpacedKeepsAbsent(m, st.punctSpaces, c);
    }
    SentenceBreaksKeepsAbsent(w, c);
    if st.emptyLines {
      BlankLinesKeepsAbsent(SentenceBreaks(w), c);
      StripKeepsAbsent(BlankLines(SentenceBreaks(w)), c);
    }
  }

  /** Steps 1 to 4 leave no '\r', and no full-width digit when the digit table runs. */
  lemma TabledFacts(text: string, st: Settings)
    ensures !ContainsChar(Tabled(text, st), '\r')
    ensures st.numbers ==> TN.NoFullWidth(Tabled(text, st))
  {
    var d := Debommed(text, st.bom);
    var u := TN.Unixed(d);
    ReplaceCharRemoves(ReplaceAll(d, "\r\n", "\n"), '\r', "\n");
    assert !ContainsChar(u, '\r');
    var p := if st.punctuation then ReplaceEach(u, CleaningTable) else u;
    if st.punctuation {
      CleaningTableShape();
      ReplaceEachIsApply(u, CleaningTable);
      TN.ApplyTableKeepsAbsent(u, CleaningTable, '\r');
    }
    if st.numbers {
      ReplaceEachIsApply(p, TN.NumberTable);
      assert TN.PlainValues(TN.NumberTable);
      TN.ApplyTableKeepsAbsent(p, TN.NumberTable, '\r');
      TN.NumberTableCounts(p);
    }
  }

  /** After `_clean_empty_lines` the text is stripped and no two blank lines follow each other. */
  lemma CleanEmptyLinesFacts(s: string)
    ensures Strip(CleanEmptyLines(s)) == CleanEmptyLines(s)
    ensures AllOneBlank(CleanEmptyLines(s))
  {
    StripIdempotent(BlankLines(s));
    BlankLinesCollapse(s);
    StripKeepsOneBlank(BlankLines(s));
  }

  /** Cutting a string shorter leaves fewer line breaks in its leading whitespace. */
  lemma PrefixNoBreak(t: string, m: nat)
    requires m <= |t| && !HasBreak(t, RunLen(t, White))
    ensures !HasBreak(t[..m], RunLen(t[..m], White))
  {
    var n := RunLen(t[..m], White);
    assert forall i :: 0 <= i < n ==> t[..m][i] == t[i];
    assert n <= RunLen(t, White);
  }

  lemma SliceNoBreak(o: string, j: nat, b: nat)
    requires j <= b <= |o| && !HasBreak(o[j..], RunLen(o[j..], White))
    ensures !HasBreak(o[j..b], RunLen(o[j..b], White))
  {
    assert o[j..b] == o[j..][..b - j];
    PrefixNoBreak(o[j..], b - j);
  }

  /** A position of a slice keeps the blank-line property it had in the whole string. */
  lemma SliceOneBlankAt(o: string, a: nat, b: nat, i: nat)
    requires a <= b <= |o| && i < b - a && OneBlankAt(o, a + i)
    ensures OneBlankAt(o[a..b], i)
  {
    var j := a + i;
    assert o[a..b][i] == o[j];
    if o[j] == '\n' {
      if !HasBreak(o[j + 1..], RunLen(o[j + 1..], White)) {
        QuietSlice(o, a, b, j + 1);
      } else if j + 1 < b {
        QuietSlice(o, a, b, j + 2);
      }
    }
  }

  /** No line break in the leading whitespace from k on survives as none in a slice. */
  lemma QuietSlice(o: string, a: nat, b: nat, k: nat)
    requires a <= k <= b <= |o| && !HasBreak(o[k..], RunLen(o[k..], White))
    ensures !HasBreak(o[a..b][k - a..], RunLen(o[a..b][k - a..], White))
  {
    SliceNoBreak(o, k, b);
    SliceTail(o, a, b, k - a);
  }

  lemma SliceTail(o: string, a: nat, b: nat, i: nat)
    requires a <= b <= |o| && i <= b - a
    ensures o[a..b][i..] == o[a + i..b]
  {
  }

  /** Every slice of a string without repeated blank lines has none either. */
  lemma SliceKeepsOneBlank(o: string, a: nat, b: nat)
    requires a <= b <= |o| && AllOneBlank(o)
    ensures AllOneBlank(o[a..b])
  {
    forall i | 0 <= i < b - a ensures OneBlankAt(o[a..b], i) {
      assert OneBlankAt(o, a + i);
      SliceOneBlankAt(o, a, b, i);
    }
  }

  lemma StripKeepsOneBlank(o: string)
    requires AllOneBlank(o)
    ensures AllOneBlank(Strip(o))
  {
    StripIsSlice(o);
    var a, b :| 0 <= a <= b <= |o| && Strip(o) == o[a..b];
    SliceKeepsOneBlank(o, a, b);
  }

  /**
   * Whatever the switches, the cleaned text holds no '\r'; with the digit
   * table on it holds no full-width digit; with blank-line cleaning on it is
   * stripped and has no two blank lines in a row.
   */
  lemma CleanedFacts(text: string, st: Settings)
    ensures !ContainsChar(Cleaned(text, st), '\r')
    ensures st.numbers ==> TN.NoFullWidth(Cleaned(text, st))
    ensures st.emptyLines ==> Strip(Cleaned(text, st)) == Cleaned(text, st) && AllOneBlank(Cleaned(text, st))
  {
    var t := Tabled(text, st);
    var r := Cleaned(text, st);
    TabledFacts(text, st);
    TidiedKeepsAbsent(t, st, '\r');
    if st.numbers {
      forall k | 0 <= k < |r| ensures !TN.IsFullWidthDigit(r[k]) {
        if TN.IsFullWidthDigit(r[k]) {
          assert !ContainsChar(t, r[k]);
          TidiedKeepsAbsent(t, st, r[k]);
          assert ContainsChar(r, r[k]);
        }
      }
    }
    if st.emptyLines {
      var m := Marks(t);
      var w := if st.whitespace then Spaced(m, st.punctSpaces) else m;
      CleanEmptyLinesFacts(SentenceBreaks(w));
    }
  }

  // ------------------------------------------------------------------
  // The plugin

  class TextCleaningPlugin {
    const settings: Settings

    /** `__init__`, for a configuration the base class accepts */
    constructor(config: Dict)
      requires SettingsOf(config).Success?
      ensures settings == SettingsOf(config).value
    {
      settings := SettingsOf(config).value;
    }

    /** `_process_single_text` */
    method ProcessSingleText(v: Value) returns (r: Value)
      ensures r == CleanSingle(v, settings)
    {
      if !(v.VStr? && v.s != "") {
        return v;
      }
      var text := v.s;
      if settings.bom && StartsWith(text, [TN.Bom]) {
        text := text[1..];
      }
      text := ReplaceAll(ReplaceAll(text, "\r\n", "\n"), "\r", "\n");
      if settings.punctuation {
        text := ReplaceTable(text, CleaningTable);
      }
      if settings.numbers {
        text := ReplaceTable(text, TN.NumberTable);
      }
      assert text == Tabled(v.s, settings);
      ghost var tabled := text;
      text := Ellipses(text);
      text := RunSub(text, Bang, 2, LastOf);
      text := RunSub(text, Dot, 4, Fixed("..."));
      if settings.whitespace {
        text := MapClass(text, Listed, ' ');
        text := InsertGaps(text, HanLatin);
        text := InsertGaps(text, LatinHan);
        if settings.punctSpaces {
          text := InsertGaps(text, PunctHan);
        }
        text := OpenParens(text);
        text := CloseParens(text);
        text := CleanLineEndings(text);
        text := NormalizeSpaces(text);
      }
      text := SentenceBreaks(text);
      if settings.emptyLines {
        text := CleanEmptyLines(text);
      }
      assert text == Tidied(tabled, settings);
      r := VStr(text);
    }

    /** `process` */
    method Process(v: Value) returns (r: Value)
      ensures r == ProcessValue(settings, v)
    {
      if !settings.enabled {
        return v;
      }
      if v.VList? {
        var out: seq<Value> := [];
        var i := 0;
        while i < |v.items|
          invariant 0 <= i <= |v.items|
          invariant |out| == i
          invariant forall k :: 0 <= k < i ==> out[k] == CleanSingle(v.items[k], settings)
        {
          var item := ProcessSingleText(v.items[i]);
          out := out + [item];
          i := i + 1;
        }
        r := VList(out);
      } else {
        r := ProcessSingleText(v);
      }
    }
  }

  // ------------------------------------------------------------------
  // The old cleaner

  /** the counter keys the old cleaner always sets */
  const CleanerKeys: set<string> := {"newlines", "punctuation", "numbers", "spaces", "empty_lines"}

  /** the counter the old cleaner returns: `special_chars` only when a mark was removed */
  function CleanerStats(bomRemoved: bool, newlines: int, punct: int, numbers: int, spaces: int,
                        emptyLines: int): (m: map<string, int>)
    ensures m.Keys == CleanerKeys + (if bomRemoved then {"special_chars"} else {})
    ensures bomRemoved ==> m["special_chars"] == 1
    ensures m["newlines"] == newlines && m["punctuation"] == punct && m["numbers"] == numbers
    ensures m["spaces"] == spaces && m["empty_lines"] == emptyLines
  {
    var base := map["newlines" := newlines, "punctuation" := punct, "numbers" := numbers, "spaces" := spaces,
      "empty_lines" := emptyLines];
    if bomRemoved then base["special_chars" := 1] else base
  }

  /** how often the odd key occurs once the first seven punctuation entries have run */
  function OddKeyCount(u: string): nat {
    CountOcc(ReplaceEach(u, CleaningTable[..7]), OddKey)
  }

  /** Unifying line endings shortens the text by one for each "\r\n". */
  lemma UnixedLength(t: string)
    ensures |TN.Unixed(t)| + CountOcc(t, "\r\n") == |t|
  {
    ReplaceAllLength(t, "\r\n", "\n");
    ReplaceAllLength(ReplaceAll(t, "\r\n", "\n"), "\r", "\n");
  }

  /**
   * `TextCleaner.process`: every step of the plugin with every switch on,
   * and a counter whose entries are length differences. The line-ending
   * entry counts the "\r\n" pairs, the punctuation entry 34 per odd key, the
   * digit entry is always 0 because each digit is replaced one for one, and
   * the `spaces` entry, taken after the one-for-one blank map, counts the
   * mark, the punctuation drop and the characters the ellipsis and repeated
   * mark steps removed.
   */
  method TextCleanerProcess(text: string) returns (r: string, stats: map<string, int>)
    ensures r == Cleaned(text, AllOn)
    ensures stats.Keys == CleanerKeys + (if StartsWith(text, [TN.Bom]) then {"special_chars"} else {})
    ensures StartsWith(text, [TN.Bom]) ==> stats["special_chars"] == 1
    ensures stats["newlines"] == CountOcc(TN.Unmarked(text), "\r\n")
    ensures stats["punctuation"] == 34 * OddKeyCount(TN.Unixed(TN.Unmarked(text)))
    ensures stats["numbers"] == 0
    ensures stats["spaces"] == (if StartsWith(text, [TN.Bom]) then 1 else 0)
      + 34 * OddKeyCount(TN.Unixed(TN.Unmarked(text)))
      + (|Tabled(text, AllOn)| - |Marks(Tabled(text, AllOn))|)
    ensures stats["empty_lines"] ==
      CountOcc(SentenceBreaks(Spaced(Marks(Tabled(text, AllOn)), true)), "\n\n") - CountOcc(r, "\n\n")
  {
    var originalLen := |text|;
    var t := text;
    var bomRemoved := false;
    if StartsWith(t, [TN.Bom]) {
      t := t[1..];
      bomRemoved := true;
    }
    ghost var unmarked := t;

    var originalNewlines := |t|;
    t := ReplaceAll(ReplaceAll(t, "\r\n", "\n"), "\r", "\n");
    var newlines := originalNewlines - |t|;
    assert unmarked == TN.Unmarked(text) && t == TN.Unixed(unmarked);
    assert newlines == CountOcc(unmarked, "\r\n") by {
      UnixedLength(unmarked);
    }
    ghost var unixed := t;

    var originalPunct := |t|;
    t := ReplaceTable(t, CleaningTable);
    var punct := originalPunct - |t|;
    assert punct == 34 * OddKeyCount(unixed) by {
      CleaningTableDrop(unixed);
    }
    ghost var punctuated := t;

    var originalNumbers := |t|;
    t := ReplaceTable(t, TN.NumberTable);
    var numbers := originalNumbers - |t|;
    assert numbers == 0 by {
      assert OneForOne(TN.NumberTable);
      OneForOneLength(punctuated, TN.NumberTable);
    }
    assert t == Tabled(text, AllOn);
    ghost var tabled := t;

    t := Ellipses(t);
    t := RunSub(t, Bang, 2, LastOf);
    t := RunSub(t, Dot, 4, Fixed("..."));
    assert t == Marks(tabled);
    t := MapClass(t, Listed, ' ');
    var spaces := originalLen - |t| - newlines;

    t := InsertGaps(t, HanLatin);
    t := InsertGaps(t, LatinHan);
    t := InsertGaps(t, PunctHan);
    t := OpenParens(t);
    t := CloseParens(t);
    t := CleanLineEndings(t);
    t := NormalizeSpaces(t);
    t := SentenceBreaks(t);
    assert t == SentenceBreaks(Spaced(Marks(tabled), true));

    var originalEmptyLines := CountOcc(t, "\n\n");
    t := CleanEmptyLines(t);
    var emptyLines := originalEmptyLines - CountOcc(t, "\n\n");

    r := t;
    stats := CleanerStats(bomRemoved, newlines, punct, numbers, spaces, emptyLines);
  }

  lemma {:induction false} ReplaceEachEmpty(t: seq<TN.Rule>)
    requires forall j :: 0 <= j < |t| ==> |t[j].key| > 0
    ensures ReplaceEach("", t) == ""
  {
    if t != [] {
      ReplaceEachEmpty(t[..|t| - 1]);
      ReplaceAllAbsent("", t[|t| - 1].key, t[|t| - 1].value);
    }
  }

  /** The old cleaner's text is the plugin's with every switch on, the empty string included. */
  lemma CleanerMatchesPlugin(text: string)
    ensures CleanSingle(VStr(text), AllOn) == VStr(Cleaned(text, AllOn))
  {
    if text == "" {
      ReplaceEachEmpty(CleaningTable);
      ReplaceEachEmpty(TN.NumberTable);
      assert Tabled(text, AllOn) == "";
      assert Marks("") == "";
      assert SplitLines("") == [];
      assert Spaced("", true) == "";
      assert Cleaned(text, AllOn) == "";
    }
  }
}
