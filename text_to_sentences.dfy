/**
 * The text-to-sentences plugin: it splits a text at every run of ending
 * characters followed by whitespace, glues the pieces back together where
 * the text before the mark ends in an abbreviation, and puts one stripped
 * sentence on each line.
 */
module TextToSentences {
  import opened Wrappers
  import opened Values
  import opened PyText
  import opened SentenceParts
  import Scan
  import PluginBase
  import Seqs

  // ------------------------------------------------------------------
  // Configuration

  /** the plugin's settings once its configuration has been read */
  datatype Settings = Settings(
    enabled: bool,
    ends: set<char>,              // the characters of the ending-mark class
    patterns: seq<Value>,         // `abbreviation_patterns` as configured, strings or not
    normalize: bool,
    removeEmpty: bool,
    filterEllipsis: bool)

  /** the six fields the schema lists, each with its type */
  const FieldTypes: seq<(string, PyType)> := [
    ("enabled", TBool), ("sentence_endings", TList), ("abbreviation_patterns", TList),
    ("normalize_whitespace", TBool), ("remove_empty_sentences", TBool), ("filter_ellipsis_only", TBool)]

  const Schema := PluginBase.Schema([], set p | p in FieldTypes :: p.0, FieldTypes, [], map[])

  const DefaultEndings: seq<string> := [".", "!", "?"]
  const DefaultAbbreviations: seq<string> := ["Mr.", "Mrs.", "Dr.", "Prof.", "Inc.", "Ltd.", "Co.", "Corp."]
  const DefaultPatterns: seq<Value> := [
    VStr("Mr."), VStr("Mrs."), VStr("Dr."), VStr("Prof."), VStr("Inc."), VStr("Ltd."), VStr("Co."), VStr("Corp.")]

  /** the message `str.endswith` raises for a pattern that is not a string */
  const EndswithTypeError := "endswith first arg must be str or a tuple of str"

  /** the patterns `_is_abbreviation` can compare before it meets one that is not a string */
  function LeadingStrings(items: seq<Value>): (r: seq<string>)
    ensures |r| <= |items|
    ensures forall i :: 0 <= i < |r| ==> items[i] == VStr(r[i])
    ensures |r| < |items| ==> !items[|r|].VStr?
  {
    if items == [] || !items[0].VStr? then [] else [items[0].s] + LeadingStrings(items[1..])
  }

  /** the abbreviation patterns of the settings that are strings, up to the first one that is not */
  function Listed(st: Settings): seq<string> {
    LeadingStrings(st.patterns)
  }

  /** `abbreviation_patterns` as `self.config.get` returns it */
  function PatternItems(config: Dict): seq<Value> {
    if "abbreviation_patterns" in config && config["abbreviation_patterns"].VList? then config["abbreviation_patterns"].items
    else DefaultPatterns
  }

  /** the characters of the given ending strings: the class `re.escape` and `[...]` build */
  function EndChars(endings: seq<string>): (cs: set<char>)
    ensures forall j, i :: 0 <= j < |endings| && 0 <= i < |endings[j]| ==> endings[j][i] in cs
    ensures forall c :: c in cs ==> exists j, i :: 0 <= j < |endings| && 0 <= i < |endings[j]| && endings[j][i] == c
  {
    set j, i | 0 <= j < |endings| && 0 <= i < |endings[j]| :: endings[j][i]
  }

  /** the strings of a list whose items are all strings */
  function Strings(items: seq<Value>): (r: Option<seq<string>>)
    ensures r.Some? <==> forall i :: 0 <= i < |items| ==> items[i].VStr?
    ensures r.Some? ==> |r.value| == |items| && forall i :: 0 <= i < |items| ==> r.value[i] == items[i].s
  {
    if items == [] then Some([])
    else
      var rest := Strings(items[1..]);
      if items[0].VStr? && rest.Some? then Some([items[0].s] + rest.value)
      else
        assert !items[0].VStr? || exists i :: 1 <= i < |items| && !items[i].VStr? by {
          if items[0].VStr? {
            var i :| 0 <= i < |items[1..]| && !items[1..][i].VStr?;
            assert !items[i + 1].VStr?;
          }
        }
        None
  }

  /** `config.get(key, default)` for a list-valued field, as the list of its strings */
  function StringList(config: Dict, key: string, dflt: seq<string>): Option<seq<string>> {
    if key !in config then Some(dflt)
    else if config[key].VList? then Strings(config[key].items)
    else None
  }

  /**
   * The constructor: the base class checks the six typed fields and refuses
   * any other, then `_build_sentence_pattern` compiles the class of ending
   * characters, which fails for a non-string ending and for an empty class.
   */
  function SettingsOf(config: Dict): (r: Result<Settings>)
    ensures r.Success? <==>
      && PluginBase.Validate(Schema, config).None?
      && StringList(config, "sentence_endings", DefaultEndings).Some?
      && EndChars(StringList(config, "sentence_endings", DefaultEndings).value) != {}
    ensures r.Success? ==> r.value.ends == EndChars(StringList(config, "sentence_endings", DefaultEndings).value)
    ensures r.Success? ==> r.value.patterns == PatternItems(config)
    ensures r.Success? ==> (r.value.enabled <==> "enabled" !in config || config["enabled"] == VBool(true))
    ensures r.Success? ==> (r.value.normalize <==> "normalize_whitespace" !in config || config["normalize_whitespace"] == VBool(true))
  {
    if PluginBase.Validate(Schema, config).Some? then Failure("Configuration validation failed")
    else
      var endings := StringList(config, "sentence_endings", DefaultEndings);
      if endings.None? then Failure("first argument must be string or compiled pattern")
      else if EndChars(endings.value) == {} then Failure("unterminated character set")
      else
        ValidatedFlags(config);
        Success(Settings(
          Truthy(Get(config, "enabled", VBool(true))),
          EndChars(endings.value),
          PatternItems(config),
          Truthy(Get(config, "normalize_whitespace", VBool(true))),
          Truthy(Get(config, "remove_empty_sentences", VBool(true))),
          Truthy(Get(config, "filter_ellipsis_only", VBool(false)))))
  }

  /** In a configuration that passed the check, every flag that is present is a `bool`. */
  lemma ValidatedFlags(config: Dict)
    requires PluginBase.Validate(Schema, config).None?
    ensures "enabled" in config ==> config["enabled"].VBool?
    ensures "normalize_whitespace" in config ==> config["normalize_whitespace"].VBool?
  {
    var m := PluginBase.MissingErrors(Schema.required, config);
    var t := PluginBase.TypeErrors(FieldTypes, config);
    var v := PluginBase.ValidatorErrors(Schema.validators, config);
    assert PluginBase.ErrorsOf(Schema, config) == m + t + v;
    assert |m + t + v| == |m| + |t| + |v|;
    PluginBase.TypeErrorsEmpty(FieldTypes, config);
    assert FieldTypes[0].0 in config ==> IsInstance(config[FieldTypes[0].0], FieldTypes[0].1);
    assert FieldTypes[3].0 in config ==> IsInstance(config[FieldTypes[3].0], FieldTypes[3].1);
  }

  /** The empty configuration gives the documented defaults: `.`, `!` and `?` end a sentence. */
  lemma DefaultSettings()
    ensures SettingsOf(map[]).Success?
    ensures SettingsOf(map[]).value == Settings(true, {'.', '!', '?'}, DefaultPatterns, true, true, false)
    ensures LeadingStrings(DefaultPatterns) == DefaultAbbreviations
  {
    DefaultPatternsListed();
    assert PluginBase.Validate(Schema, map[]).None? by {
      PluginBase.ValidateIff(Schema, map[]);
    }
    DefaultEndChars();
  }

  lemma DefaultEndChars()
    ensures EndChars(DefaultEndings) == {'.', '!', '?'}
  {
    assert DefaultEndings[0][0] == '.' && DefaultEndings[1][0] == '!' && DefaultEndings[2][0] == '?';
  }

  lemma DefaultPatternsListed()
    ensures LeadingStrings(DefaultPatterns) == DefaultAbbreviations
  {
    assert forall i :: 0 <= i < |DefaultPatterns| ==> DefaultPatterns[i] == VStr(DefaultAbbreviations[i]);
    AllStringsListed(DefaultPatterns);
  }

  /** A list of strings only is listed whole. */
  lemma AllStringsListed(items: seq<Value>)
    requires forall i :: 0 <= i < |items| ==> items[i].VStr?
    ensures |LeadingStrings(items)| == |items|
    ensures forall i :: 0 <= i < |items| ==> LeadingStrings(items)[i] == items[i].s
  {
  }

  /**
   * A list of abbreviation patterns holding something other than a string
   * builds the plugin: the check only asks for a list.
   */
  lemma StrayPatternAccepted()
    ensures SettingsOf(map["abbreviation_patterns" := VList([VInt(1)])]).Success?
  {
    StrayPatternValid(map["abbreviation_patterns" := VList([VInt(1)])]);
    DefaultEndChars();
  }

  lemma StrayPatternValid(config: Dict)
    requires config == map["abbreviation_patterns" := VList([VInt(1)])]
    ensures PluginBase.Validate(Schema, config).None?
  {
    assert PluginBase.Complies(Schema, config) by {
      assert config.Keys == {FieldTypes[2].0};
      forall i | 0 <= i < |FieldTypes| && FieldTypes[i].0 in config
        ensures IsInstance(config[FieldTypes[i].0], FieldTypes[i].1)
      {
        assert i == 2;
      }
    }
    PluginBase.ValidateIff(Schema, config);
  }

  /** An empty list of endings leaves the class empty, and the pattern does not compile. */
  lemma NoEndingsRejected(config: Dict)
    requires "sentence_endings" in config && config["sentence_endings"] == VList([])
    ensures SettingsOf(config).Failure?
  {
    assert EndChars([]) == {};
  }

  // ------------------------------------------------------------------
  // The helpers

  /**
   * `_normalize_whitespace`: every line break becomes a space, each run of
   * spaces one space, and the result is stripped.
   */
  function NormalizeWs(text: string): string {
    var u := ReplaceAll(ReplaceAll(ReplaceAll(text, "\r\n", " "), "\r", " "), "\n", " ");
    Strip(Scan.RunSub(u, Scan.Blank, 1, Scan.Fixed(" ")))
  }

  /** A run of `k` characters inside a prefix is no longer than in the whole string. */
  lemma RunLenPrefix(x: string, y: string, k: Scan.Class)
    ensures Scan.RunLen(x, k) <= Scan.RunLen(x + y, k)
  {
    Scan.RunLenConcat(x, y, k);
  }

  /** A slice has no run that its string lacks. */
  lemma NoRunSlice(s: string, k: Scan.Class, m: nat, a: nat, b: nat)
    requires Scan.NoRun(s, k, m) && a <= b <= |s|
    ensures Scan.NoRun(s[a..b], k, m)
  {
    Scan.NoRunSuffix(s, k, m, a);
    var u := s[a..];
    forall i | 0 <= i < b - a ensures Scan.RunAt(s[a..b], i, k) < m {
      assert u[i..] == s[a..b][i..] + u[b - a..];
      RunLenPrefix(s[a..b][i..], u[b - a..], k);
      assert Scan.RunAt(u, i, k) < m;
    }
  }

  /** The normalised text holds no line break and no two spaces in a row, and is stripped. */
  lemma NormalizeWsFacts(text: string)
    ensures !ContainsChar(NormalizeWs(text), '\n') && !ContainsChar(NormalizeWs(text), '\r')
    ensures Scan.NoRun(NormalizeWs(text), Scan.Blank, 2)
    ensures Strip(NormalizeWs(text)) == NormalizeWs(text)
  {
    var a := ReplaceAll(text, "\r\n", " ");
    var b := ReplaceAll(a, "\r", " ");
    var u := ReplaceAll(b, "\n", " ");
    var q := Scan.RunSub(u, Scan.Blank, 1, Scan.Fixed(" "));
    assert !ContainsChar(" ", '\r') && !ContainsChar(" ", '\n');
    ReplaceCharRemoves(a, '\r', " ");
    ReplaceCharRemoves(b, '\n', " ");
    ReplaceAllKeepsAbsent(b, "\n", " ", '\r');
    Scan.RunSubKeepsAbsent(u, Scan.Blank, 1, Scan.Fixed(" "), '\r');
    Scan.RunSubKeepsAbsent(u, Scan.Blank, 1, Scan.Fixed(" "), '\n');
    StripKeepsAbsent(q, '\r');
    StripKeepsAbsent(q, '\n');
    Scan.RunSubNoRun(u, Scan.Blank, 1, Scan.Fixed(" "), 2);
    StripIsSlice(q);
    var i, j :| 0 <= i <= j <= |q| && Strip(q) == q[i..j];
    NoRunSlice(q, Scan.Blank, 2, i, j);
    StripIdempotent(q);
  }

  /** `_is_abbreviation` with the configured patterns, when none of them raises */
  predicate IsAbbreviationOf(st: Settings, text: string) {
    IsAbbreviation(Patterns(Listed(st)), text)
  }

  /**
   * `_is_abbreviation` as its loop runs: the first pattern the text ends
   * with answers true, a pattern that is not a string raises before that,
   * and with no pattern left the " X." rule decides.
   */
  function AbbreviationCheck(items: seq<Value>, text: string): (r: Result<bool>)
    ensures r.Failure? ==> r.error == EndswithTypeError
  {
    if items == [] then
      Success(|text| >= 3 && text[|text| - 1] == '.' && IsUpper(text[|text| - 2]) && text[|text| - 3] == ' ')
    else if !items[0].VStr? then Failure(EndswithTypeError)
    else if EndsWith(text, items[0].s) then Success(true)
    else AbbreviationCheck(items[1..], text)
  }

  /** the test raises: a pattern that is not a string comes before any that ends the text */
  predicate CheckRaises(st: Settings, text: string) {
    |Listed(st)| < |st.patterns| && !EndsInAny(Listed(st), text)
  }

  /**
   * The check raises exactly when a pattern that is not a string comes
   * before every pattern that ends the text; otherwise it answers as the
   * test over the string patterns does.
   */
  lemma {:induction false} AbbreviationCheckIff(items: seq<Value>, text: string)
    ensures var ps := LeadingStrings(items);
      AbbreviationCheck(items, text).Failure? <==> |ps| < |items| && !EndsInAny(ps, text)
    ensures AbbreviationCheck(items, text).Success? ==>
      AbbreviationCheck(items, text).value == IsAbbreviation(Patterns(LeadingStrings(items)), text)
  {
    if items != [] && items[0].VStr? && !EndsWith(text, items[0].s) {
      var ps, qs := LeadingStrings(items), LeadingStrings(items[1..]);
      AbbreviationCheckIff(items[1..], text);
      assert ps == [items[0].s] + qs && ps[1..] == qs;
    } else if items != [] && items[0].VStr? {
      assert LeadingStrings(items)[0] == items[0].s;
    }
  }

  /** `_is_ellipsis_only`: the stripped text is non-empty and all dots */
  predicate IsEllipsisOnly(text: string) {
    var t := Strip(text);
    t != [] && forall i :: 0 <= i < |t| ==> t[i] == '.'
  }

  /** `n` dots */
  function Dots(n: nat): (d: string)
    ensures |d| == n && forall i :: 0 <= i < n ==> d[i] == '.'
  {
    if n == 0 then [] else Dots(n - 1) + "."
  }

  lemma {:induction false} LStripSpaces(a: string, r: string)
    requires AllSpace(a) && (r == [] || !IsSpace(r[0]))
    ensures LStrip(a + r) == r
  {
    if a != [] {
      assert (a + r)[1..] == a[1..] + r;
      LStripSpaces(a[1..], r);
    } else {
      assert a + r == r;
    }
  }

  lemma {:induction false} RStripSpaces(r: string, b: string)
    requires AllSpace(b) && (r == [] || !IsSpace(r[|r| - 1]))
    ensures RStrip(r + b) == r
  {
    if b != [] {
      assert (r + b)[..|r + b| - 1] == r + b[..|b| - 1];
      RStripSpaces(r, b[..|b| - 1]);
    } else {
      assert r + b == r;
    }
  }

  /** `text` is `a`, then `n` dots, then `b`, with `a` and `b` blank */
  predicate DotsInSpace(text: string, a: string, n: nat, b: string) {
    n > 0 && AllSpace(a) && AllSpace(b) && text == a + Dots(n) + b
  }

  lemma EllipsisOnlyShape(text: string) returns (a: string, n: nat, b: string)
    requires IsEllipsisOnly(text)
    ensures DotsInSpace(text, a, n, b)
  {
    var l := LStrip(text);
    var t := RStrip(l);
    assert Strip(text) == t;
    n := |t|;
    AllDots(t);
    a := text[..|text| - |l|];
    b := l[|t|..];
    SplitAround(text, |text| - |l|);
    SplitAround(l, |t|);
    Associate(a, t, b);
  }

  lemma Associate(a: string, t: string, b: string)
    ensures a + (t + b) == a + t + b
  {
  }

  /** A string of dots only is `Dots` of its length. */
  lemma AllDots(t: string)
    requires forall i :: 0 <= i < |t| ==> t[i] == '.'
    ensures t == Dots(|t|)
  {
    var d := Dots(|t|);
    forall i | 0 <= i < |t| ensures t[i] == d[i] {
    }
  }

  lemma SplitAround(s: string, k: nat)
    requires k <= |s|
    ensures s == s[..k] + s[k..]
  {
  }

  lemma ShapeEllipsisOnly(text: string, a: string, n: nat, b: string)
    requires DotsInSpace(text, a, n, b)
    ensures IsEllipsisOnly(text)
  {
    var d := Dots(n);
    assert text == a + (d + b);
    LStripSpaces(a, d + b);
    RStripSpaces(d, b);
    assert Strip(text) == d;
  }

  /**
   * A text is ellipsis-only exactly when it is some dots with only
   * whitespace around them.
   */
  lemma EllipsisOnlyIff(text: string)
    ensures IsEllipsisOnly(text) <==> exists a, n, b :: DotsInSpace(text, a, n, b)
  {
    if IsEllipsisOnly(text) {
      var a, n, b := EllipsisOnlyShape(text);
    }
    if exists a, n, b :: DotsInSpace(text, a, n, b) {
      var a, n, b :| DotsInSpace(text, a, n, b);
      ShapeEllipsisOnly(text, a, n, b);
    }
  }

  // ------------------------------------------------------------------
  // Splitting

  /** the text the pattern is applied to */
  function Prepared(st: Settings, text: string): string {
    if st.normalize then NormalizeWs(text) else text
  }

  /** the sentences of `split_sentences` when no abbreviation test raises; a blank text has none */
  function SplitText(st: Settings, text: string): seq<string> {
    if Strip(text) == [] then []
    else Sentences(Patterns(Listed(st)), SplitParts(st.ends, Prepared(st, text)))
  }

  /**
   * The loop of `split_sentences` over the first `n` parts, with
   * `_is_abbreviation` as it runs: it may raise after a mark.
   */
  function GatherChecked(st: Settings, parts: seq<string>, n: nat): (r: Result<Acc>)
    requires n <= |parts|
    ensures r.Failure? ==> r.error == EndswithTypeError
  {
    if n == 0 then Success(Acc([], ""))
    else
      var g := GatherChecked(st, parts, n - 1);
      if g.Failure? then g
      else
        var c := g.value.current + parts[n - 1];
        if (n - 1) % 2 == 0 then Success(Acc(g.value.groups, c))
        else
          var b := AbbreviationCheck(st.patterns, c);
          if b.Failure? then Failure(b.error)
          else if b.value then Success(Acc(g.value.groups, c))
          else Success(Acc(g.value.groups + [c], ""))
  }

  /** the test after the mark at part `i` raises */
  predicate RaisesAt(st: Settings, parts: seq<string>, i: nat)
    requires i < |parts|
  {
    i % 2 == 1 && CheckRaises(st, Gather(Patterns(Listed(st)), parts, i).current + parts[i])
  }

  lemma RaisesBeforeNext(st: Settings, parts: seq<string>, i: nat)
    requires i < |parts|
    ensures RaisesBefore(st, parts, i + 1) <==> RaisesBefore(st, parts, i) || RaisesAt(st, parts, i)
  {
    if RaisesBefore(st, parts, i + 1) {
      var k :| 0 <= k < i + 1 && RaisesAt(st, parts, k);
    }
  }

  lemma RaisesBeforeLater(st: Settings, parts: seq<string>, i: nat, n: nat)
    requires i <= n <= |parts| && RaisesBefore(st, parts, i)
    ensures RaisesBefore(st, parts, n)
  {
    var k :| 0 <= k < i && RaisesAt(st, parts, k);
  }

  /**
   * The test after the mark at part `i`: it raises exactly when the loop
   * raises for the first time there, and otherwise answers whether the
   * piece ends in an abbreviation.
   */
  lemma MarkCheck(st: Settings, parts: seq<string>, i: nat, b: Result<bool>)
    requires i < |parts| && i % 2 == 1 && !RaisesBefore(st, parts, i)
    requires b == AbbreviationCheck(st.patterns, Gather(Patterns(Listed(st)), parts, i).current + parts[i])
    ensures b.Failure? <==> RaisesBefore(st, parts, i + 1)
    ensures b.Success? ==> (b.value <==> IsAbbreviation(Patterns(Listed(st)), Gather(Patterns(Listed(st)), parts, i).current + parts[i]))
  {
    AbbreviationCheckIff(st.patterns, Gather(Patterns(Listed(st)), parts, i).current + parts[i]);
    RaisesBeforeNext(st, parts, i);
  }

  /** one more step of the loop as it runs */
  lemma GatherCheckedNext(st: Settings, parts: seq<string>, i: nat)
    requires i < |parts| && GatherChecked(st, parts, i).Success?
    ensures var a := GatherChecked(st, parts, i).value; var c := a.current + parts[i];
      GatherChecked(st, parts, i + 1) ==
        if i % 2 == 0 then Success(Acc(a.groups, c))
        else if AbbreviationCheck(st.patterns, c).Failure? then Failure(EndswithTypeError)
        else if AbbreviationCheck(st.patterns, c).value then Success(Acc(a.groups, c))
        else Success(Acc(a.groups + [c], ""))
  {
  }

  /** Once the loop has raised, it stays raised. */
  lemma {:induction false} GatherCheckedFails(st: Settings, parts: seq<string>, i: nat, n: nat)
    requires i <= n <= |parts| && GatherChecked(st, parts, i).Failure?
    ensures GatherChecked(st, parts, n) == Failure(EndswithTypeError)
    decreases n - i
  {
    if i < n {
      GatherCheckedFails(st, parts, i + 1, n);
    }
  }

  /** the test raises after some mark among the first `n` parts */
  predicate RaisesBefore(st: Settings, parts: seq<string>, n: nat)
    requires n <= |parts|
  {
    exists i :: 0 <= i < n && RaisesAt(st, parts, i)
  }

  /**
   * The loop as it runs fails exactly when the test raises after some mark
   * of the first `n` parts; until then it is the loop over the string
   * patterns.
   */
  lemma {:induction false} GatherCheckedAgrees(st: Settings, parts: seq<string>, n: nat)
    requires n <= |parts|
    ensures GatherChecked(st, parts, n).Success? ==>
      GatherChecked(st, parts, n).value == Gather(Patterns(Listed(st)), parts, n)
    ensures GatherChecked(st, parts, n).Failure? <==> RaisesBefore(st, parts, n)
  {
    if n > 0 {
      GatherCheckedAgrees(st, parts, n - 1);
      var a := Gather(Patterns(Listed(st)), parts, n - 1);
      AbbreviationCheckIff(st.patterns, a.current + parts[n - 1]);
      assert RaisesBefore(st, parts, n) <==> RaisesBefore(st, parts, n - 1) || RaisesAt(st, parts, n - 1);
    }
  }

  /** `split_sentences` as it runs: the sentences, or the error of a raising abbreviation test */
  function SplitResult(st: Settings, text: string): (r: Result<seq<string>>)
    ensures r.Failure? ==> r.error == EndswithTypeError
  {
    if Strip(text) == [] then Success([])
    else
      var parts := SplitParts(st.ends, Prepared(st, text));
      var g := GatherChecked(st, parts, |parts|);
      if g.Failure? then Failure(g.error) else Success(Kept(g.value.groups + [g.value.current]))
  }

  /**
   * The split succeeds with the sentences `SplitText` describes, and fails
   * exactly when the abbreviation test raises after one of the marks.
   */
  lemma SplitResultSentences(st: Settings, text: string)
    ensures SplitResult(st, text).Success? ==> SplitResult(st, text).value == SplitText(st, text)
    ensures SplitResult(st, text).Failure? <==>
      Strip(text) != [] && var parts := SplitParts(st.ends, Prepared(st, text));
      RaisesBefore(st, parts, |parts|)
  {
    if Strip(text) != [] {
      var parts := SplitParts(st.ends, Prepared(st, text));
      var g := GatherChecked(st, parts, |parts|);
      assert SplitResult(st, text) == if g.Failure? then Failure(g.error) else Success(Kept(g.value.groups + [g.value.current]));
      assert SplitText(st, text) == Sentences(Patterns(Listed(st)), parts);
      GatherCheckedAgrees(st, parts, |parts|);
    }
  }

  /** With every pattern a string, the split never raises. */
  lemma StringPatternsNeverRaise(st: Settings, text: string)
    requires forall i :: 0 <= i < |st.patterns| ==> st.patterns[i].VStr?
    ensures SplitResult(st, text) == Success(SplitText(st, text))
  {
    SplitResultSentences(st, text);
    assert |Listed(st)| == |st.patterns|;
  }

  /**
   * With the pattern list [1], a text in which no ending character is
   * followed by whitespace is split without error, into the one stripped
   * line it is: the stray pattern is never compared.
   */
  lemma StrayPatternUnreached(st: Settings, text: string)
    requires st.patterns == [VInt(1)] && Strip(text) != [] && ' ' !in st.ends
    requires forall i :: 0 <= i < |text| ==> text[i] !in st.ends
    ensures SplitResult(st, text) == Success(KeptLine(Prepared(st, text)))
  {
    var t := Prepared(st, text);
    OnePartWithoutEndings(st, text);
    assert !RaisesBefore(st, [t], 1);
    SplitResultSentences(st, text);
    NoEndingsOneSentence(st, text);
  }

  /**
   * With the pattern list [1], a text with a mark followed by whitespace
   * makes `split_sentences` raise: the test after the first mark reaches
   * the stray pattern before any string pattern.
   */
  lemma StrayPatternRaises(st: Settings, text: string, j: nat)
    requires st.patterns == [VInt(1)] && Strip(text) != []
    requires j <= |Prepared(st, text)| && MatchesAt(st.ends, Prepared(st, text), j)
    ensures SplitResult(st, text).Failure?
  {
    var t := Prepared(st, text);
    MatchSplits(st.ends, t, j);
    StrayRaisesAtFirstMark(st, SplitParts(st.ends, t));
    SplitResultSentences(st, text);
  }

  /** With the default endings and the pattern list [1], "Hi. there" cannot be split. */
  lemma StraySampleRaises(st: Settings)
    requires st.patterns == [VInt(1)] && st.ends == {'.', '!', '?'} && !st.normalize
    ensures SplitResult(st, "Hi. there").Failure?
  {
    var u := "Hi. there";
    MarkAtTwo(st.ends, u);
    assert Strip(u) != [] by {
      assert u[0] == 'H';
      StripEmptyIffAllSpace(u);
    }
    StrayPatternRaises(st, u, 2);
  }

  /** With the default endings, "Hi. there" matches at its '.'. */
  lemma MarkAtTwo(ends: set<char>, u: string)
    requires ends == {'.', '!', '?'} && u == "Hi. there"
    ensures MatchesAt(ends, u, 2)
  {
    var t := u[2..];
    assert t[1..][0] == ' ';
    assert EndRun(ends, t[1..]) == 0;
    assert EndRun(ends, t) == 1;
    assert MarkLen(ends, t) == 1;
  }

  /** With the pattern list [1], the test raises after the first mark of any split. */
  lemma StrayRaisesAtFirstMark(st: Settings, parts: seq<string>)
    requires st.patterns == [VInt(1)] && |parts| >= 2
    ensures RaisesBefore(st, parts, |parts|)
  {
    assert Listed(st) == [];
    assert RaisesAt(st, parts, 1);
  }

  /** the pieces the loop puts together before stripping: closed ones and the last */
  function Pieces(st: Settings, t: string): seq<string> {
    var parts := SplitParts(st.ends, t);
    var a := Gather(Patterns(Listed(st)), parts, |parts|);
    a.groups + [a.current]
  }

  /** A blank text gives no sentences. */
  lemma BlankNoSentences(st: Settings, text: string)
    requires AllSpace(text)
    ensures SplitText(st, text) == []
  {
    StripEmptyIffAllSpace(text);
  }

  /**
   * Every sentence is non-empty and stripped, and is one of the pieces the
   * loop put together, stripped.
   */
  lemma SentencesArePieces(st: Settings, text: string)
    ensures forall x :: x in SplitText(st, text) ==>
      x != [] && Strip(x) == x && exists p :: p in Pieces(st, Prepared(st, text)) && Strip(p) == x
  {
    if Strip(text) != [] {
      var t := Prepared(st, text);
      var parts := SplitParts(st.ends, t);
      var a := Gather(Patterns(Listed(st)), parts, |parts|);
      KeptStripped(a.groups + [a.current]);
      KeptFrom(a.groups + [a.current]);
    }
  }

  /**
   * Nothing but whitespace is lost: the pieces concatenate to the parts of
   * the split, and the parts woven with the whitespace after each closing
   * mark give back the text.
   */
  lemma PiecesCoverText(st: Settings, t: string)
    ensures var parts := SplitParts(st.ends, t); var gaps := SplitGaps(st.ends, t);
      && Concat(Pieces(st, t)) == Concat(parts)
      && |parts| == 2 * |gaps| + 1 && Weave(parts, gaps) == t && SpaceGaps(gaps)
  {
    var parts := SplitParts(st.ends, t);
    var ab := Patterns(Listed(st));
    var a := Gather(ab, parts, |parts|);
    GatherCovers(ab, parts, |parts|);
    assert parts[..|parts|] == parts;
    assert Concat(a.groups + [a.current]) == Concat(a.groups) + a.current by {
      ConcatAppend(a.groups, [a.current]);
      ConcatOne(a.current);
    }
    SplitWeave(st.ends, t);
    SplitGapsSpace(st.ends, t);
  }

  /**
   * With ending characters that are not whitespace, every sentence but the
   * last ends in an ending character.
   */
  lemma SentencesEndInEndings(st: Settings, text: string)
    requires forall c :: c in st.ends ==> !IsSpace(c)
    ensures var ss := SplitText(st, text);
      forall i :: 0 <= i < |ss| - 1 ==> EndsIn(st.ends, ss[i])
  {
    if Strip(text) != [] {
      var t := Prepared(st, text);
      SplitMarks(st.ends, t);
      SentencesEndInMarks(st.ends, Patterns(Listed(st)), SplitParts(st.ends, t));
    }
  }

  /**
   * A text none of whose characters ends a sentence is one sentence: the
   * stripped prepared text (with endings "." and "!", "Hello world? How are
   * you" stays whole).
   */
  lemma NoEndingsOneSentence(st: Settings, text: string)
    requires Strip(text) != [] && ' ' !in st.ends
    requires forall i :: 0 <= i < |text| ==> text[i] !in st.ends
    ensures SplitText(st, text) == KeptLine(Prepared(st, text))
  {
    OnePartWithoutEndings(st, text);
    SentencesOfOne(Patterns(Listed(st)), Prepared(st, text));
  }

  /** A text without ending characters is split into one part, the prepared text. */
  lemma OnePartWithoutEndings(st: Settings, text: string)
    requires ' ' !in st.ends
    requires forall i :: 0 <= i < |text| ==> text[i] !in st.ends
    ensures SplitParts(st.ends, Prepared(st, text)) == [Prepared(st, text)]
  {
    var t := Prepared(st, text);
    forall c | c in st.ends ensures !ContainsChar(t, c) {
      PreparedKeepsAbsent(st, text, c);
    }
    NoMarkBeforeSpace(st.ends, t);
    NoMatchOnePart(st.ends, t);
  }

  lemma PreparedKeepsAbsent(st: Settings, text: string, c: char)
    requires c != ' ' && forall i :: 0 <= i < |text| ==> text[i] != c
    ensures !ContainsChar(Prepared(st, text), c)
  {
    if st.normalize {
      NormalizeKeepsAbsent(text, c);
    }
  }

  lemma NoMarkBeforeSpace(ends: set<char>, t: string)
    requires forall c :: c in ends ==> !ContainsChar(t, c)
    ensures forall i :: 0 <= i < |t| - 1 ==> !(t[i] in ends && IsSpace(t[i + 1]))
  {
    forall i | 0 <= i < |t| - 1 ensures t[i] !in ends {
      if t[i] in ends {
        assert ContainsChar(t, t[i]);
      }
    }
  }

  /** A text the split leaves whole is its own only sentence, stripped. */
  lemma SentencesOfOne(ab: Abbreviations, t: string)
    ensures Sentences(ab, [t]) == KeptLine(t)
  {
    assert Gather(ab, [t], 1) == Acc([], t) by {
      assert Gather(ab, [t], 0) == Acc([], "");
      assert "" + t == t;
    }
    assert Kept([] + [t]) == KeptLine(t) by {
      assert ([] + [t])[..0] == [];
    }
  }

  /** Normalising creates no character but a space. */
  lemma NormalizeKeepsAbsent(text: string, c: char)
    requires c != ' ' && !ContainsChar(text, c)
    ensures !ContainsChar(NormalizeWs(text), c)
  {
    var a := ReplaceAll(text, "\r\n", " ");
    var b := ReplaceAll(a, "\r", " ");
    var u := ReplaceAll(b, "\n", " ");
    assert !ContainsChar(" ", c);
    ReplaceAllKeepsAbsent(text, "\r\n", " ", c);
    ReplaceAllKeepsAbsent(a, "\r", " ", c);
    ReplaceAllKeepsAbsent(b, "\n", " ", c);
    Scan.RunSubKeepsAbsent(u, Scan.Blank, 1, Scan.Fixed(" "), c);
    StripKeepsAbsent(Scan.RunSub(u, Scan.Blank, 1, Scan.Fixed(" ")), c);
  }

  /** Each default pattern is taken for an abbreviation. */
  lemma DefaultsAreAbbreviations(st: Settings)
    requires Listed(st) == DefaultAbbreviations
    ensures forall j :: 0 <= j < |DefaultAbbreviations| ==> IsAbbreviationOf(st, DefaultAbbreviations[j])
  {
    forall j | 0 <= j < |DefaultAbbreviations| ensures IsAbbreviationOf(st, DefaultAbbreviations[j]) {
      var p := DefaultAbbreviations[j];
      EndsInAnyIff(Listed(st), p);
      assert EndsWith(p, p) by {
        assert p[|p| - |p|..] == p;
      }
    }
  }

  /** A text shorter than every pattern ends in none of them. */
  lemma ShorterThanPatterns(ps: seq<string>, text: string)
    requires forall j :: 0 <= j < |ps| ==> |ps[j]| > |text|
    ensures !EndsInAny(ps, text)
  {
    EndsInAnyIff(ps, text);
  }

  /**
   * A text with no upper-case letter after its first character ends in no
   * pattern that is shorter than it and starts with an upper-case letter.
   */
  lemma NoCapitalInside(ps: seq<string>, text: string)
    requires forall j :: 0 <= j < |ps| ==> 0 < |ps[j]| < |text| && IsUpper(ps[j][0])
    requires forall k :: 0 < k < |text| ==> !IsUpper(text[k])
    ensures !EndsInAny(ps, text)
  {
    EndsInAnyIff(ps, text);
    forall j | 0 <= j < |ps| ensures !EndsWith(text, ps[j]) {
      var p := ps[j];
      assert text[|text| - |p|..][0] == text[|text| - |p|];
    }
  }

  /** Every default pattern has three to five characters and starts with a capital. */
  lemma DefaultShapes()
    ensures forall j :: 0 <= j < |DefaultAbbreviations| ==>
      3 <= |DefaultAbbreviations[j]| <= 5 && IsUpper(DefaultAbbreviations[j][0])
  {
  }

  /** "", "Mr" and "Hello." are not abbreviations. */
  lemma NotAbbreviations(st: Settings)
    requires Listed(st) == DefaultAbbreviations
    ensures !IsAbbreviationOf(st, "") && !IsAbbreviationOf(st, "Mr") && !IsAbbreviationOf(st, "Hello.")
  {
    DefaultShapes();
    ShorterThanPatterns(Listed(st), "");
    ShorterThanPatterns(Listed(st), "Mr");
    HelloNotAbbreviation(st);
  }

  /** "Hello." is not an abbreviation. */
  lemma HelloNotAbbreviation(st: Settings)
    requires Listed(st) == DefaultAbbreviations
    ensures !IsAbbreviationOf(st, "Hello.")
  {
    DefaultShapes();
    HelloLowerInside();
    NoCapitalInside(Listed(st), "Hello.");
  }

  /** Only the first letter of "Hello." is a capital. */
  lemma HelloLowerInside()
    ensures forall k :: 0 < k < |"Hello."| ==> !IsUpper("Hello."[k])
  {
    var h := "Hello.";
    forall k | 0 < k < |h| ensures !IsUpper(h[k]) {
      assert h[k] in {'e', 'l', 'o', '.'};
    }
  }

  // ------------------------------------------------------------------
  // Processing

  /** the sentences `_process_single_text` keeps */
  function Filtered(st: Settings, ss: seq<string>): seq<string> {
    var kept := if st.removeEmpty then Nonblank(ss) else ss;
    if st.filterEllipsis then NotEllipsis(kept) else kept
  }

  /** `[s for s in ss if s.strip()]` */
  function Nonblank(ss: seq<string>): (r: seq<string>)
    ensures forall x :: x in r ==> x in ss && Strip(x) != []
  {
    if ss == [] then [] else (if Strip(ss[0]) != [] then [ss[0]] else []) + Nonblank(ss[1..])
  }

  /** `[s for s in ss if not self._is_ellipsis_only(s)]` */
  function NotEllipsis(ss: seq<string>): (r: seq<string>)
    ensures forall x :: x in r ==> x in ss && !IsEllipsisOnly(x)
  {
    if ss == [] then [] else (if !IsEllipsisOnly(ss[0]) then [ss[0]] else []) + NotEllipsis(ss[1..])
  }

  /** Dropping blank sentences from stripped non-empty ones changes nothing. */
  lemma {:induction false} NonblankOfSentences(ss: seq<string>)
    requires forall i :: 0 <= i < |ss| ==> ss[i] != [] && Strip(ss[i]) == ss[i]
    ensures Nonblank(ss) == ss
  {
    if ss != [] {
      NonblankOfSentences(ss[1..]);
      NonblankCons(ss[0], ss[1..]);
      assert [ss[0]] + ss[1..] == ss;
    }
  }

  lemma NonblankCons(h: string, tl: seq<string>)
    requires h != [] && Strip(h) == h
    ensures Nonblank([h] + tl) == [h] + Nonblank(tl)
  {
    assert ([h] + tl)[1..] == tl;
  }

  /**
   * `_process_single_text`: anything but a non-empty string is returned as
   * it is; a text fails exactly when its split raises, and otherwise becomes
   * its kept sentences, one per line.
   */
  function ProcessText(st: Settings, v: Value): (r: Result<Value>)
    ensures !(v.VStr? && v.s != "") ==> r == Success(v)
    ensures v.VStr? && v.s != "" ==> (r.Failure? <==> SplitResult(st, v.s).Failure?)
    ensures r.Failure? ==> r.error == EndswithTypeError
  {
    if v.VStr? && v.s != "" then
      var ss := SplitResult(st, v.s);
      if ss.Failure? then Failure(ss.error) else Success(VStr(Join(Filtered(st, ss.value), "\n")))
    else Success(v)
  }

  /**
   * The list comprehension of `process`: each item processed on its own, in
   * order; the first item that raises makes the whole list raise.
   */
  function ProcessItems(st: Settings, items: seq<Value>): (r: Result<seq<Value>>)
    ensures r.Success? <==> forall i :: 0 <= i < |items| ==> ProcessText(st, items[i]).Success?
    ensures r.Success? ==> |r.value| == |items| && forall i :: 0 <= i < |items| ==> r.value[i] == ProcessText(st, items[i]).value
    ensures r.Failure? ==> r.error == EndswithTypeError
  {
    var r := Collect(v => ProcessText(st, v), items);
    if r.Failure? then Failure(EndswithTypeError) else r
  }

  /** each item mapped in order; the first that fails makes the whole list fail */
  function Collect(f: Value -> Result<Value>, items: seq<Value>): (r: Result<seq<Value>>)
    ensures r.Success? <==> forall i :: 0 <= i < |items| ==> f(items[i]).Success?
    ensures r.Success? ==> |r.value| == |items| && forall i :: 0 <= i < |items| ==> r.value[i] == f(items[i]).value
  {
    if items == [] then Success([])
    else
      var front := Collect(f, items[..|items| - 1]);
      var last := f(items[|items| - 1]);
      if front.Failure? then front
      else if last.Failure? then Failure(last.error)
      else Success(front.value + [last.value])
  }

  /** the list comprehension over one more item that is processed */
  lemma ProcessItemsSnoc(st: Settings, items: seq<Value>, i: nat, out: seq<Value>)
    requires i < |items| && ProcessItems(st, items[..i]) == Success(out)
    requires ProcessText(st, items[i]).Success?
    ensures ProcessItems(st, items[..i + 1]) == Success(out + [ProcessText(st, items[i]).value])
  {
    assert items[..i + 1][..i] == items[..i];
  }

  /** the list comprehension when an item raises */
  lemma ProcessItemsRaises(st: Settings, items: seq<Value>, i: nat)
    requires i < |items| && ProcessText(st, items[i]).Failure?
    ensures ProcessItems(st, items) == Failure(EndswithTypeError)
  {
  }

  /** `process`: a disabled plugin returns its input, a list is processed item by item */
  function ProcessValue(st: Settings, v: Value): (r: Result<Value>)
    ensures !st.enabled ==> r == Success(v)
    ensures st.enabled && v.VList? ==> (r.Success? <==> ProcessItems(st, v.items).Success?)
    ensures st.enabled && v.VList? && r.Success? ==>
      r.value.VList? && |r.value.items| == |v.items|
      && forall i :: 0 <= i < |v.items| ==> r.value.items[i] == ProcessText(st, v.items[i]).value
    ensures st.enabled && !v.VList? ==> r == ProcessText(st, v)
  {
    if !st.enabled then Success(v)
    else if v.VList? then
      var out := ProcessItems(st, v.items);
      if out.Failure? then Failure(out.error) else Success(VList(out.value))
    else ProcessText(st, v)
  }

  /**
   * With the default filters, a text whose split does not raise is
   * processed into its sentences, one per line, and no line is blank.
   */
  lemma ProcessedLines(st: Settings, text: string)
    requires st.removeEmpty && !st.filterEllipsis && text != ""
    ensures SplitResult(st, text).Success? ==> ProcessText(st, VStr(text)) == Success(VStr(Join(SplitText(st, text), "\n")))
    ensures SplitResult(st, text).Failure? ==> ProcessText(st, VStr(text)) == Failure(EndswithTypeError)
  {
    var ss := SplitText(st, text);
    SplitResultSentences(st, text);
    SentencesArePieces(st, text);
    assert forall i :: 0 <= i < |ss| ==> ss[i] in ss;
    NonblankOfSentences(ss);
    assert Filtered(st, ss) == ss;
  }

  /** one more step of the loop */
  lemma GatherNext(ab: Abbreviations, parts: seq<string>, i: nat)
    requires i < |parts|
    ensures var a := Gather(ab, parts, i); var c := a.current + parts[i];
      Gather(ab, parts, i + 1) == if i % 2 == 0 || IsAbbreviation(ab, c) then Acc(a.groups, c) else Acc(a.groups + [c], "")
  {
  }

  /**
   * One pass of the loop of `split_sentences` over part `i`, from the state
   * the loop keeps: unless the test after a mark raises, the next state is
   * the piece grown by the part, or closed and kept as a sentence.
   */
  lemma SplitStep(st: Settings, parts: seq<string>, i: nat, current: string, sentences: seq<string>, b: Result<bool>)
    requires i < |parts| && !RaisesBefore(st, parts, i)
    requires current == Gather(Patterns(Listed(st)), parts, i).current
    requires sentences == Kept(Gather(Patterns(Listed(st)), parts, i).groups)
    requires i % 2 == 1 ==> b == AbbreviationCheck(st.patterns, current + parts[i])
    ensures i % 2 == 1 && b.Failure? ==> RaisesBefore(st, parts, i + 1)
    ensures !(i % 2 == 1 && b.Failure?) ==> !RaisesBefore(st, parts, i + 1)
    ensures i % 2 == 1 && b.Success? && !b.value ==>
      Gather(Patterns(Listed(st)), parts, i + 1).current == "" &&
      Kept(Gather(Patterns(Listed(st)), parts, i + 1).groups) ==
        if Strip(current + parts[i]) != [] then sentences + [Strip(current + parts[i])] else sentences
    ensures (i % 2 == 0 || (b.Success? && b.value)) ==>
      Gather(Patterns(Listed(st)), parts, i + 1).current == current + parts[i] &&
      Kept(Gather(Patterns(Listed(st)), parts, i + 1).groups) == sentences
  {
    var ab := Patterns(Listed(st));
    GatherNext(ab, parts, i);
    RaisesBeforeNext(st, parts, i);
    if i % 2 == 1 {
      MarkCheck(st, parts, i, b);
      if b.Success? && !b.value {
        KeptSnoc(Gather(ab, parts, i).groups, current + parts[i]);
      }
    }
  }

  /** Where the loop raises, the split fails. */
  lemma SplitRaises(st: Settings, text: string, parts: seq<string>, i: nat)
    requires Strip(text) != [] && parts == SplitParts(st.ends, Prepared(st, text))
    requires i <= |parts| && RaisesBefore(st, parts, i)
    ensures SplitResult(st, text) == Failure(EndswithTypeError)
  {
    RaisesBeforeLater(st, parts, i, |parts|);
    SplitResultSentences(st, text);
  }

  /** Where the loop runs to the end, the split is the kept sentences and the last piece. */
  lemma SplitEnds(st: Settings, text: string, parts: seq<string>, current: string, sentences: seq<string>)
    requires Strip(text) != [] && parts == SplitParts(st.ends, Prepared(st, text))
    requires !RaisesBefore(st, parts, |parts|)
    requires current == Gather(Patterns(Listed(st)), parts, |parts|).current
    requires sentences == Kept(Gather(Patterns(Listed(st)), parts, |parts|).groups)
    ensures SplitResult(st, text) == Success(if Strip(current) != [] then sentences + [Strip(current)] else sentences)
  {
    KeptSnoc(Gather(Patterns(Listed(st)), parts, |parts|).groups, current);
    SplitResultSentences(st, text);
    if Strip(current) == [] {
      assert sentences + KeptLine(current) == sentences;
    }
  }

  // ------------------------------------------------------------------
  // The plugin

  class TextToSentencesPlugin {
    const settings: Settings

    /** `__init__`, for a configuration it accepts */
    constructor(config: Dict)
      requires SettingsOf(config).Success?
      ensures settings == SettingsOf(config).value
    {
      settings := SettingsOf(config).value;
    }

    /** `_is_abbreviation`: the loop over the configured patterns, then the " X." rule */
    method CheckAbbreviation(text: string) returns (r: Result<bool>)
      ensures r == AbbreviationCheck(settings.patterns, text)
    {
      var patterns := settings.patterns;
      var i := 0;
      while i < |patterns|
        invariant 0 <= i <= |patterns|
        invariant AbbreviationCheck(patterns, text) == AbbreviationCheck(patterns[i..], text)
      {
        assert patterns[i..][0] == patterns[i] && patterns[i..][1..] == patterns[i + 1..];
        if !patterns[i].VStr? {
          return Failure(EndswithTypeError);
        }
        if EndsWith(text, patterns[i].s) {
          return Success(true);
        }
        i := i + 1;
      }
      r := Success(|text| >= 3 && text[|text| - 1] == '.' && IsUpper(text[|text| - 2]) && text[|text| - 3] == ' ');
    }

    /** `split_sentences`: the loop over the parts of the split */
    method SplitSentences(text: string) returns (r: Result<seq<string>>)
      ensures r == SplitResult(settings, text)
    {
      var st := settings;
      if Strip(text) == [] {
        return Success([]);
      }
      var t := Prepared(st, text);  // whitespace normalised when the settings ask for it
      var parts := SplitParts(st.ends, t);
      var sentences := [];
      var current := "";
      var i := 0;
      while i < |parts|
        invariant 0 <= i <= |parts|
        invariant !RaisesBefore(st, parts, i)
        invariant current == Gather(Patterns(Listed(st)), parts, i).current
        invariant sentences == Kept(Gather(Patterns(Listed(st)), parts, i).groups)
      {
        if i % 2 == 1 {
          var b := CheckAbbreviation(current + parts[i]);
          SplitStep(st, parts, i, current, sentences, b);
          current := current + parts[i];
          if b.Failure? {
            SplitRaises(st, text, parts, i + 1);
            return Failure(b.error);
          }
          if !b.value {
            if Strip(current) != [] {
              sentences := sentences + [Strip(current)];
            }
            current := "";
          }
        } else {
          SplitStep(st, parts, i, current, sentences, Success(true));
          current := current + parts[i];
        }
        i := i + 1;
      }
      SplitEnds(st, text, parts, current, sentences);
      if Strip(current) != [] {
        sentences := sentences + [Strip(current)];
      }
      r := Success(sentences);
    }

    /** `_process_single_text` */
    method ProcessSingleText(v: Value) returns (r: Result<Value>)
      ensures r == ProcessText(settings, v)
    {
      if !(v.VStr? && v.s != "") {
        return Success(v);
      }
      var split := SplitSentences(v.s);
      if split.Failure? {
        return Failure(split.error);
      }
      var sentences := split.value;
      if settings.removeEmpty {
        sentences := Nonblank(sentences);
      }
      if settings.filterEllipsis {
        sentences := NotEllipsis(sentences);
      }
      r := Success(VStr(Join(sentences, "\n")));
    }

    /** the list branch of `process`: each item in turn, until one raises */
    method ProcessList(items: seq<Value>) returns (r: Result<seq<Value>>)
      ensures r == ProcessItems(settings, items)
    {
      var st := settings;
      var out := [];
      var i := 0;
      while i < |items|
        invariant 0 <= i <= |items|
        invariant ProcessItems(st, items[..i]) == Success(out)
      {
        var item := ProcessSingleText(items[i]);
        if item.Failure? {
          ProcessItemsRaises(st, items, i);
          return Failure(item.error);
        }
        ProcessItemsSnoc(st, items, i, out);
        out := out + [item.value];
        i := i + 1;
      }
      assert items[..i] == items;
      r := Success(out);
    }

    /** `process` */
    method Process(v: Value) returns (r: Result<Value>)
      ensures r == ProcessValue(settings, v)
    {
      if !settings.enabled {
        return Success(v);
      }
      if v.VList? {
        var out := ProcessList(v.items);
        if out.Failure? {
          return Failure(out.error);
        }
        r := Success(VList(out.value));
      } else {
        r := ProcessSingleText(v);
      }
    }
  }
}
