/**
 * The punctuation adder plugin around its neural model. The model's
 * `restore_punctuation` is a parameter: a function from text to punctuated
 * text, or to the exception it raises. Around it the plugin splits the
 * punctuated text after `.`, `?` and `!`, capitalises each sentence's first
 * letter, joins the sentences with line breaks and turns free-standing
 * dashes into commas.
 */
module PunctuationAdder {
  import opened Wrappers
  import opened Values
  import opened PyText
  import PluginBase
  import SentenceParts
  import Scan

  // ------------------------------------------------------------------
  // Configuration

  const FieldTypes: seq<(string, PyType)> :=
    [("enabled", TBool), ("replace_dashes", TBool), ("split_sentences", TBool), ("capitalize_sentences", TBool)]

  const Schema := PluginBase.Schema([], set p | p in FieldTypes :: p.0, FieldTypes, [], map[])

  datatype Settings = Settings(enabled: bool, capitalize: bool, split: bool, replaceDashes: bool)

  /**
   * The constructor: the base class validates the four boolean fields, and
   * then `self.config[...]` reads each of them, which raises `KeyError` for
   * one that is absent.
   */
  function SettingsOf(config: Dict): (r: Result<Settings>)
    ensures r.Success? <==> (PluginBase.Validate(Schema, config).None? &&
      "enabled" in config && "capitalize_sentences" in config && "split_sentences" in config && "replace_dashes" in config)
    ensures r.Success? ==> r.value.enabled == Truthy(config["enabled"])
  {
    if PluginBase.Validate(Schema, config).Some? then Failure("Configuration validation failed")
    else if "enabled" !in config then Failure("KeyError: 'enabled'")
    else if "capitalize_sentences" !in config then Failure("KeyError: 'capitalize_sentences'")
    else if "split_sentences" !in config then Failure("KeyError: 'split_sentences'")
    else if "replace_dashes" !in config then Failure("KeyError: 'replace_dashes'")
    else Success(Settings(Truthy(config["enabled"]), Truthy(config["capitalize_sentences"]),
      Truthy(config["split_sentences"]), Truthy(config["replace_dashes"])))
  }

  /** With no defaults in the schema, an empty configuration cannot build the plugin. */
  lemma EmptyConfigRejected()
    ensures SettingsOf(map[]).Failure?
  {
  }

  // ------------------------------------------------------------------
  // `_capitalize_first_letter`

  /** `str.isalpha()`: ASCII letters and the CJK ideographs */
  predicate IsAlpha(c: char) {
    IsLetter(c) || IsCjk(c)
  }

  /** the index of the first alphabetic character at or after `i`, or -1 */
  function FirstAlphaFrom(s: string, i: nat): (r: int)
    requires i <= |s|
    ensures r == -1 || (i <= r < |s| && IsAlpha(s[r]))
    ensures forall k :: i <= k < |s| && (r == -1 || k < r) ==> !IsAlpha(s[k])
    decreases |s| - i
  {
    if i == |s| then -1 else if IsAlpha(s[i]) then i else FirstAlphaFrom(s, i + 1)
  }

  function FirstAlpha(s: string): int {
    FirstAlphaFrom(s, 0)
  }

  /** the text with its first alphabetic character upper-cased */
  function Capitalized(text: string): string {
    var i := FirstAlpha(text);
    if i < 0 then text else text[..i] + [UpperChar(text[i])] + text[i + 1..]
  }

  /**
   * Only the first alphabetic character changes, to its upper case; every
   * other character, and a text without letters, stays as it was.
   */
  lemma CapitalizedFacts(text: string)
    ensures var r := Capitalized(text);
      |r| == |text| &&
      forall k :: 0 <= k < |text| ==> r[k] == (if k == FirstAlpha(text) then UpperChar(text[k]) else text[k])
    ensures FirstAlpha(text) == -1 <==> forall k :: 0 <= k < |text| ==> !IsAlpha(text[k])
  {
    var i := FirstAlpha(text);
    if i >= 0 {
      var r := Capitalized(text);
      forall k | 0 <= k < |text|
        ensures r[k] == (if k == i then UpperChar(text[k]) else text[k])
      {
        if k < i {
          assert r[k] == text[..i][k];
        } else if k > i {
          assert r[k] == text[i + 1..][k - i - 1];
        }
      }
    }
  }

  /** `_capitalize_first_letter`: the loop that returns at the first letter */
  method CapitalizeFirstLetter(text: string) returns (r: string)
    ensures r == Capitalized(text)
  {
    for i := 0 to |text|
      invariant forall k :: 0 <= k < i ==> !IsAlpha(text[k])
    {
      if IsAlpha(text[i]) {
        assert FirstAlphaFrom(text, 0) == i by {
          FirstAlphaAt(text, 0, i);
        }
        return text[..i] + [UpperChar(text[i])] + text[i + 1..];
      }
    }
    FirstAlphaNone(text, 0);
    return text;
  }

  lemma {:induction false} FirstAlphaAt(s: string, j: nat, i: nat)
    requires j <= i < |s| && IsAlpha(s[i])
    requires forall k :: j <= k < i ==> !IsAlpha(s[k])
    ensures FirstAlphaFrom(s, j) == i
    decreases i - j
  {
    if j < i {
      FirstAlphaAt(s, j + 1, i);
    }
  }

  lemma {:induction false} FirstAlphaNone(s: string, j: nat)
    requires j <= |s|
    requires forall k :: j <= k < |s| ==> !IsAlpha(s[k])
    ensures FirstAlphaFrom(s, j) == -1
    decreases |s| - j
  {
    if j < |s| {
      FirstAlphaNone(s, j + 1);
    }
  }

  // ------------------------------------------------------------------
  // `_replace_dashes`

  /** `\s-\s` matches at `i` */
  predicate SpacedDashAt(s: string, i: int) {
    0 <= i && i + 3 <= |s| && IsSpace(s[i]) && s[i + 1] == '-' && IsSpace(s[i + 2])
  }

  /** `([a-zA-Z])-\s` matches at `i` */
  predicate LetterDashAt(s: string, i: int) {
    0 <= i && i + 3 <= |s| && IsLetter(s[i]) && s[i + 1] == '-' && IsSpace(s[i + 2])
  }

  /** `re.sub(r"\s-\s", ", ", s)`: matches left to right, without overlap */
  function SubSpacedDashes(s: string): (r: string)
    ensures |r| <= |s|
    decreases |s|
  {
    if SpacedDashAt(s, 0) then ", " + SubSpacedDashes(s[3..])
    else if s == [] then []
    else [s[0]] + SubSpacedDashes(s[1..])
  }

  /** `re.sub(r"([a-zA-Z])-\s", r"\1, ", s)` */
  function SubLetterDashes(s: string): (r: string)
    ensures |r| == |s|
    decreases |s|
  {
    if LetterDashAt(s, 0) then [s[0]] + ", " + SubLetterDashes(s[3..])
    else if s == [] then []
    else [s[0]] + SubLetterDashes(s[1..])
  }

  /** `_replace_dashes` */
  function ReplaceDashes(text: string): string {
    if text == "" then text else SubLetterDashes(SubSpacedDashes(text))
  }

  lemma ShiftSpaced(s: string)
    requires s != []
    ensures forall i :: 0 <= i ==> (SpacedDashAt(s, i + 1) <==> SpacedDashAt(s[1..], i))
  {
  }

  lemma ShiftLetter(s: string)
    requires s != []
    ensures forall i :: 0 <= i ==> (LetterDashAt(s, i + 1) <==> LetterDashAt(s[1..], i))
  {
  }

  /** The first substitution changes the text exactly when `\s-\s` occurs in it. */
  lemma {:induction false} SpacedDashesIff(s: string)
    ensures SubSpacedDashes(s) == s <==> forall i :: !SpacedDashAt(s, i)
    decreases |s|
  {
    if SpacedDashAt(s, 0) {
      assert SubSpacedDashes(s)[0] == ',';
    } else if s != [] {
      SpacedDashesIff(s[1..]);
      ShiftSpaced(s);
      var r := SubSpacedDashes(s[1..]);
      assert SubSpacedDashes(s) == [s[0]] + r;
      assert s == [s[0]] + s[1..];
      if forall i :: !SpacedDashAt(s[1..], i) {
        forall i ensures !SpacedDashAt(s, i) {
          if i > 0 {
            assert !SpacedDashAt(s[1..], i - 1);
          }
        }
      } else {
        var i :| SpacedDashAt(s[1..], i);
        assert SpacedDashAt(s, i + 1);
      }
    }
  }

  /** The second substitution changes the text exactly when a letter, `-` and whitespace occur in it. */
  lemma {:induction false} LetterDashesIff(s: string)
    ensures SubLetterDashes(s) == s <==> forall i :: !LetterDashAt(s, i)
    decreases |s|
  {
    if LetterDashAt(s, 0) {
      assert SubLetterDashes(s)[1] == ',';
    } else if s != [] {
      LetterDashesIff(s[1..]);
      ShiftLetter(s);
      var r := SubLetterDashes(s[1..]);
      assert SubLetterDashes(s) == [s[0]] + r;
      assert s == [s[0]] + s[1..];
      if forall i :: !LetterDashAt(s[1..], i) {
        forall i ensures !LetterDashAt(s, i) {
          if i > 0 {
            assert !LetterDashAt(s[1..], i - 1);
          }
        }
      } else {
        var i :| LetterDashAt(s[1..], i);
        assert LetterDashAt(s, i + 1);
      }
    }
  }

  /** The second substitution keeps the first character, and the second one or turns it into a comma. */
  lemma LetterDashesHead(s: string)
    ensures s != [] ==> SubLetterDashes(s)[0] == s[0]
    ensures |s| >= 2 ==> SubLetterDashes(s)[1] == s[1] || SubLetterDashes(s)[1] == ','
  {
    if |s| >= 2 && !LetterDashAt(s, 0) {
      var t := s[1..];
      if LetterDashAt(t, 0) {
        assert SubLetterDashes(t)[0] == t[0];
      } else {
        assert SubLetterDashes(t)[0] == t[0];
      }
    }
  }

  /** After the second substitution no letter is followed by `-` and whitespace. */
  lemma {:induction false} LetterDashesGone(s: string)
    ensures forall i :: !LetterDashAt(SubLetterDashes(s), i)
    decreases |s|
  {
    var r := SubLetterDashes(s);
    if LetterDashAt(s, 0) {
      var t := SubLetterDashes(s[3..]);
      LetterDashesGone(s[3..]);
      assert r == [s[0]] + ", " + t;
      forall i | 3 <= i && i + 3 <= |r| ensures !LetterDashAt(r, i) {
        assert !LetterDashAt(t, i - 3);
        assert r[i] == t[i - 3] && r[i + 1] == t[i - 2] && r[i + 2] == t[i - 1];
      }
    } else if s != [] {
      var t := SubLetterDashes(s[1..]);
      LetterDashesGone(s[1..]);
      LetterDashesHead(s[1..]);
      assert r == [s[0]] + t;
      forall i | 1 <= i && i + 3 <= |r| ensures !LetterDashAt(r, i) {
        assert !LetterDashAt(t, i - 1);
        assert r[i] == t[i - 1] && r[i + 1] == t[i] && r[i + 2] == t[i + 1];
      }
    }
  }

  /**
   * A text in which every `-` followed by whitespace stands at the start or
   * after a character that is neither whitespace nor a letter comes back
   * unchanged: hyphenated words, `--`, a trailing ` -` and a leading `- `.
   */
  lemma DashesKept(s: string)
    requires forall i :: 1 <= i && i + 1 < |s| && s[i] == '-' && IsSpace(s[i + 1]) ==>
      !IsSpace(s[i - 1]) && !IsLetter(s[i - 1])
    ensures ReplaceDashes(s) == s
  {
    if s != "" {
      forall i | 0 <= i && i + 3 <= |s| && s[i + 1] == '-' && IsSpace(s[i + 2])
        ensures !SpacedDashAt(s, i)
      {
        assert !IsSpace(s[i]);
      }
      SpacedDashesIff(s);
      forall i | 0 <= i && i + 3 <= |s| && s[i + 1] == '-' && IsSpace(s[i + 2])
        ensures !LetterDashAt(s, i)
      {
        assert !IsLetter(s[i]);
      }
      LetterDashesIff(s);
    }
  }

  // ------------------------------------------------------------------
  // `_split_into_sentences`

  /** `(?<=[.?!])\s+` can start at `i`: a mark before, whitespace at `i` */
  predicate BreakAt(t: string, i: int) {
    0 < i < |t| && Scan.IsMark(t[i - 1]) && IsSpace(t[i])
  }

  /** the first break at or after `i`, or the end of the text */
  function NextBreak(t: string, i: nat): (j: nat)
    requires i <= |t|
    ensures i <= j <= |t| && (j < |t| ==> BreakAt(t, j))
    ensures forall k :: i <= k < j ==> !BreakAt(t, k)
    decreases |t| - i
  {
    if i == |t| then i else if BreakAt(t, i) then i else NextBreak(t, i + 1)
  }

  /** the end of the whitespace run starting at `i` */
  function RunEnd(t: string, i: nat): (n: nat)
    requires i <= |t|
    ensures i <= n <= |t| && (n < |t| ==> !IsSpace(t[n]))
    ensures forall k :: i <= k < n ==> IsSpace(t[k])
    decreases |t| - i
  {
    if i < |t| && IsSpace(t[i]) then RunEnd(t, i + 1) else i
  }

  /** the pieces `re.split` returns and the whitespace runs it removes between them */
  datatype Pieces = Pieces(pieces: seq<string>, gaps: seq<string>)

  /** `re.split(r"(?<=[.?!])\s+", t)`, from position `s` on */
  function SplitFrom(t: string, s: nat): (r: Pieces)
    requires s <= |t|
    ensures |r.pieces| == |r.gaps| + 1
    decreases |t| - s
  {
    var i := NextBreak(t, s);
    if i == |t| then Pieces([t[s..]], [])
    else
      var n := RunEnd(t, i);
      var rest := SplitFrom(t, n);
      Pieces([t[s..i]] + rest.pieces, [t[i..n]] + rest.gaps)
  }

  function SplitAfterMarks(t: string): Pieces {
    SplitFrom(t, 0)
  }

  /** the pieces with the removed runs put back between them */
  function Weave(pieces: seq<string>, gaps: seq<string>): string
    requires |pieces| == |gaps| + 1
  {
    if gaps == [] then pieces[0] else pieces[0] + gaps[0] + Weave(pieces[1..], gaps[1..])
  }

  /** no mark inside the piece is followed by whitespace */
  predicate Unbroken(p: string) {
    forall j :: 0 <= j < |p| ==> !BreakAt(p, j)
  }

  /** a piece that ends the text before a removed run: it ends in a mark */
  predicate EndsInMark(p: string) {
    p != [] && Scan.IsMark(p[|p| - 1])
  }

  /** a piece after a removed run: the run took all the whitespace */
  predicate StartsSolid(p: string) {
    p == [] || !IsSpace(p[0])
  }

  predicate GapsAreSpace(g: seq<string>) {
    forall k :: 0 <= k < |g| ==> g[k] != [] && AllSpace(g[k])
  }

  predicate CutAfterMarks(r: Pieces) {
    forall k :: 0 <= k < |r.gaps| && k < |r.pieces| ==> EndsInMark(r.pieces[k])
  }

  predicate AllUnbroken(ps: seq<string>) {
    forall k :: 0 <= k < |ps| ==> Unbroken(ps[k])
  }

  predicate RunsTakenWhole(ps: seq<string>) {
    forall k :: 1 <= k < |ps| ==> StartsSolid(ps[k])
  }

  /** Putting the removed runs back between the pieces gives the text. */
  lemma {:induction false} SplitWeave(t: string, s: nat)
    requires s <= |t|
    ensures Weave(SplitFrom(t, s).pieces, SplitFrom(t, s).gaps) == t[s..]
    decreases |t| - s
  {
    var i := NextBreak(t, s);
    if i < |t| {
      var n := RunEnd(t, i);
      SplitWeave(t, n);
      var r, rest := SplitFrom(t, s), SplitFrom(t, n);
      assert r.pieces[1..] == rest.pieces && r.gaps[1..] == rest.gaps;
      assert t[s..i] + t[i..n] + t[n..] == t[s..];
    }
  }

  /** Every removed run is non-empty whitespace. */
  lemma {:induction false} SplitGaps(t: string, s: nat)
    requires s <= |t|
    ensures GapsAreSpace(SplitFrom(t, s).gaps)
    decreases |t| - s
  {
    var i := NextBreak(t, s);
    if i < |t| {
      var n := RunEnd(t, i);
      SplitGaps(t, n);
      var g, rest := SplitFrom(t, s).gaps, SplitFrom(t, n).gaps;
      assert AllSpace(t[i..n]);
      forall k | 1 <= k < |g| ensures g[k] != [] && AllSpace(g[k]) {
        assert g[k] == rest[k - 1];
      }
    }
  }

  /** Every piece followed by a removed run ends in `.`, `?` or `!`. */
  lemma {:induction false} SplitEnds(t: string, s: nat)
    requires s <= |t| && (s < |t| ==> !IsSpace(t[s]))
    ensures CutAfterMarks(SplitFrom(t, s))
    decreases |t| - s
  {
    var i := NextBreak(t, s);
    if i < |t| {
      var n := RunEnd(t, i);
      SplitEnds(t, n);
      var r, rest := SplitFrom(t, s), SplitFrom(t, n);
      assert t[s..i][i - s - 1] == t[i - 1];
      forall k | 1 <= k < |r.gaps| ensures EndsInMark(r.pieces[k]) {
        assert r.pieces[k] == rest.pieces[k - 1];
      }
    }
  }

  /** No piece holds a mark followed by whitespace: the split cuts at every break. */
  lemma {:induction false} SplitUnbroken(t: string, s: nat)
    requires s <= |t|
    ensures AllUnbroken(SplitFrom(t, s).pieces)
    decreases |t| - s
  {
    var i := NextBreak(t, s);
    UnbrokenSlice(t, s, i);
    if i < |t| {
      var n := RunEnd(t, i);
      SplitUnbroken(t, n);
      var ps, rest := SplitFrom(t, s).pieces, SplitFrom(t, n).pieces;
      forall k | 1 <= k < |ps| ensures Unbroken(ps[k]) {
        assert ps[k] == rest[k - 1];
      }
    } else {
      assert t[s..i] == t[s..];
    }
  }

  /** The text between `s` and the next break has no break of its own. */
  lemma UnbrokenSlice(t: string, s: nat, i: nat)
    requires s <= i <= |t| && forall k :: s <= k < i ==> !BreakAt(t, k)
    ensures Unbroken(t[s..i])
  {
    forall j | 1 <= j < i - s ensures !BreakAt(t[s..i], j) {
      assert !BreakAt(t, s + j);
      assert t[s..i][j - 1] == t[s + j - 1] && t[s..i][j] == t[s + j];
    }
  }

  /** Every piece after a removed run starts with something other than whitespace. */
  lemma {:induction false} SplitSolid(t: string, s: nat)
    requires s <= |t|
    ensures RunsTakenWhole(SplitFrom(t, s).pieces)
    decreases |t| - s
  {
    var i := NextBreak(t, s);
    if i < |t| {
      var n := RunEnd(t, i);
      SplitSolid(t, n);
      FirstPieceSolid(t, n);
      var ps, rest := SplitFrom(t, s).pieces, SplitFrom(t, n).pieces;
      forall k | 1 <= k < |ps| ensures StartsSolid(ps[k]) {
        assert ps[k] == rest[k - 1];
      }
    }
  }

  lemma FirstPieceSolid(t: string, s: nat)
    requires s <= |t| && (s < |t| ==> !IsSpace(t[s]))
    ensures StartsSolid(SplitFrom(t, s).pieces[0])
  {
    var i := NextBreak(t, s);
    if s < i {
      assert t[s..i][0] == t[s];
    }
  }

  /** `_split_into_sentences`: the stripped non-blank pieces of the stripped text */
  function SplitIntoSentences(text: string): seq<string> {
    Kept(SplitAfterMarks(Strip(text)).pieces)
  }

  // ------------------------------------------------------------------
  // `_process_single_text` and `process`

  /** `_process_sentence` */
  function ProcessSentence(st: Settings, sentence: string): string {
    if Strip(sentence) == [] then "" else Strip(if st.capitalize then Capitalized(sentence) else sentence)
  }

  /** the non-empty processed sentences, in order */
  function ProcessedLines(st: Settings, sentences: seq<string>): (r: seq<string>)
    ensures forall k :: 0 <= k < |r| ==> r[k] != []
    decreases |sentences|
  {
    if sentences == [] then []
    else
      var rest := ProcessedLines(st, sentences[..|sentences| - 1]);
      var line := ProcessSentence(st, sentences[|sentences| - 1]);
      if line == "" then rest else rest + [line]
  }

  lemma ProcessedLinesSnoc(st: Settings, sentences: seq<string>, x: string)
    ensures var line := ProcessSentence(st, x);
      ProcessedLines(st, sentences + [x]) ==
        ProcessedLines(st, sentences) + (if line == "" then [] else [line])
  {
    assert (sentences + [x])[..|sentences|] == sentences;
  }

  lemma ProcessedLinesStep(st: Settings, sentences: seq<string>, i: nat)
    requires i < |sentences|
    ensures var line := ProcessSentence(st, sentences[i]);
      ProcessedLines(st, sentences[..i + 1]) ==
        ProcessedLines(st, sentences[..i]) + (if line == "" then [] else [line])
  {
    assert sentences[..i + 1] == sentences[..i] + [sentences[i]];
    ProcessedLinesSnoc(st, sentences[..i], sentences[i]);
  }

  predicate AllStripped(lines: seq<string>) {
    forall k :: 0 <= k < |lines| ==> Strip(lines[k]) == lines[k]
  }

  /** A processed sentence is already stripped. */
  lemma ProcessSentenceStripped(st: Settings, sentence: string)
    ensures Strip(ProcessSentence(st, sentence)) == ProcessSentence(st, sentence)
  {
    if Strip(sentence) != [] {
      StripIdempotent(if st.capitalize then Capitalized(sentence) else sentence);
    }
  }

  /** Every line the sentences become is stripped. */
  lemma {:induction false} ProcessedLinesStripped(st: Settings, sentences: seq<string>)
    ensures AllStripped(ProcessedLines(st, sentences))
    decreases |sentences|
  {
    if sentences != [] {
      var prefix := sentences[..|sentences| - 1];
      var line := ProcessSentence(st, sentences[|sentences| - 1]);
      var rest := ProcessedLines(st, prefix);
      ProcessedLinesStripped(st, prefix);
      ProcessSentenceStripped(st, sentences[|sentences| - 1]);
      if line != "" {
        assert ProcessedLines(st, sentences) == rest + [line];
        assert AllStripped(rest + [line]) by {
          forall k | 0 <= k < |rest| + 1 ensures Strip((rest + [line])[k]) == (rest + [line])[k] {
            if k < |rest| {
              assert (rest + [line])[k] == rest[k];
            }
          }
        }
      }
    }
  }

  /** the text the model's output becomes */
  function Punctuated(st: Settings, punctuated: string): string {
    var sentences := if st.split then SplitIntoSentences(punctuated) else [Strip(punctuated)];
    var result := Join(ProcessedLines(st, sentences), "\n");
    if st.replaceDashes then ReplaceDashes(result) else result
  }

  /**
   * `_process_single_text`: a value that is not a non-empty string, and a
   * blank string, come back as they are; so does the text when the model
   * raises.
   */
  function ProcessText(st: Settings, model: string -> Result<string>, v: Value): Value {
    if !(v.VStr? && v.s != "") then v
    else if Strip(v.s) == [] then v
    else match model(v.s)
      case Failure(_) => v
      case Success(p) => VStr(Punctuated(st, p))
  }

  /** A model that raises, a blank text and a value that is not a string all leave the input as it was. */
  lemma FallbacksKeepInput(st: Settings, model: string -> Result<string>, v: Value)
    requires !v.VStr? || Strip(v.s) == [] || model(v.s).Failure?
    ensures ProcessText(st, model, v) == v
  {
  }

  /**
   * With every option off the plugin reduces to stripping what the model
   * returns: one sentence, nothing capitalised, no dash replaced.
   */
  lemma AllOffStrips(st: Settings, model: string -> Result<string>, v: Value, p: string)
    requires !st.split && !st.capitalize && !st.replaceDashes
    requires v.VStr? && Strip(v.s) != [] && model(v.s) == Success(p)
    ensures ProcessText(st, model, v) == VStr(Strip(p))
  {
    PunctuatedAllOff(st, p);
  }

  lemma PunctuatedAllOff(st: Settings, p: string)
    requires !st.split && !st.capitalize && !st.replaceDashes
    ensures Punctuated(st, p) == Strip(p)
  {
    StripIdempotent(p);
    StrippedLine(st, Strip(p));
  }

  /** Without capitalisation a stripped text is its own only line, unless it is empty. */
  lemma StrippedLine(st: Settings, x: string)
    requires !st.capitalize && Strip(x) == x
    ensures ProcessedLines(st, [x]) == (if x == [] then [] else [x])
  {
    assert ProcessSentence(st, x) == (if x == [] then "" else x);
    ProcessedLinesSnoc(st, [], x);
    assert [] + [x] == [x];
  }

  /** `process` once the model is loaded: a list is mapped element by element */
  function ProcessValue(st: Settings, model: string -> Result<string>, v: Value): (r: Value)
    ensures v.VList? ==> (r.VList? && |r.items| == |v.items| &&
      forall k :: 0 <= k < |v.items| ==> r.items[k] == ProcessText(st, model, v.items[k]))
    ensures !v.VList? ==> r == ProcessText(st, model, v)
  {
    if v.VList? then VList(seq(|v.items|, k requires 0 <= k < |v.items| => ProcessText(st, model, v.items[k])))
    else ProcessText(st, model, v)
  }

  class PunctuationAdderPlugin {
    const settings: Settings
    /** `restore_punctuation` of the model once loaded */
    const model: string -> Result<string>
    var modelLoaded: bool

    /** `__init__`, for a configuration it accepts; the model is not loaded yet */
    constructor(config: Dict, model: string -> Result<string>)
      requires SettingsOf(config).Success?
      ensures settings == SettingsOf(config).value && this.model == model && !modelLoaded
    {
      settings := SettingsOf(config).value;
      this.model := model;
      modelLoaded := false;
    }

    /** `_load_model`: `loads` says whether building the model succeeds */
    method LoadModel(loads: bool) returns (ok: bool)
      modifies this
      ensures ok <==> old(modelLoaded) || loads
      ensures modelLoaded == ok
    {
      if modelLoaded {
        return true;
      }
      if !loads {
        return false;
      }
      modelLoaded := true;
      return true;
    }

    /** `get_model_info` */
    function ModelStatus(): (r: string)
      reads this
      ensures r == "loaded" <==> modelLoaded
    {
      if modelLoaded then "loaded" else "not_loaded"
    }

    /** `cleanup`: the model is dropped and will be loaded again on the next call */
    method Cleanup()
      modifies this
      ensures !modelLoaded
    {
      modelLoaded := false;
    }

    /** the loop of `_process_single_text` over the sentences */
    method ProcessSentences(sentences: seq<string>) returns (processedLines: seq<string>)
      ensures processedLines == ProcessedLines(settings, sentences)
    {
      processedLines := [];
      assert sentences[..0] == [];
      for i := 0 to |sentences|
        invariant processedLines == ProcessedLines(settings, sentences[..i])
      {
        var processed := ProcessSentence(settings, sentences[i]);
        ProcessedLinesStep(settings, sentences, i);
        if processed != "" {
          processedLines := processedLines + [processed];
        }
      }
      assert sentences[..|sentences|] == sentences;
    }

    /** `_process_single_text` */
    method ProcessSingleText(v: Value) returns (r: Value)
      ensures r == ProcessText(settings, model, v)
    {
      if !(v.VStr? && v.s != "") {
        return v;
      }
      var text := v.s;
      if Strip(text) == [] {
        return v;
      }
      var restored := model(text);
      if restored.Failure? {
        return v;
      }
      var punctuated := restored.value;
      var sentences := if settings.split then SplitIntoSentences(punctuated) else [Strip(punctuated)];
      var processedLines := ProcessSentences(sentences);
      var result := Join(processedLines, "\n");
      if settings.replaceDashes {
        result := ReplaceDashes(result);
      }
      assert result == Punctuated(settings, punctuated);
      r := VStr(result);
    }

    /**
     * `process`: a disabled plugin returns its input without loading the
     * model; otherwise a model that fails to load raises, a list is mapped
     * element by element, and anything else is one text.
     */
    method Process(v: Value, loads: bool) returns (r: Result<Value>)
      modifies this
      ensures !settings.enabled ==> r == Success(v) && modelLoaded == old(modelLoaded)
      ensures settings.enabled ==> (r.Success? <==> old(modelLoaded) || loads)
      ensures r.Success? && settings.enabled ==> r.value == ProcessValue(settings, model, v)
    {
      if !settings.enabled {
        return Success(v);
      }
      var ok := LoadModel(loads);
      if !ok {
        return Failure("Failed to load punctuation model");
      }
      if v.VList? {
        var out := ProcessList(v.items);
        return Success(VList(out));
      }
      var x := ProcessSingleText(v);
      return Success(x);
    }

    /** the list branch of `process`: each element processed on its own */
    method ProcessList(items: seq<Value>) returns (out: seq<Value>)
      ensures out == ProcessValue(settings, model, VList(items)).items
    {
      out := [];
      for i := 0 to |items|
        invariant |out| == i
        invariant forall k :: 0 <= k < i ==> out[k] == ProcessText(settings, model, items[k])
      {
        var x := ProcessSingleText(items[i]);
        out := out + [x];
      }
    }
  }
}
